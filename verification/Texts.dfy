/**
 Python strings as sequences of Unicode code points. Surrogates are ordinary
 code points here, because a script can write one with a `\u` escape and the
 evaluator has to refuse it.
 */
module Texts {
  type CodePoint = c: nat | c < 0x11_0000

  type Text = seq<CodePoint>

  const TAB: CodePoint := 0x09
  const NEWLINE: CodePoint := 0x0A
  const RETURN: CodePoint := 0x0D
  const SPACE: CodePoint := 0x20
  const DOUBLE_QUOTE: CodePoint := 0x22
  const HASH: CodePoint := 0x23
  const SINGLE_QUOTE: CodePoint := 0x27
  const EQUALS: CodePoint := 0x3D
  const COLON: CodePoint := 0x3A
  const BACKSLASH: CodePoint := 0x5C
  const OPEN_BRACE: CodePoint := 0x7B
  const CLOSE_BRACE: CodePoint := 0x7D

  /** The code points of a source-level string literal. */
  function Chars(s: string): (t: Text)
    ensures |t| == |s|
    ensures forall i :: 0 <= i < |s| ==> t[i] == s[i] as int
  {
    seq(|s|, i requires 0 <= i < |s| => s[i] as int)
  }

  /** `str.isspace` on one character. */
  predicate IsSpace(c: CodePoint) {
    || 0x09 <= c <= 0x0D || 0x1C <= c <= 0x20 || c == 0x85 || c == 0xA0 || c == 0x1680
    || 0x2000 <= c <= 0x200A || c == 0x2028 || c == 0x2029 || c == 0x202F || c == 0x205F || c == 0x3000
  }

  /** The characters at which `str.splitlines` breaks a line. */
  predicate IsLineBoundary(c: CodePoint) {
    0x0A <= c <= 0x0D || 0x1C <= c <= 0x1E || c == 0x85 || c == 0x2028 || c == 0x2029
  }

  predicate IsDigit(c: CodePoint) {
    0x30 <= c <= 0x39
  }

  predicate IsLetter(c: CodePoint) {
    0x41 <= c <= 0x5A || 0x61 <= c <= 0x7A
  }

  predicate AllSpace(t: Text) {
    forall i :: 0 <= i < |t| ==> IsSpace(t[i])
  }

  /** `str.casefold` on ASCII letters; every other character is kept. */
  function AsciiFold(t: Text): (r: Text)
    ensures |r| == |t|
  {
    seq(|t|, i requires 0 <= i < |t| => if 0x41 <= t[i] <= 0x5A then t[i] + 0x20 else t[i])
  }

  /** `written` is the lower-case name in any mixture of capitals. */
  predicate Capitalizes(written: Text, name: string) {
    && |written| == |name|
    && forall i :: 0 <= i < |name| ==>
         && !('A' <= name[i] <= 'Z')
         && (written[i] == name[i] as int || ('a' <= name[i] <= 'z' && written[i] == name[i] as int - 0x20))
  }

  /** The decimal digits of a number. */
  function Digits(n: nat): (t: Text)
    ensures t != [] && forall i :: 0 <= i < |t| ==> IsDigit(t[i])
  {
    if n < 10 then [0x30 + n] else Digits(n / 10) + [0x30 + n % 10]
  }

  function StripLeft(t: Text): (r: Text)
    ensures |r| <= |t| && r == t[|t| - |r|..]
    ensures r != [] ==> !IsSpace(r[0])
  {
    if t != [] && IsSpace(t[0]) then StripLeft(t[1..]) else t
  }

  function StripRight(t: Text): (r: Text)
    ensures |r| <= |t| && r == t[..|r|]
    ensures r != [] ==> !IsSpace(r[|r| - 1])
  {
    if t != [] && IsSpace(t[|t| - 1]) then StripRight(t[..|t| - 1]) else t
  }

  /** `str.strip()`. */
  function Strip(t: Text): (r: Text)
    ensures |r| <= |t|
    ensures r != [] ==> !IsSpace(r[0]) && !IsSpace(r[|r| - 1])
  {
    StripRight(StripLeft(t))
  }

  predicate StartsWith(t: Text, prefix: Text) {
    |prefix| <= |t| && t[..|prefix|] == prefix
  }

  predicate OccursAt(t: Text, sub: Text, k: nat) {
    k + |sub| <= |t| && t[k..k + |sub|] == sub
  }

  /** `t.find(sub, from)`, with -1 for absent. */
  function Find(t: Text, sub: Text, from: nat): (r: int)
    requires from <= |t|
    ensures -1 <= r <= |t|
    ensures r >= 0 ==> from <= r && OccursAt(t, sub, r)
    ensures forall k :: from <= k && (r < 0 || k < r) ==> !OccursAt(t, sub, k)
    decreases |t| - from
  {
    if OccursAt(t, sub, from) then from
    else if from == |t| then -1
    else Find(t, sub, from + 1)
  }

  /** A text that neither starts nor ends with a blank is its own strip. */
  lemma StripFixed(t: Text)
    requires t == [] || (!IsSpace(t[0]) && !IsSpace(t[|t| - 1]))
    ensures Strip(t) == t
  {
  }

  /** A text with a character that is not blank has a strip that is not empty. */
  lemma {:induction false} StripKeeps(t: Text)
    requires t != [] && !IsSpace(t[0])
    ensures Strip(t) != []
  {
    StripRightKeeps(t);
  }

  lemma StripAhead(c: CodePoint, t: Text)
    requires IsSpace(c)
    ensures Strip([c] + t) == Strip(t)
  {
    assert ([c] + t)[1..] == t;
  }

  lemma {:induction false} StripRightKeeps(t: Text)
    requires t != [] && !IsSpace(t[0])
    ensures StripRight(t) != []
  {
    if IsSpace(t[|t| - 1]) {
      StripRightKeeps(t[..|t| - 1]);
    }
  }

  /** Blanks on either side of a stripped text do not show. */
  lemma {:induction false} StripPadded(before: Text, t: Text, after: Text)
    requires AllSpace(before) && AllSpace(after)
    requires t == [] || (!IsSpace(t[0]) && !IsSpace(t[|t| - 1]))
    ensures Strip(before + t + after) == t
  {
    hide StripLeft, StripRight, AllSpace, IsSpace;
    StripLeftPadded(before, t + after);
    assert before + (t + after) == before + t + after;
    if t == [] {
      assert t + after == after;
      StripLeftPadded(after, []);
      assert after + [] == after;
      StripNothing();
    } else {
      StripStays(t + after);
      StripStays(t);
      StripRightPadded(t, after);
    }
  }

  lemma StripNothing()
    ensures StripLeft([]) == [] && StripRight([]) == []
  {
  }

  lemma StripStays(t: Text)
    requires t != []
    ensures !IsSpace(t[0]) ==> StripLeft(t) == t
    ensures !IsSpace(t[|t| - 1]) ==> StripRight(t) == t
  {
  }

  lemma {:induction false} StripLeftPadded(before: Text, t: Text)
    requires AllSpace(before)
    ensures StripLeft(before + t) == StripLeft(t)
  {
    if before == [] {
      assert before + t == t;
    } else {
      assert (before + t)[1..] == before[1..] + t;
      StripLeftPadded(before[1..], t);
    }
  }

  lemma {:induction false} StripRightPadded(t: Text, after: Text)
    requires AllSpace(after)
    ensures StripRight(t + after) == StripRight(t)
  {
    if after == [] {
      assert t + after == t;
    } else {
      var last := |after| - 1;
      assert (t + after)[..|t + after| - 1] == t + after[..last];
      StripRightPadded(t, after[..last]);
    }
  }

  // ----- Line and column of an offset -----

  datatype Position = Position(line: int, column: int)

  /** `prefix.count("\n")`. */
  function CountBreaks(prefix: Text): nat {
    if prefix == [] then 0
    else CountBreaks(prefix[..|prefix| - 1]) + if prefix[|prefix| - 1] == NEWLINE then 1 else 0
  }

  /** `prefix.rfind("\n")`. */
  function LastBreak(prefix: Text): (r: int)
    ensures -1 <= r < |prefix|
    ensures r >= 0 ==> prefix[r] == NEWLINE
    ensures forall k :: r < k < |prefix| ==> prefix[k] != NEWLINE
  {
    if prefix == [] then -1
    else if prefix[|prefix| - 1] == NEWLINE then |prefix| - 1
    else LastBreak(prefix[..|prefix| - 1])
  }

  /** The position of offset `p` when the source itself starts at `origin`. */
  function PositionAt(source: Text, origin: Position, p: nat): Position
    requires p <= |source|
  {
    var prefix := source[..p];
    Position(origin.line + CountBreaks(prefix),
             if LastBreak(prefix) < 0 then origin.column + p else p - LastBreak(prefix))
  }

  /** How the closed form moves over one character. */
  lemma PositionNext(source: Text, origin: Position, p: nat)
    requires p < |source|
    ensures PositionAt(source, origin, p + 1)
         == var here := PositionAt(source, origin, p);
            if source[p] == NEWLINE then Position(here.line + 1, 1) else Position(here.line, here.column + 1)
  {
    assert source[..p + 1][..p] == source[..p];
  }

  /** How the closed form moves over a stretch without line breaks. */
  lemma {:induction false} PositionSkip(source: Text, origin: Position, p: nat, n: nat)
    requires p + n <= |source|
    requires forall k :: p <= k < p + n ==> source[k] != NEWLINE
    ensures PositionAt(source, origin, p + n)
         == var here := PositionAt(source, origin, p); Position(here.line, here.column + n)
  {
    if n > 0 {
      PositionSkip(source, origin, p, n - 1);
      PositionNext(source, origin, p + n - 1);
    }
  }
}
