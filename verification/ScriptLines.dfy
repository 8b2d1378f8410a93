/**
 What does not matter in a tagging program: blanks around a line, blank lines
 and comment lines. `DressedCompiles` says it of whole programs, whatever they
 compile to.
 */
module ScriptLines {
  import opened Wrappers
  import opened Texts
  import opened ScriptSyntax
  import opened ScriptLexer
  import opened ScriptParser
  import opened ScriptCompiler
  import opened ScriptPrinter
  import Blocks = ScriptBlocks
  import opened ScriptProgramPrinter

  // ----- Compiling does not look at the position of the source -----

  function EraseError(error: ScriptError): ScriptError {
    ScriptError(error.kind, HOME)
  }

  function EraseCompiled(r: Result<Expression>): Result<Expression> {
    match r
    case Ok(e) => Ok(Erase(e))
    case Err(error) => Err(EraseError(error))
  }

  function EraseFound(found: Option<ScriptError>): Option<ScriptError> {
    match found
    case None => None
    case Some(error) => Some(EraseError(error))
  }

  lemma {:induction false} FoundErased(e: Expression)
    ensures EraseFound(FirstError(Walk(Erase(e)))) == EraseFound(FirstError(Walk(e)))
    decreases e, 0
  {
    match e
    case ListExpression(children, _) =>
      FoundAllErased(children);
      FirstErrorOfBoth([e], WalkAll(children));
      FirstErrorOfBoth([Erase(e)], WalkAll(EraseAll(children)));
    case Call(_, children, _) =>
      FoundAllErased(children);
      FirstErrorOfBoth([e], WalkAll(children));
      FirstErrorOfBoth([Erase(e)], WalkAll(EraseAll(children)));
    case _ =>
  }

  lemma {:induction false} FoundAllErased(es: seq<Expression>)
    ensures EraseFound(FirstError(WalkAll(EraseAll(es)))) == EraseFound(FirstError(WalkAll(es)))
    decreases es, 1
  {
    if es != [] {
      FoundErased(es[0]);
      FoundAllErased(es[1..]);
      assert EraseAll(es)[1..] == EraseAll(es[1..]);
      FirstErrorOfBoth(Walk(es[0]), WalkAll(es[1..]));
      FirstErrorOfBoth(Walk(Erase(es[0])), WalkAll(EraseAll(es[1..])));
    }
  }

  lemma CheckedErased(a: Result<Expression>, b: Result<Expression>)
    requires EraseCompiled(a) == EraseCompiled(b)
    ensures EraseCompiled(Checked(a)) == EraseCompiled(Checked(b))
  {
    hide Walk, FirstError, Erase;
    if a.Ok? {
      FoundErased(a.value);
      FoundErased(b.value);
    }
  }

  lemma ParsedErased(tokens: seq<Token>)
    requires Terminated(tokens)
    ensures Terminated(EraseTokens(tokens))
    ensures EraseCompiled(ParseExpression(EraseTokens(tokens))) == EraseCompiled(ParseExpression(tokens))
  {
    hide ParsePrimary, Erase;
    ParseErased(tokens, 0, 1);
    var p := ParsePrimary(tokens, 0, 1);
    if p.Parsed? {
      EraseTwice(p.value);
    }
  }

  lemma {:induction false} EraseTwice(e: Expression)
    ensures Erase(Erase(e)) == Erase(e)
    decreases e, 0
  {
    match e
    case ListExpression(children, _) => EraseAllTwice(children);
    case Call(_, children, _) => EraseAllTwice(children);
    case _ =>
  }

  lemma {:induction false} EraseAllTwice(es: seq<Expression>)
    ensures EraseAll(EraseAll(es)) == EraseAll(es)
    decreases es, 1
  {
    if es != [] {
      EraseTwice(es[0]);
      EraseAllTwice(es[1..]);
    }
  }

  /** A source compiles to the same expression, or is refused for the same reason, wherever it stands. */
  lemma CompileErased(source: Text, a: Position, b: Position)
    ensures EraseCompiled(Compile(source, a)) == EraseCompiled(Compile(source, b))
  {
    hide Checked, ParseExpression, Strip, LexFrom, PositionAt;
    var first, second := Tokens(source, a), Tokens(source, b);
    if first.Ok? {
      assert EraseTokens(first.value) == EraseTokens(second.value);
      ParsedErased(first.value);
      ParsedErased(second.value);
      CheckedErased(ParseExpression(first.value), ParseExpression(second.value));
    }
  }

  // ----- Blanks around a line -----

  function EraseReading(r: Blocks.Reading): Blocks.Reading {
    match r
    case IfLine(condition, _) => Blocks.IfLine(Erase(condition), HOME)
    case Simple(statement) => Blocks.Simple(EraseStatement(statement))
    case BadLine(error) => Blocks.BadLine(EraseError(error))
    case _ => r
  }

  /** What a line reads as depends on its strip, and on everything else for its positions only. */
  lemma StrippedReads(a: Text, b: Text, stripped: Text, p: Position, q: Position)
    ensures EraseReading(Blocks.ReadStripped(a, stripped, p)) == EraseReading(Blocks.ReadStripped(b, stripped, q))
  {
    hide Compile, Strip, StartsWith, Erase, Find, Blocks.IsTarget, Blocks.ReadIf, Blocks.ReadAssign;
    PrefixFits(stripped, Blocks.IF_PREFIX);
    PrefixFits(stripped, Blocks.SET_PREFIX);
    PrefixFits(stripped, Blocks.APPEND_PREFIX);
    if StartsWith(stripped, Blocks.IF_PREFIX) {
      IfReads(a, b, stripped, p, q);
    }
    if StartsWith(stripped, Blocks.SET_PREFIX) {
      AssignReads(a, b, SetTag, stripped[|Blocks.SET_PREFIX|..], p, q);
    }
    if StartsWith(stripped, Blocks.APPEND_PREFIX) {
      AssignReads(a, b, AppendTag, stripped[|Blocks.APPEND_PREFIX|..], p, q);
    }
  }

  lemma PrefixFits(t: Text, prefix: Text)
    ensures StartsWith(t, prefix) ==> |prefix| <= |t|
  {
  }

  lemma IfReads(a: Text, b: Text, stripped: Text, p: Position, q: Position)
    requires |stripped| >= 3
    ensures EraseReading(Blocks.ReadIf(a, stripped, p)) == EraseReading(Blocks.ReadIf(b, stripped, q))
  {
    hide Compile, Strip, Erase, Find;
    if |stripped| > 3 {
      var source := Strip(stripped[3..|stripped| - 1]);
      CompileErased(source, Position(p.line, Find(a, source, 0) + 1), Position(q.line, Find(b, source, 0) + 1));
    }
  }

  lemma SameCompiled(a: Result<Expression>, b: Result<Expression>)
    requires EraseCompiled(a) == EraseCompiled(b)
    ensures if a.Ok? then b.Ok? && Erase(a.value) == Erase(b.value) else b.Err? && a.error.kind == b.error.kind
  {
  }

  /** The end of an assignment line, from the compiled expression on. */
  function Assigned(operation: Operation, target: Text, compiled: Result<Expression>, at: Position): Blocks.Reading {
    match compiled
    case Err(error) => Blocks.BadLine(error)
    case Ok(expression) => Blocks.Simple(Assign(operation, target, expression, at))
  }

  lemma AssignEnds(raw: Text, operation: Operation, remainder: Text, equals: nat, at: Position)
      returns (origin: Position)
    requires Find(remainder, [EQUALS], 0) == equals && Blocks.IsTarget(Strip(remainder[..equals]))
    ensures Blocks.ReadAssign(raw, operation, remainder, at)
         == Assigned(operation, Strip(remainder[..equals]), Compile(Strip(remainder[equals + 1..]), origin), at)
  {
    hide Compile, Strip, Blocks.IsTarget;
    origin := Position(at.line, Find(raw, [EQUALS], 0) + 2);
  }

  lemma AssignRefused(raw: Text, operation: Operation, remainder: Text, at: Position)
    ensures var equals, r := Find(remainder, [EQUALS], 0), Blocks.ReadAssign(raw, operation, remainder, at);
            && (equals < 0 ==> r == Blocks.BadLine(ScriptError(ExpectedStatement, at)))
            && (equals >= 0 && !Blocks.IsTarget(Strip(remainder[..equals])) ==>
                  r == Blocks.BadLine(ScriptError(InvalidTarget, at)))
  {
    hide Compile, Strip, Blocks.IsTarget;
  }

  lemma AssignReads(a: Text, b: Text, operation: Operation, remainder: Text, p: Position, q: Position)
    ensures EraseReading(Blocks.ReadAssign(a, operation, remainder, p)) ==
              EraseReading(Blocks.ReadAssign(b, operation, remainder, q))
  {
    hide Compile, Strip, Erase, Find, Blocks.IsTarget, Blocks.ReadAssign;
    var equals := Find(remainder, [EQUALS], 0);
    AssignRefused(a, operation, remainder, p);
    AssignRefused(b, operation, remainder, q);
    if equals >= 0 && Blocks.IsTarget(Strip(remainder[..equals])) {
      var here := AssignEnds(a, operation, remainder, equals, p);
      var there := AssignEnds(b, operation, remainder, equals, q);
      var source := Strip(remainder[equals + 1..]);
      CompileErased(source, here, there);
      SameCompiled(Compile(source, here), Compile(source, there));
    }
  }

  /** The line is the text with blanks around it. */
  ghost predicate Surrounds(raw: Text, t: Text) {
    exists before: Text, after: Text :: AllSpace(before) && AllSpace(after) && raw == before + t + after
  }

  lemma {:induction false} StripLeftLeaves(t: Text)
    ensures AllSpace(t[..|t| - |StripLeft(t)|])
  {
    if t != [] && IsSpace(t[0]) {
      StripLeftLeaves(t[1..]);
      assert t[..|t| - |StripLeft(t)|] == [t[0]] + t[1..][..|t[1..]| - |StripLeft(t[1..])|];
    }
  }

  lemma {:induction false} StripRightLeaves(t: Text)
    ensures AllSpace(t[|StripRight(t)|..])
  {
    if t != [] && IsSpace(t[|t| - 1]) {
      StripRightLeaves(t[..|t| - 1]);
      assert t[|StripRight(t)|..] == t[..|t| - 1][|StripRight(t)|..] + [t[|t| - 1]];
    }
  }

  /** Every line is its strip with blanks around it. */
  lemma StripSurrounded(t: Text) returns (before: Text, after: Text)
    ensures AllSpace(before) && AllSpace(after) && t == before + Strip(t) + after
    ensures |before| == |t| - |StripLeft(t)|
  {
    hide StripLeft, StripRight, AllSpace;
    StripLeftLeaves(t);
    StripRightLeaves(StripLeft(t));
    before, after := t[..|t| - |StripLeft(t)|], StripLeft(t)[|Strip(t)|..];
    assert StripLeft(t) == Strip(t) + after;
  }

  lemma SpacesTogether(a: Text, b: Text)
    requires AllSpace(a) && AllSpace(b)
    ensures AllSpace(a + b)
  {
  }

  lemma Regroup(before: Text, b: Text, t: Text, a: Text, after: Text)
    ensures before + (b + t + a) + after == (before + b) + t + (a + after)
  {
  }

  lemma SurroundedStrip(before: Text, t: Text, after: Text)
    requires AllSpace(before) && AllSpace(after)
    ensures Strip(before + t + after) == Strip(t)
  {
    hide Strip, AllSpace;
    var b, a := StripSurrounded(t);
    Regroup(before, b, Strip(t), a, after);
    SpacesTogether(before, b);
    SpacesTogether(a, after);
    StripPadded(before + b, Strip(t), a + after);
  }

  /**
   Blanks around a line do not change what it reads as, on whatever line of the
   source it stands; they move its first column by the number of blanks in front.
   */
  lemma IndentedReads(before: Text, t: Text, after: Text, i: nat, j: nat)
    requires AllSpace(before) && AllSpace(after)
    ensures EraseReading(Blocks.ReadLine(before + t + after, i)) == EraseReading(Blocks.ReadLine(t, j))
    ensures t != [] && !IsSpace(t[0]) ==>
              Blocks.LineStart(before + t + after, i) == Position(i + 1, |before| + 1)
  {
    hide Blocks.ReadStripped, Strip, EraseReading, AllSpace, StripLeft;
    var raw := before + t + after;
    SurroundedStrip(before, t, after);
    StrippedReads(raw, t, Strip(t), Blocks.LineStart(raw, i), Blocks.LineStart(t, j));
    StripLeftPadded(before, t + after);
    assert before + (t + after) == raw;
    if t != [] && !IsSpace(t[0]) {
      StripStays(t + after);
    }
  }

  /** Where the reading says the line starts. */
  lemma ReadingPosition(raw: Text, i: nat)
    ensures match Blocks.ReadLine(raw, i)
            case IfLine(_, at) => at == Blocks.LineStart(raw, i)
            case Simple(statement) => statement.at == Blocks.LineStart(raw, i)
            case _ => true
  {
    hide Compile, Strip, StartsWith, Find, Blocks.IsTarget, Blocks.LineStart;
  }

  // ----- The three kinds of statement lines, with blanks wherever they may stand -----

  /** Something in it, and no blank at either end. */
  predicate Trim(t: Text) {
    t != [] && !IsSpace(t[0]) && !IsSpace(t[|t| - 1])
  }

  lemma TrimLine(before: Text, line: Text, after: Text, i: nat)
    requires AllSpace(before) && AllSpace(after) && Trim(line)
    ensures Blocks.ReadLine(before + line + after, i) ==
              Blocks.ReadStripped(before + line + after, line, Position(i + 1, |before| + 1))
  {
    hide Blocks.ReadStripped, Strip, AllSpace, StripLeft;
    StripPadded(before, line, after);
    IndentedReads(before, line, after, i, i);
  }

  lemma TrimTogether(a: Text, b: Text, c: Text)
    requires a != [] && !IsSpace(a[0]) && Trim(c)
    ensures Trim(a + b + c)
  {
  }

  /** A target starts with a letter or an underscore, and goes on with letters, digits, blanks and four signs. */
  lemma TargetExact(t: Text)
    ensures Blocks.IsTarget(t) <==>
            && t != [] && (IsLetter(t[0]) || t[0] == '_' as int)
            && forall k :: 0 <= k < |t| ==> IsLetter(t[k]) || IsDigit(t[k]) || t[k] in Chars("_.:/- ")
  {
    assert Chars("_.:/- ") == [0x5F, 0x2E, 0x3A, 0x2F, 0x2D, 0x20];
  }

  lemma DeleteDispatch(raw: Text, rest: Text, at: Position)
    requires Strip(rest) == rest != []
    ensures Blocks.ReadStripped(raw, Blocks.DELETE_PREFIX + rest, at) == Blocks.ReadDelete(rest, at)
  {
    hide Strip, StartsWith, Blocks.ReadDelete;
    var line := Blocks.DELETE_PREFIX + rest;
    assert line[0] == Blocks.DELETE_PREFIX[0] == 0x64;
    StartsWithPrefix(Blocks.DELETE_PREFIX, rest);
    Keywords(line);
  }

  /** `delete`: what stands behind the word is the target. */
  lemma DeleteLine(before: Text, target: Text, after: Text, i: nat)
    requires AllSpace(before) && AllSpace(after) && Trim(target)
    ensures var at := Position(i + 1, |before| + 1);
            Blocks.ReadLine(before + (Chars("delete ") + target) + after, i) ==
            if Blocks.IsTarget(target) then Blocks.Simple(Delete(target, at))
            else Blocks.BadLine(ScriptError(InvalidTarget, at))
  {
    hide Strip, Blocks.ReadLine, Blocks.ReadStripped, AllSpace, Blocks.IsTarget;
    var line := Chars("delete ") + target;
    TrimTogether(Chars("delete "), [], target);
    assert Chars("delete ") + [] + target == line;
    TrimLine(before, line, after, i);
    StripFixed(target);
    DeleteDispatch(before + line + after, target, Position(i + 1, |before| + 1));
  }

  /** The first `=` of a line is found behind everything that holds none. */
  lemma FirstEquals(before: Text, after: Text)
    requires forall k :: 0 <= k < |before| ==> before[k] != EQUALS
    ensures Find(before + [EQUALS] + after, [EQUALS], 0) == |before|
  {
    var t := before + [EQUALS] + after;
    OccursChar(t, EQUALS, |before|);
    var r := Find(t, [EQUALS], 0);
    if r >= 0 {
      OccursChar(t, EQUALS, r);
    }
  }

  lemma NoEquals(first: Text, target: Text, last: Text)
    requires AllSpace(first) && AllSpace(last) && Blocks.IsTarget(target)
    ensures forall k :: 0 <= k < |first + target + last| ==> (first + target + last)[k] != EQUALS
  {
  }

  function Keyword(operation: Operation): Text {
    if operation.SetTag? then Chars("set ") else Chars("append ")
  }

  lemma AssignDispatch(raw: Text, operation: Operation, remainder: Text, at: Position)
    ensures Blocks.ReadStripped(raw, Keyword(operation) + remainder, at) ==
              Blocks.ReadAssign(raw, operation, remainder, at)
  {
    hide Strip, StartsWith, Blocks.ReadAssign, Blocks.ReadIf, Blocks.ReadDelete;
    var line := Keyword(operation) + remainder;
    assert line[0] == Keyword(operation)[0];
    StartsWithPrefix(Keyword(operation), remainder);
    Keywords(line);
  }

  /** The texts on both sides of the first `=`, with blanks around them. */
  lemma AssignSplit(first: Text, target: Text, second: Text, third: Text, source: Text)
    requires AllSpace(first) && AllSpace(second) && AllSpace(third)
    requires Blocks.IsTarget(target) && Trim(target) && Trim(source)
    ensures var remainder, equals := first + target + second + [EQUALS] + (third + source),
                                     |first| + |target| + |second|;
            && Find(remainder, [EQUALS], 0) == equals
            && Strip(remainder[..equals]) == target && Strip(remainder[equals + 1..]) == source
  {
    hide Strip, Find, AllSpace, Blocks.IsTarget;
    NoEquals(first, target, second);
    FirstEquals(first + target + second, third + source);
    var remainder, equals := first + target + second + [EQUALS] + (third + source), |first| + |target| + |second|;
    assert remainder[..equals] == first + target + second;
    assert remainder[equals + 1..] == third + source + [];
    StripPadded(first, target, second);
    NoSpace();
    StripPadded(third, source, []);
  }

  lemma NoSpace()
    ensures AllSpace([])
  {
  }

  /**
   `set` and `append`: target and expression stand around the first `=`, with any
   blanks between the parts, and the expression is compiled as if it began in the
   column behind the `=`.
   */
  lemma AssignLine(
      before: Text, operation: Operation, first: Text, target: Text, second: Text, third: Text, source: Text,
      after: Text, i: nat)
    requires AllSpace(before) && AllSpace(first) && AllSpace(second) && AllSpace(third) && AllSpace(after)
    requires Blocks.IsTarget(target) && Trim(target) && Trim(source)
    ensures var start := before + Keyword(operation) + first + target + second;
            var raw := before + (Keyword(operation) + (first + target + second + [EQUALS] + (third + source))) + after;
            Blocks.ReadLine(raw, i) ==
            match Compile(source, Position(i + 1, |start| + 2))
            case Ok(e) => Blocks.Simple(Assign(operation, target, e, Position(i + 1, |before| + 1)))
            case Err(error) => Blocks.BadLine(error)
  {
    hide Strip, Blocks.ReadLine, Blocks.ReadStripped, Blocks.ReadAssign, AllSpace, Blocks.IsTarget, Compile, Find, Trim,
      Keyword;
    var remainder := first + target + second + [EQUALS] + (third + source);
    var at, raw := Position(i + 1, |before| + 1), before + (Keyword(operation) + remainder) + after;
    AssignTrim(operation, first + target + second + [EQUALS], third, source);
    TrimLine(before, Keyword(operation) + remainder, after, i);
    AssignDispatch(raw, operation, remainder, at);
    AssignSplit(first, target, second, third, source);
    RawEquals(before, operation, first, target, second, third, source, after);
    AssignCompiles(raw, operation, remainder, |first| + |target| + |second|, at);
  }

  lemma AssignTrim(operation: Operation, left: Text, third: Text, source: Text)
    requires Trim(source)
    ensures Trim(Keyword(operation) + (left + (third + source)))
  {
    TrimTogether(Keyword(operation), left + third, source);
    assert Keyword(operation) + (left + third) + source == Keyword(operation) + (left + (third + source));
  }

  lemma AssignCompiles(raw: Text, operation: Operation, remainder: Text, equals: nat, at: Position)
    requires Find(remainder, [EQUALS], 0) == equals < |remainder| && Blocks.IsTarget(Strip(remainder[..equals]))
    ensures Blocks.ReadAssign(raw, operation, remainder, at) ==
              Assigned(operation, Strip(remainder[..equals]),
                Compile(Strip(remainder[equals + 1..]), Position(at.line, Find(raw, [EQUALS], 0) + 2)), at)
  {
    hide Compile, Strip, Blocks.IsTarget, Find;
  }

  lemma RawEquals(
      before: Text, operation: Operation, first: Text, target: Text, second: Text, third: Text, source: Text,
      after: Text)
    requires AllSpace(before) && AllSpace(first) && AllSpace(second) && Blocks.IsTarget(target)
    ensures var raw := before + (Keyword(operation) + (first + target + second + [EQUALS] + (third + source))) + after;
            Find(raw, [EQUALS], 0) == |before + Keyword(operation) + first + target + second|
  {
    hide Find;
    NoEquals(first, target, second);
    var start := before + Keyword(operation) + (first + target + second);
    assert forall k :: 0 <= k < |before| ==> before[k] != EQUALS;
    assert forall k :: 0 <= k < |Keyword(operation)| ==> Keyword(operation)[k] != EQUALS;
    FirstEquals(start, third + source + after);
    RegroupAssign(before, Keyword(operation), first + target + second, third + source, after);
    assert third + source + after == (third + source) + after;
  }

  lemma RegroupAssign(before: Text, word: Text, left: Text, right: Text, after: Text)
    ensures before + word + left + [EQUALS] + (right + after) ==
              before + (word + (left + [EQUALS] + right)) + after
  {
  }

  lemma IfDispatch(raw: Text, rest: Text, at: Position)
    ensures Blocks.ReadStripped(raw, Chars("if ") + rest, at) == Blocks.ReadIf(raw, Chars("if ") + rest, at)
  {
    hide Strip, StartsWith, Blocks.ReadIf;
    var line := Chars("if ") + rest;
    StartsWithPrefix(Chars("if "), rest);
    assert line[0] == Chars("if ")[0] == 0x69;
    Keywords(line);
  }

  /**
   `if`: the condition stands between the word and the colon, with any blanks
   around it, and is compiled as if it began where its text first occurs in the
   line, which may be in front of the condition itself.
   */
  lemma IfLineReads(before: Text, first: Text, source: Text, second: Text, after: Text, i: nat, k: nat)
    requires AllSpace(before) && AllSpace(first) && AllSpace(second) && AllSpace(after) && Trim(source)
    requires var raw := before + (Chars("if ") + (first + source + second + [COLON])) + after;
             OccursAt(raw, source, k) && forall earlier: nat :: earlier < k ==> !OccursAt(raw, source, earlier)
    ensures var raw := before + (Chars("if ") + (first + source + second + [COLON])) + after;
            Blocks.ReadLine(raw, i) ==
            match Compile(source, Position(i + 1, k + 1))
            case Ok(e) => Blocks.IfLine(e, Position(i + 1, |before| + 1))
            case Err(error) => Blocks.BadLine(error)
    ensures k <= |before| + 3 + |first|
  {
    hide Strip, Blocks.ReadLine, Blocks.ReadStripped, AllSpace, Compile, Find, OccursAt;
    var rest := first + source + second + [COLON];
    var line := Chars("if ") + rest;
    var raw := before + line + after;
    TrimTogether(Chars("if "), first + source + second, [COLON]);
    assert Chars("if ") + (first + source + second) + [COLON] == line;
    TrimLine(before, line, after, i);
    IfDispatch(raw, rest, Position(i + 1, |before| + 1));
    assert line[3..|line| - 1] == first + source + second;
    StripPadded(first, source, second);
    OccursThere(before + Chars("if ") + first, source, second + [COLON] + after);
    assert before + Chars("if ") + first + source + (second + [COLON] + after) == raw;
    assert Find(raw, source, 0) == k;
  }

  lemma OccursThere(before: Text, t: Text, after: Text)
    ensures OccursAt(before + t + after, t, |before|)
  {
  }

  // ----- Blank lines and comments -----

  /** Nothing but blanks, or a comment behind blanks. */
  ghost predicate Skippable(raw: Text) {
    AllSpace(raw) || exists k: nat {:trigger raw[..k]} :: k < |raw| && AllSpace(raw[..k]) && raw[k] == HASH
  }

  /** Exactly the blank lines and the comments are passed over. */
  lemma SkipExact(raw: Text, i: nat)
    ensures Blocks.ReadLine(raw, i) == Blocks.Skip <==> Skippable(raw)
  {
    hide Strip, Skippable, Blocks.ReadStripped;
    SkipReading(raw, Strip(raw), Blocks.LineStart(raw, i));
    StripSkippable(raw);
    if Skippable(raw) {
      SkippableStrip(raw);
    }
  }

  lemma SkipReading(raw: Text, stripped: Text, at: Position)
    ensures Blocks.ReadStripped(raw, stripped, at) == Blocks.Skip <==> stripped == [] || stripped[0] == HASH
  {
    hide Compile, StartsWith, Find, Blocks.IsTarget, Strip;
    PrefixFits(stripped, Blocks.IF_PREFIX);
  }

  lemma StripSkippable(raw: Text)
    ensures Strip(raw) == [] || Strip(raw)[0] == HASH ==> Skippable(raw)
  {
    hide Strip, AllSpace, StripLeft;
    var before, after := StripSurrounded(raw);
    if Strip(raw) == [] {
      SpacesTogether(before, after);
      assert raw == before + after;
    } else if Strip(raw)[0] == HASH {
      var k := |before|;
      assert raw[..k] == before && raw[k] == Strip(raw)[0];
    }
  }

  lemma SkippableStrip(raw: Text)
    requires Skippable(raw)
    ensures Strip(raw) == [] || Strip(raw)[0] == HASH
  {
    hide Strip;
    if AllSpace(raw) {
      StripPadded(raw, [], []);
      assert raw + [] + [] == raw;
    } else {
      var k: nat :| k < |raw| && AllSpace(raw[..k]) && raw[k] == HASH;
      CommentStrip(raw[..k], raw[k..]);
      assert raw[..k] + raw[k..] == raw;
    }
  }

  lemma CommentStrip(before: Text, comment: Text)
    requires AllSpace(before) && comment != [] && comment[0] == HASH
    ensures Strip(before + comment) != [] && Strip(before + comment)[0] == HASH
  {
    StripLeftPadded(before, comment);
    StripStays(comment);
    StripRightKeeps(comment);
  }

  // ----- Lines -----

  /** The ends of a line: one boundary character, or a return and a newline together. */
  predicate IsLineEnd(end: Text) {
    || end == [RETURN, NEWLINE]
    || (|end| == 1 && end[0] in {0x0A, 0x0B, 0x0C, 0x0D, 0x1C, 0x1D, 0x1E, 0x85, 0x2028, 0x2029})
  }

  /**
   A source is cut behind every end of a line, a return and the newline behind it
   taken together; the last line may have no end, and behind a last end there is
   no empty line.
   */
  lemma SplitCuts(line: Text, end: Text, rest: Text)
    requires OnOneLine(line) && IsLineEnd(end) && !(end == [RETURN] && rest != [] && rest[0] == NEWLINE)
    ensures Blocks.SplitLines(line + end + rest) == [line] + Blocks.SplitLines(rest)
    ensures line != [] ==> Blocks.SplitLines(line) == [line]
    ensures Blocks.SplitLines([]) == []
  {
    var t := line + end + rest;
    BoundaryBehind(line, end + rest);
    assert t == line + (end + rest);
    assert t[..|line|] == line && t[|line| + |end|..] == rest;
    if line != [] {
      BoundaryBehind(line, []);
      assert line + [] == line;
    }
  }

  lemma {:induction false} BoundaryBehind(line: Text, rest: Text)
    requires OnOneLine(line) && (rest != [] ==> IsLineBoundary(rest[0]))
    ensures Blocks.FirstBoundary(line + rest) == |line|
  {
    if line == [] {
      assert line + rest == rest;
    } else {
      assert (line + rest)[1..] == line[1..] + rest;
      BoundaryBehind(line[1..], rest);
    }
  }

  // ----- Whole programs -----

  /** The lines from `p` on are the plain lines from `q` on, with blanks around them and skipped lines in between. */
  ghost predicate Dressed(lines: seq<Text>, p: nat, plain: seq<Text>, q: nat)
    decreases |lines| - p
  {
    && p <= |lines| && q <= |plain|
    && (p == |lines| ==> q == |plain|)
    && (p < |lines| ==>
          || (Skippable(lines[p]) && Dressed(lines, p + 1, plain, q))
          || (q < |plain| && Surrounds(lines[p], plain[q]) && Dressed(lines, p + 1, plain, q + 1)))
  }

  /** The same statements up to positions and the same end, or an error of the same kind. */
  ghost predicate SameBlocks(lines: seq<Text>, a: Blocks.Block, plain: seq<Text>, b: Blocks.Block) {
    if a.BlockError? then b.BlockError? && a.error.kind == b.error.kind
    else
      && b.Block? && EraseStatements(a.statements) == EraseStatements(b.statements) && a.terminator == b.terminator
      && Dressed(lines, a.next, plain, b.next)
  }

  lemma SurroundedReads(raw: Text, t: Text, i: nat, j: nat)
    requires Surrounds(raw, t)
    ensures EraseReading(Blocks.ReadLine(raw, i)) == EraseReading(Blocks.ReadLine(t, j))
  {
    hide Blocks.ReadLine, EraseReading, AllSpace;
    var before: Text, after: Text :| AllSpace(before) && AllSpace(after) && raw == before + t + after;
    IndentedReads(before, t, after, i, j);
  }

  lemma {:induction false} ErasedTogether(a: seq<Statement>, b: seq<Statement>)
    ensures EraseStatements(a + b) == EraseStatements(a) + EraseStatements(b)
  {
    if a == [] {
      assert a + b == b;
    } else {
      assert (a + b)[1..] == a[1..] + b;
      ErasedTogether(a[1..], b);
    }
  }

  lemma PrecededSame(
      lines: seq<Text>, first: seq<Statement>, a: Blocks.Block, plain: seq<Text>, second: seq<Statement>,
      b: Blocks.Block)
    requires SameBlocks(lines, a, plain, b) && EraseStatements(first) == EraseStatements(second)
    ensures SameBlocks(lines, Blocks.Preceded(first, a), plain, Blocks.Preceded(second, b))
  {
    hide Dressed, EraseStatement;
    if a.Block? {
      ErasedTogether(first, a.statements);
      ErasedTogether(second, b.statements);
    }
  }

  /** Dressing does not change what the rest of a block is. */
  lemma {:induction false} LinesDressed(lines: seq<Text>, p: nat, plain: seq<Text>, q: nat, depth: nat, count: nat)
    requires Dressed(lines, p, plain, q)
    ensures SameBlocks(lines, Blocks.ParseLines(lines, p, depth, count), plain,
              Blocks.ParseLines(plain, q, depth, count))
    decreases |lines| - p, 1
  {
    hide Blocks.ReadLine, Blocks.ParseLines, Blocks.ParseConditional, Skippable, Surrounds, EraseStatement, Erase;
    Blocks.LinesUnfold(lines, p, depth, count);
    Blocks.LinesUnfold(plain, q, depth, count);
    if p == |lines| {
    } else if Skippable(lines[p]) && Dressed(lines, p + 1, plain, q) {
      SkipExact(lines[p], p);
      LinesDressed(lines, p + 1, plain, q, depth, count);
    } else {
      SurroundedReads(lines[p], plain[q], p, q);
      match Blocks.ReadLine(lines[p], p)
      case Skip =>
        LinesDressed(lines, p + 1, plain, q + 1, depth, count);
      case Simple(statement) =>
        LinesDressed(lines, p + 1, plain, q + 1, depth, count + 1);
        var other := Blocks.ReadLine(plain[q], q).statement;
        SingleErased(statement, other);
        PrecededSame(lines, [statement], Blocks.ParseLines(lines, p + 1, depth, count + 1),
                     plain, [other], Blocks.ParseLines(plain, q + 1, depth, count + 1));
      case IfLine(condition, at) =>
        var reading := Blocks.ReadLine(plain[q], q);
        ConditionalDressed(lines, p + 1, plain, q + 1, depth + 1, condition, at, reading.condition, reading.at);
        var one := Blocks.ParseConditional(lines, p + 1, depth + 1, condition, at);
        var other := Blocks.ParseConditional(plain, q + 1, depth + 1, reading.condition, reading.at);
        if one.Block? {
          LinesDressed(lines, one.next, plain, other.next, depth, count + 1);
          PrecededSame(lines, one.statements, Blocks.ParseLines(lines, one.next, depth, count + 1),
                       plain, other.statements, Blocks.ParseLines(plain, other.next, depth, count + 1));
        }
      case _ =>
    }
  }

  lemma SingleErased(a: Statement, b: Statement)
    requires EraseStatement(a) == EraseStatement(b)
    ensures EraseStatements([a]) == EraseStatements([b]) && (a.Assign? <==> b.Assign?)
  {
    assert [a][1..] == [] && [b][1..] == [];
  }

  lemma {:induction false} BlockDressed(lines: seq<Text>, p: nat, plain: seq<Text>, q: nat, depth: nat)
    requires Dressed(lines, p, plain, q)
    ensures SameBlocks(lines, Blocks.ParseBlock(lines, p, depth), plain, Blocks.ParseBlock(plain, q, depth))
    decreases |lines| - p, 2
  {
    hide Blocks.ParseLines, Dressed;
    DressedInside(lines, p, plain, q);
    LinesDressed(lines, p, plain, q, depth, 0);
  }

  lemma DressedInside(lines: seq<Text>, p: nat, plain: seq<Text>, q: nat)
    requires Dressed(lines, p, plain, q)
    ensures p <= |lines| && q <= |plain|
  {
  }

  lemma {:induction false} ConditionalDressed(
      lines: seq<Text>, p: nat, plain: seq<Text>, q: nat, depth: nat, a: Expression, at: Position, b: Expression,
      other: Position)
    requires Dressed(lines, p, plain, q) && Erase(a) == Erase(b)
    ensures SameBlocks(lines, Blocks.ParseConditional(lines, p, depth, a, at), plain,
              Blocks.ParseConditional(plain, q, depth, b, other))
    decreases |lines| - p, 3
  {
    hide Blocks.ParseBlock, Dressed, Erase;
    DressedInside(lines, p, plain, q);
    BlockDressed(lines, p, plain, q, depth);
    var body, twin := Blocks.ParseBlock(lines, p, depth), Blocks.ParseBlock(plain, q, depth);
    if body.Block? {
      BodyAdvances(lines, p, depth);
    }
    if body.Block? && body.terminator == Blocks.EndTerminator {
      ConditionalErased(a, at, b, other, body.statements, twin.statements, [], []);
    } else if body.Block? && body.terminator == Blocks.ElseTerminator {
      BlockDressed(lines, body.next, plain, twin.next, depth);
      var alternate := Blocks.ParseBlock(lines, body.next, depth);
      if alternate.Block? {
        ConditionalErased(a, at, b, other, body.statements, twin.statements, alternate.statements,
          Blocks.ParseBlock(plain, twin.next, depth).statements);
      }
    }
  }

  lemma BodyAdvances(lines: seq<Text>, p: nat, depth: nat)
    requires p <= |lines| && Blocks.ParseBlock(lines, p, depth).Block?
    ensures p <= Blocks.ParseBlock(lines, p, depth).next
  {
  }

  lemma ConditionalErased(
      a: Expression, at: Position, b: Expression, other: Position, body: seq<Statement>, twin: seq<Statement>,
      alternate: seq<Statement>, fellow: seq<Statement>)
    requires Erase(a) == Erase(b) && EraseStatements(body) == EraseStatements(twin) &&
               EraseStatements(alternate) == EraseStatements(fellow)
    ensures EraseStatements([If(a, body, alternate, at)]) == EraseStatements([If(b, twin, fellow, other)])
  {
    hide Erase;
    SingleErased(If(a, body, alternate, at), If(b, twin, fellow, other));
  }

  /** The same program up to positions, or an error of the same kind. */
  predicate SamePrograms(a: Result<seq<Statement>>, b: Result<seq<Statement>>) {
    if a.Ok? then b.Ok? && EraseStatements(a.value) == EraseStatements(b.value)
    else b.Err? && a.error.kind == b.error.kind
  }

  /**
   Indentation, blanks behind a line, blank lines and comment lines do not change
   what a source compiles to, nor why it is refused.
   */
  lemma DressedCompiles(source: Text, plain: Text)
    requires Dressed(Blocks.SplitLines(source), 0, Blocks.SplitLines(plain), 0)
    requires |source| <= MAX_SOURCE_CHARACTERS && |plain| <= MAX_SOURCE_CHARACTERS
    ensures SamePrograms(Blocks.CompileProgram(source), Blocks.CompileProgram(plain))
  {
    hide Blocks.ParseBlock, Blocks.SplitLines, Blocks.StatementCount, EraseStatement, Dressed;
    var lines, others := Blocks.SplitLines(source), Blocks.SplitLines(plain);
    BlockDressed(lines, 0, others, 0, 1);
    var a, b := Blocks.ParseBlock(lines, 0, 1), Blocks.ParseBlock(others, 0, 1);
    if a.Block? {
      CountErased(a.statements);
      CountErased(b.statements);
    }
  }

  /**
   The round trip for every way to lay a program out: a source whose lines are
   the printed ones, with any indentation and with blank and comment lines among
   them, compiles to the program.
   */
  lemma CompileInvertsDressedPrint(w: Writer, ss: seq<Statement>, source: Text)
    requires ss != [] && Writable(w, ss, 1) && Blocks.StatementCount(ss) <= MAX_PROGRAM_STATEMENTS
    requires Dressed(Blocks.SplitLines(source), 0, PrintStatements(w, ss, 1), 0)
    requires |source| <= MAX_SOURCE_CHARACTERS
    ensures Blocks.CompileProgram(source).Ok?
    ensures EraseStatements(Blocks.CompileProgram(source).value) == EraseStatements(ss)
  {
    hide Writable, PrintStatements, Blocks.ParseBlock, Blocks.SplitLines, Blocks.StatementCount, EraseStatement,
      Dressed;
    var read := ParseInvertsPrint(w, ss);
    BlockDressed(Blocks.SplitLines(source), 0, PrintStatements(w, ss, 1), 0, 1);
    CountErased(Blocks.ParseBlock(Blocks.SplitLines(source), 0, 1).statements);
    CountErased(ss);
  }
}
