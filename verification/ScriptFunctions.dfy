/**
 The safe functions of the script language, on values that are already
 evaluated. Case mapping, Unicode normalisation and `int()` on text come in as
 a `Library`, about which nothing is assumed.
 */
module ScriptFunctions {
  import opened Wrappers
  import opened Texts
  import opened ScriptSyntax
  import opened ScriptCompiler

  datatype Library = Library(
    casefold: Text -> Text,
    lower: Text -> Text,
    upper: Text -> Text,
    title: Text -> Text,
    asciiFold: Text -> Text,
    parseInteger: Text -> Option<int>)

  datatype CallResult = Returned(value: Value) | Failed(kind: ErrorKind)

  const LIST_SEPARATOR := Chars("; ")
  const ZERO := Chars("0")
  const UNDERSCORE := Chars("_")

  // ----- Conversions -----

  predicate IsEmpty(v: Value) {
    v == NullValue || v == TextValue([]) || v == ListValue([])
  }

  /** Python truth. */
  predicate Truthy(v: Value) {
    match v
    case NullValue => false
    case BoolValue(truth) => truth
    case IntValue(n) => n != 0
    case TextValue(text) => text != []
    case ListValue(items) => items != []
  }

  function Join(items: seq<Text>, separator: Text): Text {
    if items == [] then []
    else if |items| == 1 then items[0]
    else items[0] + separator + Join(items[1..], separator)
  }

  function IntText(n: int): Text {
    if n < 0 then [0x2D] + Digits(-n) else Digits(n)
  }

  /** `_text`. */
  function TextOf(v: Value): Text {
    match v
    case NullValue => []
    case BoolValue(truth) => if truth then Chars("true") else Chars("false")
    case IntValue(n) => IntText(n)
    case TextValue(text) => text
    case ListValue(items) => Join(items, LIST_SEPARATOR)
  }

  function TextsOf(vs: seq<Value>): (r: seq<Text>)
    ensures |r| == |vs|
  {
    seq(|vs|, i requires 0 <= i < |vs| => TextOf(vs[i]))
  }

  /** `_integer`: booleans and lists are refused, text goes through `int()`. */
  function IntegerOf(v: Value, lib: Library): Option<int> {
    match v
    case IntValue(n) => Some(n)
    case TextValue(text) => lib.parseInteger(text)
    case _ => None
  }

  // ----- Python's operators on values -----

  /** Booleans are numbers to `==`. */
  function NumberOf(v: Value): Option<int> {
    match v
    case BoolValue(truth) => Some(if truth then 1 else 0)
    case IntValue(n) => Some(n)
    case _ => None
  }

  predicate ValuesEqual(a: Value, b: Value) {
    a == b || (NumberOf(a).Some? && NumberOf(a) == NumberOf(b))
  }

  /** `s[start:end]` with Python's negative indices and clamping. */
  function Slice<T>(s: seq<T>, start: int, end: Option<int>): seq<T> {
    var low := Clamp(start, |s|);
    var high := if end.Some? then Clamp(end.value, |s|) else |s|;
    if low < high then s[low..high] else []
  }

  function Clamp(index: int, length: nat): (r: nat)
    ensures r <= length
  {
    if index < 0 then (if index + length < 0 then 0 else index + length)
    else if index > length then length else index
  }

  /** `text.replace(old, new)`; an empty `old` matches around every character. */
  function Replace(text: Text, old_: Text, new_: Text): Text {
    if old_ == [] then new_ + Interleave(text, new_) else ReplaceFound(text, old_, new_)
  }

  function Interleave(text: Text, new_: Text): Text {
    if text == [] then [] else [text[0]] + new_ + Interleave(text[1..], new_)
  }

  function ReplaceFound(text: Text, old_: Text, new_: Text): Text
    requires old_ != []
    decreases |text|
  {
    if |text| < |old_| then text
    else if StartsWith(text, old_) then new_ + ReplaceFound(text[|old_|..], old_, new_)
    else [text[0]] + ReplaceFound(text[1..], old_, new_)
  }

  function Repeated(c: CodePoint, n: nat): (t: Text)
    ensures |t| == n
  {
    seq(n, _ => c)
  }

  predicate IsInvalidInPath(c: CodePoint) {
    c < 0x20 || c == 0x7F || c == 0x22 || c == 0x2A || c == 0x2F || c == 0x3A || c == 0x3C
    || c == 0x3E || c == 0x3F || c == 0x5C || c == 0x7C
  }

  function ReplaceInvalid(text: Text, c: CodePoint): (r: Text)
    ensures |r| == |text|
    ensures forall i :: 0 <= i < |text| ==> r[i] == if IsInvalidInPath(text[i]) then c else text[i]
  {
    seq(|text|, i requires 0 <= i < |text| => if IsInvalidInPath(text[i]) then c else text[i])
  }

  // ----- The functions with a body of their own -----

  function FirstNonEmpty(args: seq<Value>): Value {
    if args == [] then NullValue else if !IsEmpty(args[0]) then args[0] else FirstNonEmpty(args[1..])
  }

  function ContainsCall(container: Value, needle: Value): Value {
    match container
    case ListValue(items) => BoolValue(TextOf(needle) in items)
    case _ => BoolValue(Find(TextOf(container), TextOf(needle), 0) >= 0)
  }

  function SliceCall(args: seq<Value>, lib: Library): CallResult
    requires 2 <= |args| <= 3
  {
    var start := IntegerOf(args[1], lib);
    var end := if |args| == 3 then IntegerOf(args[2], lib) else None;
    if start == None || (|args| == 3 && end == None) then Failed(NeedsInteger)
    else
      match args[0]
      case ListValue(items) => Returned(ListValue(Slice(items, start.value, end)))
      case v => Returned(TextValue(Slice(TextOf(v), start.value, end)))
  }

  function PadCall(args: seq<Value>, lib: Library): CallResult
    requires 2 <= |args| <= 3
  {
    var width := IntegerOf(args[1], lib);
    var fill := if |args| == 3 then TextOf(args[2]) else ZERO;
    if width == None then Failed(NeedsInteger)
    else if width.value < 0 || width.value > 1_024 || |fill| != 1 then Failed(InvalidPadding)
    else
      var text := TextOf(args[0]);
      Returned(TextValue((if |text| < width.value then Repeated(fill[0], width.value - |text|) else []) + text))
  }

  /** `sort_name`: a leading article moves to the end. */
  function SortName(text: Text, lib: Library): Text {
    SortNameBy(text, [Chars("The "), Chars("An "), Chars("A ")], lib)
  }

  function SortNameBy(text: Text, articles: seq<Text>, lib: Library): Text {
    if articles == [] then text
    else
      var article := articles[0];
      if StartsWith(lib.casefold(text), lib.casefold(article))
      then Slice(text, |article|, None) + Chars(", ") + Slice(text, 0, Some(|article| - 1))
      else SortNameBy(text, articles[1..], lib)
  }

  function PathSafeCall(args: seq<Value>): CallResult
    requires 1 <= |args| <= 2
  {
    var replacement := if |args| == 2 then TextOf(args[1]) else UNDERSCORE;
    if |replacement| != 1 || replacement[0] == 0x2F || replacement[0] == 0x5C || replacement[0] == 0
        then Failed(InvalidReplacement)
    else Returned(TextValue(ReplaceInvalid(TextOf(args[0]), replacement[0])))
  }

  function Concatenated(args: seq<Value>): Text {
    if args == [] then [] else TextOf(args[0]) + Concatenated(args[1..])
  }

  // ----- The dispatcher -----

  predicate Takes(args: seq<Value>, minimum: nat, maximum: nat) {
    minimum <= |args| <= maximum
  }

  /** `_call` on a case-folded name. */
  function CallFunction(name: Text, args: seq<Value>, lib: Library): CallResult {
    if SafeArity(name) == None then Failed(UnknownFunction)
    else if name == Chars("default") || name == Chars("fallback") then
      if !Takes(args, 1, MAX_LIST_VALUES) then Failed(WrongArity) else Returned(FirstNonEmpty(args))
    else if name == Chars("if") || name == Chars("conditional") then
      if !Takes(args, 3, 3) then Failed(WrongArity) else Returned(if Truthy(args[0]) then args[1] else args[2])
    else if name == Chars("equals") || name == Chars("eq") then
      if !Takes(args, 2, 2) then Failed(WrongArity) else Returned(BoolValue(ValuesEqual(args[0], args[1])))
    else if name == Chars("contains") then
      if !Takes(args, 2, 2) then Failed(WrongArity) else Returned(ContainsCall(args[0], args[1]))
    else if name == Chars("replace") then
      if !Takes(args, 3, 3) then Failed(WrongArity)
      else Returned(TextValue(Replace(TextOf(args[0]), TextOf(args[1]), TextOf(args[2]))))
    else if name == Chars("slice") then
      if !Takes(args, 2, 3) then Failed(WrongArity) else SliceCall(args, lib)
    else if name == Chars("pad") then
      if !Takes(args, 2, 3) then Failed(WrongArity) else PadCall(args, lib)
    else if name == Chars("lower") || name == Chars("upper") || name == Chars("title") then
      if !Takes(args, 1, 1) then Failed(WrongArity)
      else
        var text := TextOf(args[0]);
        Returned(TextValue(
          if name == Chars("lower") then lib.lower(text)
          else if name == Chars("upper") then lib.upper(text)
          else lib.title(text)))
    else if name == Chars("first") then
      if !Takes(args, 1, 1) then Failed(WrongArity)
      else Returned(if args[0].ListValue? && args[0].items != [] then TextValue(args[0].items[0]) else args[0])
    else if name == Chars("join") then
      if !Takes(args, 1, 2) then Failed(WrongArity)
      else
        var separator := if |args| == 2 then TextOf(args[1]) else LIST_SEPARATOR;
        Returned(TextValue(if args[0].ListValue? then Join(args[0].items, separator) else TextOf(args[0])))
    else if name == Chars("sortname") || name == Chars("sort_name") then
      if !Takes(args, 1, 1) then Failed(WrongArity) else Returned(TextValue(SortName(Strip(TextOf(args[0])), lib)))
    else if name == Chars("asciifold") || name == Chars("ascii_fold") then
      if !Takes(args, 1, 1) then Failed(WrongArity) else Returned(TextValue(lib.asciiFold(TextOf(args[0]))))
    else if name == Chars("pathsafe") || name == Chars("path_safe") then
      if !Takes(args, 1, 2) then Failed(WrongArity) else PathSafeCall(args)
    else if name == Chars("concat") then
      if !Takes(args, 1, MAX_LIST_VALUES) then Failed(WrongArity) else Returned(TextValue(Concatenated(args)))
    else if name == Chars("not") then
      if !Takes(args, 1, 1) then Failed(WrongArity) else Returned(BoolValue(!Truthy(args[0])))
    else if name == Chars("all") || name == Chars("and") then
      if !Takes(args, 1, MAX_LIST_VALUES) then Failed(WrongArity)
      else Returned(BoolValue(forall i :: 0 <= i < |args| ==> Truthy(args[i])))
    else if name == Chars("any") || name == Chars("or") then
      if !Takes(args, 1, MAX_LIST_VALUES) then Failed(WrongArity)
      else Returned(BoolValue(exists i :: 0 <= i < |args| && Truthy(args[i])))
    else if name == Chars("is_empty") || name == Chars("empty") then
      if !Takes(args, 1, 1) then Failed(WrongArity) else Returned(BoolValue(IsEmpty(args[0])))
    else Failed(NotImplemented)
  }

  /**
   The compile-time table and the dispatcher agree: a call the table admits is
   implemented and passes the dispatcher's own arity check, for every value.
   */
  lemma TableCoversDispatcher(name: Text, args: seq<Value>, lib: Library)
    requires SafeArity(name).Some? && SafeArity(name).value.minimum <= |args| <= SafeArity(name).value.maximum
    ensures var r := CallFunction(name, args, lib);
            r.Failed? ==> r.kind in {NeedsInteger, InvalidPadding, InvalidReplacement}
  {
    hide Chars, TextOf, Replace, Join, SortName, Concatenated, FirstNonEmpty, ContainsCall, Truthy, IsEmpty,
        ValuesEqual;
  }

  /**
   `path_safe` keeps the length, keeps every character that is valid in a path,
   and leaves no separator and no NUL, whatever it was given.
   */
  lemma PathSafeIsSafe(args: seq<Value>)
    requires 1 <= |args| <= 2 && PathSafeCall(args).Returned?
    ensures var text, safe := TextOf(args[0]), PathSafeCall(args).value;
            && safe.TextValue? && |safe.text| == |text|
            && (forall i :: 0 <= i < |text| ==> safe.text[i] !in {0x2F, 0x5C, 0})
            && (forall i :: 0 <= i < |text| && !IsInvalidInPath(text[i]) ==> safe.text[i] == text[i])
  {
    assert UNDERSCORE[0] == '_' as int;
  }

  /** `default`: the first value that is not empty, and null where all are. */
  lemma {:induction false} DefaultIsFirst(args: seq<Value>, k: nat)
    requires k <= |args| && forall i :: 0 <= i < k ==> IsEmpty(args[i])
    ensures k < |args| && !IsEmpty(args[k]) ==> FirstNonEmpty(args) == args[k]
    ensures k == |args| ==> FirstNonEmpty(args) == NullValue
  {
    if k > 0 {
      DefaultIsFirst(args[1..], k - 1);
    }
  }

  /** Any index, negative or too large, cuts a sequence into two slices that make it up. */
  lemma SlicesMeet<T>(s: seq<T>, k: int)
    ensures Slice(s, 0, Some(k)) + Slice(s, k, None) == s
  {
    var cut := Clamp(k, |s|);
    assert s[..cut] + s[cut..] == s;
  }

  /** Padding fills the left side up to the width and keeps the text at the end. */
  lemma PadKeepsText(args: seq<Value>, lib: Library)
    requires 2 <= |args| <= 3 && PadCall(args, lib).Returned?
    ensures var text, padded := TextOf(args[0]), PadCall(args, lib).value;
            var fill := if |args| == 3 then TextOf(args[2]) else ZERO;
            && padded.TextValue? && IntegerOf(args[1], lib).Some?
            && |padded.text| ==
                 (if |text| < IntegerOf(args[1], lib).value then IntegerOf(args[1], lib).value else |text|)
            && padded.text[|padded.text| - |text|..] == text
            && forall i :: 0 <= i < |padded.text| - |text| ==> [padded.text[i]] == fill
  {
  }

  /** `replace` puts the new text at the leftmost occurrence and goes on behind it. */
  lemma {:induction false} ReplaceAtLeftmost(text: Text, old_: Text, new_: Text, k: nat)
    requires old_ != [] && OccursAt(text, old_, k) && forall i :: 0 <= i < k ==> !OccursAt(text, old_, i)
    ensures Replace(text, old_, new_) == text[..k] + new_ + Replace(text[k + |old_|..], old_, new_)
    decreases k
  {
    hide Replace, OccursAt;
    ReplaceStep(text, old_, new_);
    if k == 0 {
      assert text[..0] + new_ == new_;
    } else {
      OccursLater(text, old_, k);
      forall i | 0 <= i < k - 1
        ensures !OccursAt(text[1..], old_, i)
      {
        OccursLater(text, old_, i + 1);
      }
      ReplaceAtLeftmost(text[1..], old_, new_, k - 1);
      OneLater(text, k, |old_|, new_, Replace(text[k + |old_|..], old_, new_));
    }
  }

  lemma OneLater(text: Text, k: nat, length: nat, new_: Text, after: Text)
    requires 0 < k && k + length <= |text|
    ensures text[1..][k - 1 + length..] == text[k + length..]
    ensures [text[0]] + (text[1..][..k - 1] + new_ + after) == text[..k] + new_ + after
  {
    assert [text[0]] + text[1..][..k - 1] == text[..k];
  }

  lemma OccursLater(text: Text, old_: Text, i: nat)
    requires 0 < i && text != []
    ensures OccursAt(text[1..], old_, i - 1) <==> OccursAt(text, old_, i)
  {
    assert i + |old_| <= |text| ==> text[1..][i - 1..i - 1 + |old_|] == text[i..i + |old_|];
  }

  lemma ReplaceStep(text: Text, old_: Text, new_: Text)
    requires old_ != []
    ensures OccursAt(text, old_, 0) ==> Replace(text, old_, new_) == new_ + Replace(text[|old_|..], old_, new_)
    ensures !OccursAt(text, old_, 0) && |text| >= |old_| ==>
              Replace(text, old_, new_) == [text[0]] + Replace(text[1..], old_, new_)
    ensures |text| < |old_| ==> Replace(text, old_, new_) == text
    ensures forall i: nat :: OccursAt(text, old_, i) ==> i + |old_| <= |text|
  {
  }

  /** Without an occurrence the text stays. */
  lemma {:induction false} ReplaceNothing(text: Text, old_: Text, new_: Text)
    requires old_ != [] && forall i :: 0 <= i ==> !OccursAt(text, old_, i)
    ensures Replace(text, old_, new_) == text
    decreases |text|
  {
    if |text| >= |old_| {
      assert !OccursAt(text, old_, 0);
      forall i | 0 <= i
        ensures !OccursAt(text[1..], old_, i)
      {
        assert i + |old_| <= |text| - 1 ==> text[1..][i..i + |old_|] == text[i + 1..i + 1 + |old_|];
        assert !OccursAt(text, old_, i + 1);
      }
      ReplaceNothing(text[1..], old_, new_);
    }
  }
}
