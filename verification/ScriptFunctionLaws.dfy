/**
 What each safe function answers, by its name and on values: one law or more for
 every name the dispatcher knows.
 */
module ScriptFunctionLaws {
  import opened Wrappers
  import opened Texts
  import opened ScriptSyntax
  import opened ScriptCompiler
  import opened ScriptFunctions
  import opened ScriptEvaluator

  /** A call by name. */
  function Answer(name: string, args: seq<Value>, lib: Library): CallResult {
    CallFunction(Chars(name), args, lib)
  }

  /** The call answers this text. */
  predicate Says(r: CallResult, text: Text) {
    r == Returned(TextValue(text))
  }

  /** In an expression a name in any capitals means the function of that name on the meanings of its arguments. */
  lemma CallMeans(name: string, written: Text, children: seq<Expression>, at: Position, env: Environment, lib: Library)
    requires Capitalizes(written, name)
    ensures var values, meaning := DenoteAll(children, env, lib), Denote(Call(written, children, at), env, lib);
            && (values == None ==> meaning == None)
            && (values.Some? ==>
                  match Answer(name, values.value, lib)
                  case Returned(value) => meaning == Some(value)
                  case Failed(_) => meaning == None)
  {
    hide CallFunction;
    assert AsciiFold(written) == Chars(name);
  }

  // ----- The table and the dispatcher -----

  /** What tells names of the same length apart. */
  lemma Heads()
    ensures Chars("default")[0] == 'd' as int
    ensures Chars("fallback")[0] == 'f' as int
    ensures Chars("if")[0] == 'i' as int
    ensures Chars("conditional")[0] == 'c' as int
    ensures Chars("equals")[0] == 'e' as int
    ensures Chars("eq")[0] == 'e' as int
    ensures Chars("contains")[0] == 'c' as int
    ensures Chars("replace")[0] == 'r' as int
    ensures Chars("slice")[0] == 's' as int
    ensures Chars("pad")[0] == 'p' as int
    ensures Chars("lower")[0] == 'l' as int
    ensures Chars("upper")[0] == 'u' as int
    ensures Chars("title")[0] == 't' as int
    ensures Chars("first")[0] == 'f' as int
    ensures Chars("join")[0] == 'j' as int
    ensures Chars("sortname")[0] == 's' as int
    ensures Chars("sort_name")[0] == 's' as int
    ensures Chars("asciifold")[0] == 'a' as int
    ensures Chars("ascii_fold")[0] == 'a' as int
    ensures Chars("pathsafe")[0] == 'p' as int
    ensures Chars("path_safe")[0] == 'p' as int
    ensures Chars("concat")[0] == 'c' as int
    ensures Chars("not")[0] == 'n' as int
    ensures Chars("all")[0] == 'a' as int && Chars("all")[1] == 'l' as int && Chars("all")[2] == 'l' as int
    ensures Chars("and")[0] == 'a' as int && Chars("and")[1] == 'n' as int && Chars("and")[2] == 'd' as int
    ensures Chars("any")[0] == 'a' as int && Chars("any")[1] == 'n' as int && Chars("any")[2] == 'y' as int
    ensures Chars("or")[0] == 'o' as int
    ensures Chars("is_empty")[0] == 'i' as int
    ensures Chars("empty")[0] == 'e' as int
  {
  }

  /**
   The dispatcher refuses a call for its name or its number of arguments exactly
   when the compile-time table does, and implements every name in the table.
   */
  lemma DispatcherKeepsTable(name: Text, args: seq<Value>, lib: Library)
    ensures var r, arity := CallFunction(name, args, lib), SafeArity(name);
            && (r == Failed(UnknownFunction) <==> arity == None)
            && (r == Failed(WrongArity) <==> arity.Some? && !(arity.value.minimum <= |args| <= arity.value.maximum))
            && r != Failed(NotImplemented)
  {
    hide CallFunction, SafeArity;
    UnknownExactly(name, args, lib);
    AllImplemented(name, args, lib);
    ArityExactly(name, args, lib);
  }

  /** The compiler refuses a call, for the same reason, exactly when the dispatcher would, whatever it is given. */
  lemma CompilerRefusesSame(name: Text, children: seq<Expression>, at: Position, args: seq<Value>, lib: Library)
    requires |args| == |children|
    ensures var refused, r := NodeError(Call(name, children, at)), CallFunction(AsciiFold(name), args, lib);
            && (refused == None <==> r != Failed(UnknownFunction) && r != Failed(WrongArity))
            && (refused == Some(ScriptError(UnknownFunction, at)) <==> r == Failed(UnknownFunction))
            && (refused == Some(ScriptError(WrongArity, at)) <==> r == Failed(WrongArity))
  {
    hide CallFunction, SafeArity;
    DispatcherKeepsTable(AsciiFold(name), args, lib);
  }

  lemma UnknownExactly(name: Text, args: seq<Value>, lib: Library)
    ensures var r := CallFunction(name, args, lib);
            r == Failed(UnknownFunction) <==> SafeArity(name) == None
  {
    hide TextOf, Replace, Join, SortName, Concatenated, FirstNonEmpty, ContainsCall, Truthy, IsEmpty, ValuesEqual,
      SliceCall, PadCall, PathSafeCall, Strip, Chars, Takes;
    OwnFailures(args, lib);
  }

  lemma AllImplemented(name: Text, args: seq<Value>, lib: Library)
    ensures CallFunction(name, args, lib) != Failed(NotImplemented)
  {
    hide TextOf, Replace, Join, SortName, Concatenated, FirstNonEmpty, ContainsCall, Truthy, IsEmpty, ValuesEqual,
      SliceCall, PadCall, PathSafeCall, Strip, Chars, Takes;
    OwnFailures(args, lib);
  }

  lemma ArityExactly(name: Text, args: seq<Value>, lib: Library)
    ensures var r, arity := CallFunction(name, args, lib), SafeArity(name);
            r == Failed(WrongArity) <==> arity.Some? && !Takes(args, arity.value.minimum, arity.value.maximum)
  {
    hide TextOf, Replace, Join, SortName, Concatenated, FirstNonEmpty, ContainsCall, Truthy, IsEmpty, ValuesEqual,
      SliceCall, PadCall, PathSafeCall, Strip, Chars, Takes;
    OwnFailures(args, lib);
  }

  lemma OwnFailures(args: seq<Value>, lib: Library)
    ensures Takes(args, 2, 3) && SliceCall(args, lib).Failed? ==> SliceCall(args, lib).kind == NeedsInteger
    ensures Takes(args, 2, 3) && PadCall(args, lib).Failed? ==>
              PadCall(args, lib).kind in {NeedsInteger, InvalidPadding}
    ensures Takes(args, 1, 2) && PathSafeCall(args).Failed? ==> PathSafeCall(args).kind == InvalidReplacement
  {
  }

  /** The second names of functions. */
  lemma SynonymsAgree(args: seq<Value>, lib: Library)
    ensures Answer("fallback", args, lib) == Answer("default", args, lib)
    ensures Answer("conditional", args, lib) == Answer("if", args, lib)
    ensures Answer("eq", args, lib) == Answer("equals", args, lib)
    ensures Answer("sortname", args, lib) == Answer("sort_name", args, lib)
    ensures Answer("asciifold", args, lib) == Answer("ascii_fold", args, lib)
    ensures Answer("pathsafe", args, lib) == Answer("path_safe", args, lib)
    ensures Answer("and", args, lib) == Answer("all", args, lib)
    ensures Answer("or", args, lib) == Answer("any", args, lib)
    ensures Answer("empty", args, lib) == Answer("is_empty", args, lib)
  {
    hide Answer;
    ChoiceSynonyms(args, lib);
    SortnameIsSortName(args, lib);
    AsciifoldIsAsciiFold(args, lib);
    PathsafeIsPathSafe(args, lib);
    AndIsAll(args, lib);
    OrIsAny(args, lib);
    EmptyIsEmpty(args, lib);
  }

  lemma ChoiceSynonyms(args: seq<Value>, lib: Library)
    ensures Answer("fallback", args, lib) == Answer("default", args, lib)
    ensures Answer("conditional", args, lib) == Answer("if", args, lib)
    ensures Answer("eq", args, lib) == Answer("equals", args, lib)
  {
    hide TextOf, Replace, Join, SortName, Concatenated, FirstNonEmpty, ContainsCall, Truthy, IsEmpty, ValuesEqual,
      SliceCall, PadCall, PathSafeCall, Strip, Chars, Takes;
    Heads();
  }

  lemma SortnameIsSortName(args: seq<Value>, lib: Library)
    ensures Answer("sortname", args, lib) == Answer("sort_name", args, lib)
  {
    hide TextOf, Replace, Join, SortName, Concatenated, FirstNonEmpty, ContainsCall, Truthy, IsEmpty, ValuesEqual,
      SliceCall, PadCall, PathSafeCall, Strip, Chars, Takes;
    Heads();
  }

  lemma AsciifoldIsAsciiFold(args: seq<Value>, lib: Library)
    ensures Answer("asciifold", args, lib) == Answer("ascii_fold", args, lib)
  {
    hide TextOf, Replace, Join, SortName, Concatenated, FirstNonEmpty, ContainsCall, Truthy, IsEmpty, ValuesEqual,
      SliceCall, PadCall, PathSafeCall, Strip, Chars, Takes;
    Heads();
  }

  lemma PathsafeIsPathSafe(args: seq<Value>, lib: Library)
    ensures Answer("pathsafe", args, lib) == Answer("path_safe", args, lib)
  {
    hide TextOf, Replace, Join, SortName, Concatenated, FirstNonEmpty, ContainsCall, Truthy, IsEmpty, ValuesEqual,
      SliceCall, PadCall, PathSafeCall, Strip, Chars, Takes;
    Heads();
  }

  lemma AndIsAll(args: seq<Value>, lib: Library)
    ensures Answer("and", args, lib) == Answer("all", args, lib)
  {
    hide TextOf, Replace, Join, SortName, Concatenated, FirstNonEmpty, ContainsCall, Truthy, IsEmpty, ValuesEqual,
      SliceCall, PadCall, PathSafeCall, Strip, Chars, Takes;
    Heads();
  }

  lemma OrIsAny(args: seq<Value>, lib: Library)
    ensures Answer("or", args, lib) == Answer("any", args, lib)
  {
    hide TextOf, Replace, Join, SortName, Concatenated, FirstNonEmpty, ContainsCall, Truthy, IsEmpty, ValuesEqual,
      SliceCall, PadCall, PathSafeCall, Strip, Chars, Takes;
    Heads();
  }

  lemma EmptyIsEmpty(args: seq<Value>, lib: Library)
    ensures Answer("empty", args, lib) == Answer("is_empty", args, lib)
  {
    hide TextOf, Replace, Join, SortName, Concatenated, FirstNonEmpty, ContainsCall, Truthy, IsEmpty, ValuesEqual,
      SliceCall, PadCall, PathSafeCall, Strip, Chars, Takes;
    Heads();
  }

  // ----- The arms: each name is the only one of its kind -----

  lemma DefaultArm(args: seq<Value>, lib: Library)
    requires Takes(args, 1, MAX_LIST_VALUES)
    ensures Answer("default", args, lib) ==
              Returned(FirstNonEmpty(args))
  {
    hide TextOf, Replace, Join, SortName, Concatenated, FirstNonEmpty, ContainsCall, Truthy, IsEmpty, ValuesEqual,
      SliceCall, PadCall, PathSafeCall, Strip, Chars, Takes;
    Heads();
  }

  lemma IfArm(args: seq<Value>, lib: Library)
    requires Takes(args, 3, 3)
    ensures Answer("if", args, lib) ==
              Returned(if Truthy(args[0]) then args[1] else args[2])
  {
    hide TextOf, Replace, Join, SortName, Concatenated, FirstNonEmpty, ContainsCall, Truthy, IsEmpty, ValuesEqual,
      SliceCall, PadCall, PathSafeCall, Strip, Chars, Takes;
    Heads();
  }

  lemma EqualsArm(args: seq<Value>, lib: Library)
    requires Takes(args, 2, 2)
    ensures Answer("equals", args, lib) ==
              Returned(BoolValue(ValuesEqual(args[0], args[1])))
  {
    hide TextOf, Replace, Join, SortName, Concatenated, FirstNonEmpty, ContainsCall, Truthy, IsEmpty, ValuesEqual,
      SliceCall, PadCall, PathSafeCall, Strip, Chars, Takes;
    Heads();
  }

  lemma ContainsArm(args: seq<Value>, lib: Library)
    requires Takes(args, 2, 2)
    ensures Answer("contains", args, lib) ==
              Returned(ContainsCall(args[0], args[1]))
  {
    hide TextOf, Replace, Join, SortName, Concatenated, FirstNonEmpty, ContainsCall, Truthy, IsEmpty, ValuesEqual,
      SliceCall, PadCall, PathSafeCall, Strip, Chars, Takes;
    Heads();
  }

  lemma ReplaceArm(args: seq<Value>, lib: Library)
    requires Takes(args, 3, 3)
    ensures Answer("replace", args, lib) ==
              Returned(TextValue(Replace(TextOf(args[0]), TextOf(args[1]), TextOf(args[2]))))
  {
    hide TextOf, Replace, Join, SortName, Concatenated, FirstNonEmpty, ContainsCall, Truthy, IsEmpty, ValuesEqual,
      SliceCall, PadCall, PathSafeCall, Strip, Chars, Takes;
    Heads();
  }

  lemma SliceArm(args: seq<Value>, lib: Library)
    requires Takes(args, 2, 3)
    ensures Answer("slice", args, lib) ==
              SliceCall(args, lib)
  {
    hide TextOf, Replace, Join, SortName, Concatenated, FirstNonEmpty, ContainsCall, Truthy, IsEmpty, ValuesEqual,
      SliceCall, PadCall, PathSafeCall, Strip, Chars, Takes;
    Heads();
  }

  lemma PadArm(args: seq<Value>, lib: Library)
    requires Takes(args, 2, 3)
    ensures Answer("pad", args, lib) ==
              PadCall(args, lib)
  {
    hide TextOf, Replace, Join, SortName, Concatenated, FirstNonEmpty, ContainsCall, Truthy, IsEmpty, ValuesEqual,
      SliceCall, PadCall, PathSafeCall, Strip, Chars, Takes;
    Heads();
  }

  lemma LowerArm(args: seq<Value>, lib: Library)
    requires Takes(args, 1, 1)
    ensures Answer("lower", args, lib) ==
              Returned(TextValue(lib.lower(TextOf(args[0]))))
  {
    hide TextOf, Replace, Join, SortName, Concatenated, FirstNonEmpty, ContainsCall, Truthy, IsEmpty, ValuesEqual,
      SliceCall, PadCall, PathSafeCall, Strip, Chars, Takes;
    Heads();
  }

  lemma UpperArm(args: seq<Value>, lib: Library)
    requires Takes(args, 1, 1)
    ensures Answer("upper", args, lib) ==
              Returned(TextValue(lib.upper(TextOf(args[0]))))
  {
    hide TextOf, Replace, Join, SortName, Concatenated, FirstNonEmpty, ContainsCall, Truthy, IsEmpty, ValuesEqual,
      SliceCall, PadCall, PathSafeCall, Strip, Chars, Takes;
    Heads();
  }

  lemma TitleArm(args: seq<Value>, lib: Library)
    requires Takes(args, 1, 1)
    ensures Answer("title", args, lib) ==
              Returned(TextValue(lib.title(TextOf(args[0]))))
  {
    hide TextOf, Replace, Join, SortName, Concatenated, FirstNonEmpty, ContainsCall, Truthy, IsEmpty, ValuesEqual,
      SliceCall, PadCall, PathSafeCall, Strip, Chars, Takes;
    Heads();
  }

  lemma FirstArm(args: seq<Value>, lib: Library)
    requires Takes(args, 1, 1)
    ensures Answer("first", args, lib) ==
              Returned(
                if args[0].ListValue? && args[0].items != [] then TextValue(args[0].items[0]) else args[0])
  {
    hide TextOf, Replace, Join, SortName, Concatenated, FirstNonEmpty, ContainsCall, Truthy, IsEmpty, ValuesEqual,
      SliceCall, PadCall, PathSafeCall, Strip, Chars, Takes;
    Heads();
  }

  lemma JoinArm(args: seq<Value>, lib: Library)
    requires Takes(args, 1, 2)
    ensures Answer("join", args, lib) ==
              Returned(TextValue(
                if !args[0].ListValue? then TextOf(args[0])
                else Join(args[0].items, if |args| == 2 then TextOf(args[1]) else LIST_SEPARATOR)))
  {
    hide TextOf, Replace, Join, SortName, Concatenated, FirstNonEmpty, ContainsCall, Truthy, IsEmpty, ValuesEqual,
      SliceCall, PadCall, PathSafeCall, Strip, Chars, Takes;
    Heads();
  }

  lemma SortNameArm(args: seq<Value>, lib: Library)
    requires Takes(args, 1, 1)
    ensures Answer("sort_name", args, lib) ==
              Returned(TextValue(SortName(Strip(TextOf(args[0])), lib)))
  {
    hide TextOf, Replace, Join, SortName, Concatenated, FirstNonEmpty, ContainsCall, Truthy, IsEmpty, ValuesEqual,
      SliceCall, PadCall, PathSafeCall, Strip, Chars, Takes;
    Heads();
  }

  lemma AsciiFoldArm(args: seq<Value>, lib: Library)
    requires Takes(args, 1, 1)
    ensures Answer("ascii_fold", args, lib) ==
              Returned(TextValue(lib.asciiFold(TextOf(args[0]))))
  {
    hide TextOf, Replace, Join, SortName, Concatenated, FirstNonEmpty, ContainsCall, Truthy, IsEmpty, ValuesEqual,
      SliceCall, PadCall, PathSafeCall, Strip, Chars, Takes;
    Heads();
  }

  lemma PathSafeArm(args: seq<Value>, lib: Library)
    requires Takes(args, 1, 2)
    ensures Answer("path_safe", args, lib) ==
              PathSafeCall(args)
  {
    hide TextOf, Replace, Join, SortName, Concatenated, FirstNonEmpty, ContainsCall, Truthy, IsEmpty, ValuesEqual,
      SliceCall, PadCall, PathSafeCall, Strip, Chars, Takes;
    Heads();
  }

  lemma ConcatArm(args: seq<Value>, lib: Library)
    requires Takes(args, 1, MAX_LIST_VALUES)
    ensures Answer("concat", args, lib) ==
              Returned(TextValue(Concatenated(args)))
  {
    hide TextOf, Replace, Join, SortName, Concatenated, FirstNonEmpty, ContainsCall, Truthy, IsEmpty, ValuesEqual,
      SliceCall, PadCall, PathSafeCall, Strip, Chars, Takes;
    Heads();
  }

  lemma NotArm(args: seq<Value>, lib: Library)
    requires Takes(args, 1, 1)
    ensures Answer("not", args, lib) ==
              Returned(BoolValue(!Truthy(args[0])))
  {
    hide TextOf, Replace, Join, SortName, Concatenated, FirstNonEmpty, ContainsCall, Truthy, IsEmpty, ValuesEqual,
      SliceCall, PadCall, PathSafeCall, Strip, Chars, Takes;
    Heads();
  }

  lemma AllArm(args: seq<Value>, lib: Library)
    requires Takes(args, 1, MAX_LIST_VALUES)
    ensures Answer("all", args, lib) ==
              Returned(BoolValue(forall i :: 0 <= i < |args| ==> Truthy(args[i])))
  {
    hide TextOf, Replace, Join, SortName, Concatenated, FirstNonEmpty, ContainsCall, Truthy, IsEmpty, ValuesEqual,
      SliceCall, PadCall, PathSafeCall, Strip, Chars, Takes;
    Heads();
  }

  lemma AnyArm(args: seq<Value>, lib: Library)
    requires Takes(args, 1, MAX_LIST_VALUES)
    ensures Answer("any", args, lib) ==
              Returned(BoolValue(exists i :: 0 <= i < |args| && Truthy(args[i])))
  {
    hide TextOf, Replace, Join, SortName, Concatenated, FirstNonEmpty, ContainsCall, Truthy, IsEmpty, ValuesEqual,
      SliceCall, PadCall, PathSafeCall, Strip, Chars, Takes;
    Heads();
  }

  lemma IsEmptyArm(args: seq<Value>, lib: Library)
    requires Takes(args, 1, 1)
    ensures Answer("is_empty", args, lib) ==
              Returned(BoolValue(IsEmpty(args[0])))
  {
    hide TextOf, Replace, Join, SortName, Concatenated, FirstNonEmpty, ContainsCall, Truthy, IsEmpty, ValuesEqual,
      SliceCall, PadCall, PathSafeCall, Strip, Chars, Takes;
    Heads();
  }

  // ----- Choices and conditions -----

  /** The values that count as false. */
  const FALSE_VALUES := {NullValue, BoolValue(false), IntValue(0), TextValue([]), ListValue([])}

  /** `if`: everything but null, false, zero and the empty text and list chooses the second argument. */
  lemma IfChooses(c: Value, a: Value, b: Value, lib: Library)
    ensures Answer("if", [c, a, b], lib) == Returned(if c in FALSE_VALUES then b else a)
  {
    hide Answer;
    IfArm([c, a, b], lib);
  }

  /** `not`, `all` and `any` are choices between the two truth values. */
  lemma LogicIsChoice(args: seq<Value>, lib: Library)
    requires 1 <= |args| <= MAX_LIST_VALUES
    ensures Answer("not", [args[0]], lib) == Answer("if", [args[0], BoolValue(false), BoolValue(true)], lib)
    ensures Answer("all", args, lib) == Returned(BoolValue(forall k :: 0 <= k < |args| ==> args[k] !in FALSE_VALUES))
    ensures Answer("any", args, lib) == Returned(BoolValue(exists k :: 0 <= k < |args| && args[k] !in FALSE_VALUES))
  {
    hide Answer;
    NotArm([args[0]], lib);
    IfChooses(args[0], BoolValue(false), BoolValue(true), lib);
    AllArm(args, lib);
    AnyArm(args, lib);
    assert forall v: Value :: Truthy(v) <==> v !in FALSE_VALUES;
  }

  /** `is_empty`: null, the empty text and the empty list, and not zero or false. */
  lemma EmptyValues(v: Value, lib: Library)
    ensures Answer("is_empty", [v], lib) == Returned(BoolValue(v in {NullValue, TextValue([]), ListValue([])}))
  {
    hide Answer;
    IsEmptyArm([v], lib);
  }

  /** `default`: the first value that is not empty, and null where all are. */
  lemma DefaultChooses(args: seq<Value>, k: nat, lib: Library)
    requires 1 <= |args| <= MAX_LIST_VALUES && k <= |args|
    requires forall i :: 0 <= i < k ==> Answer("is_empty", [args[i]], lib) == Returned(BoolValue(true))
    ensures k < |args| && Answer("is_empty", [args[k]], lib) == Returned(BoolValue(false)) ==>
              Answer("default", args, lib) == Returned(args[k])
    ensures k == |args| ==> Answer("default", args, lib) == Returned(NullValue)
  {
    hide Answer;
    forall i | 0 <= i < k
      ensures IsEmpty(args[i])
    {
      EmptyValues(args[i], lib);
    }
    if k < |args| {
      EmptyValues(args[k], lib);
    }
    DefaultIsFirst(args, k);
    DefaultArm(args, lib);
  }

  /** `equals`: values of one kind are equal when they are the same; across kinds only 1 and true, 0 and false are. */
  lemma EqualValues(a: Value, b: Value, lib: Library)
    ensures var same :=
              || a == b
              || (a, b) in {(BoolValue(true), IntValue(1)), (IntValue(1), BoolValue(true)),
                            (BoolValue(false), IntValue(0)), (IntValue(0), BoolValue(false))};
            Answer("equals", [a, b], lib) == Returned(BoolValue(same))
  {
    hide Answer;
    EqualsArm([a, b], lib);
  }

  /** `contains`: a text holds every text that occurs in it, a list the texts of its items. */
  lemma ContainsExactly(text: Text, items: seq<Text>, needle: Text, lib: Library)
    ensures Answer("contains", [TextValue(text), TextValue(needle)], lib) ==
              Returned(BoolValue(exists k: nat {:trigger OccursAt(text, needle, k)} ::
                k <= |text| && OccursAt(text, needle, k)))
    ensures Answer("contains", [ListValue(items), TextValue(needle)], lib) ==
              Returned(BoolValue(exists k :: 0 <= k < |items| && items[k] == needle))
  {
    hide Answer;
    ContainsArm([TextValue(text), TextValue(needle)], lib);
    ContainsArm([ListValue(items), TextValue(needle)], lib);
    assert Find(text, needle, 0) >= 0 ==> OccursAt(text, needle, Find(text, needle, 0));
  }

  /** Values that are not texts are searched, cut, padded and mapped as the text they are joined in as. */
  lemma ContainsAsText(container: Value, needle: Value, text: Text, sought: Text, lib: Library)
    requires Says(Answer("concat", [container], lib), text) && Says(Answer("concat", [needle], lib), sought)
    ensures Answer("contains", [container, needle], lib) ==
              Answer("contains", [if container.ListValue? then container else TextValue(text), TextValue(sought)], lib)
  {
    hide Answer;
    ConcatOne(container, lib);
    ConcatOne(needle, lib);
    ContainsArm([container, needle], lib);
    ContainsArm([if container.ListValue? then container else TextValue(text), TextValue(sought)], lib);
  }

  // ----- Texts of values -----

  lemma ConcatOne(v: Value, lib: Library)
    ensures Says(Answer("concat", [v], lib), TextOf(v))
  {
    hide Answer, TextOf;
    ConcatArm([v], lib);
    assert [v][1..] == [];
    assert Concatenated([v]) == TextOf(v) + Concatenated([]);
    assert TextOf(v) + [] == TextOf(v);
  }

  lemma {:induction false} ConcatenatedBoth(first: seq<Value>, second: seq<Value>)
    ensures Concatenated(first + second) == Concatenated(first) + Concatenated(second)
  {
    if first == [] {
      assert first + second == second;
    } else {
      assert (first + second)[1..] == first[1..] + second;
      ConcatenatedBoth(first[1..], second);
    }
  }

  /** `concat` of two rows of arguments is the text of the first and then that of the second. */
  lemma ConcatAppends(first: seq<Value>, second: seq<Value>, a: Text, b: Text, lib: Library)
    requires Says(Answer("concat", first, lib), a) && Says(Answer("concat", second, lib), b)
    requires 1 <= |first| && 1 <= |second| && |first| + |second| <= MAX_LIST_VALUES
    ensures Says(Answer("concat", first + second, lib), a + b)
  {
    hide Answer, Concatenated;
    ConcatArm(first, lib);
    ConcatArm(second, lib);
    ConcatArm(first + second, lib);
    ConcatenatedBoth(first, second);
  }

  /** The number a row of decimal digits stands for. */
  function Decimal(digits: Text): int {
    if digits == [] then 0 else 10 * Decimal(digits[..|digits| - 1]) + (digits[|digits| - 1] as int - 0x30)
  }

  lemma {:induction false} DigitsAreDecimal(n: nat)
    ensures Decimal(Digits(n)) == n
    ensures Digits(n)[0] == 0x30 ==> n == 0
    ensures n < 10 <==> |Digits(n)| == 1
  {
    if n < 10 {
      assert Decimal([]) == 0;
      assert Digits(n)[..0] == [];
    } else {
      DigitsAreDecimal(n / 10);
      assert Digits(n)[..|Digits(n)| - 1] == Digits(n / 10);
    }
  }

  /** Null reads as nothing, truth values by name, numbers in decimal without leading zeros, texts as they are. */
  lemma TextsOfValues(truth: bool, n: int, text: Text, lib: Library)
    ensures Says(Answer("concat", [NullValue], lib), [])
    ensures Says(Answer("concat", [BoolValue(truth)], lib), if truth then Chars("true") else Chars("false"))
    ensures Says(Answer("concat", [TextValue(text)], lib), text)
    ensures exists digits: Text ::
              && digits != [] && (forall i :: 0 <= i < |digits| ==> IsDigit(digits[i]))
              && Decimal(digits) == (if n < 0 then -n else n) && (digits[0] == 0x30 ==> |digits| == 1)
              && Says(Answer("concat", [IntValue(n)], lib), if n < 0 then Chars("-") + digits else digits)
  {
    hide Answer, Digits, Join;
    ConcatOne(NullValue, lib);
    ConcatOne(BoolValue(truth), lib);
    ConcatOne(TextValue(text), lib);
    ConcatOne(IntValue(n), lib);
    var digits := Digits(if n < 0 then -n else n);
    DigitsAreDecimal(if n < 0 then -n else n);
    assert Chars("-") == [0x2D];
    assert Says(Answer("concat", [IntValue(n)], lib), if n < 0 then Chars("-") + digits else digits);
  }

  /** A list reads as its items, joined with a semicolon and a blank. */
  lemma TextOfList(items: seq<Text>, lib: Library)
    ensures Answer("concat", [ListValue(items)], lib) == Answer("join", [ListValue(items)], lib)
  {
    hide Answer;
    ConcatOne(ListValue(items), lib);
    JoinArm([ListValue(items)], lib);
  }

  // ----- Lists -----

  /** `first`: the first item of a list that has one, and everything else as it is. */
  lemma FirstOfList(v: Value, lib: Library)
    ensures Answer("first", [v], lib) ==
              Returned(match v
                       case ListValue(items) => if |items| > 0 then TextValue(items[0]) else v
                       case _ => v)
  {
    hide Answer;
    FirstArm([v], lib);
  }

  lemma JoinByName(items: seq<Text>, separator: Text, lib: Library)
    ensures Says(Answer("join", [ListValue(items), TextValue(separator)], lib), Join(items, separator))
  {
    hide Answer;
    JoinArm([ListValue(items), TextValue(separator)], lib);
  }

  /** `join`: the items of both parts in order, with the separator between the parts, and nothing around them. */
  lemma {:induction false} JoinAppends(first: seq<Text>, second: seq<Text>, separator: Text)
    requires first != [] && second != []
    ensures Join(first + second, separator) == Join(first, separator) + separator + Join(second, separator)
  {
    assert (first + second)[1..] == first[1..] + second;
    if |first| == 1 {
      assert first[1..] + second == second;
    } else {
      JoinAppends(first[1..], second, separator);
      var a, b := Join(first[1..], separator), Join(second, separator);
      assert first[0] + separator + (a + separator + b) == (first[0] + separator + a) + separator + b;
    }
  }

  /** `join` by name: no item, one item, two parts, the standard separator, and what is not a list. */
  lemma JoinJoins(first: seq<Text>, second: seq<Text>, item: Text, separator: Text, v: Value, lib: Library)
    ensures Says(Answer("join", [ListValue([]), TextValue(separator)], lib), [])
    ensures Says(Answer("join", [ListValue([item]), TextValue(separator)], lib), item)
    ensures first != [] && second != [] ==>
              forall a, b ::
                && Says(Answer("join", [ListValue(first), TextValue(separator)], lib), a)
                && Says(Answer("join", [ListValue(second), TextValue(separator)], lib), b) ==>
                Says(Answer("join", [ListValue(first + second), TextValue(separator)], lib), a + separator + b)
    ensures Answer("join", [ListValue(first)], lib) ==
              Answer("join", [ListValue(first), TextValue(Chars("; "))], lib)
    ensures !v.ListValue? ==>
              && Answer("join", [v], lib) == Answer("concat", [v], lib)
              && Answer("join", [v, TextValue(separator)], lib) == Answer("concat", [v], lib)
  {
    hide Answer, Join, Concatenated;
    JoinByName([], separator, lib);
    JoinByName([item], separator, lib);
    JoinFew(item, separator);
    JoinByName(first, separator, lib);
    JoinByName(second, separator, lib);
    JoinByName(first + second, separator, lib);
    if first != [] && second != [] {
      JoinAppends(first, second, separator);
    }
    JoinArm([ListValue(first)], lib);
    JoinByName(first, Chars("; "), lib);
    JoinArm([v], lib);
    JoinArm([v, TextValue(separator)], lib);
    ConcatOne(v, lib);
  }

  lemma JoinFew(item: Text, separator: Text)
    ensures Join([], separator) == [] && Join([item], separator) == item
  {
  }

  // ----- Replacing -----

  lemma ReplaceByName(text: Text, old_: Text, new_: Text, lib: Library)
    ensures Says(Answer("replace", [TextValue(text), TextValue(old_), TextValue(new_)], lib), Replace(text, old_, new_))
  {
    hide Answer;
    ReplaceArm([TextValue(text), TextValue(old_), TextValue(new_)], lib);
  }

  /** `replace`: the leftmost occurrence is replaced and the rest treated alike; without one the text stays. */
  lemma ReplaceReplaces(text: Text, old_: Text, new_: Text, k: nat, rest: Text, lib: Library)
    requires old_ != [] && k <= |text| && forall i :: 0 <= i < k ==> !OccursAt(text, old_, i)
    requires OccursAt(text, old_, k) ==>
               Says(Answer("replace", [TextValue(text[k + |old_|..]), TextValue(old_), TextValue(new_)], lib), rest)
    ensures var r := Answer("replace", [TextValue(text), TextValue(old_), TextValue(new_)], lib);
            && (OccursAt(text, old_, k) ==> Says(r, text[..k] + new_ + rest))
            && (k == |text| ==> Says(r, text))
  {
    hide Replace, Answer;
    ReplaceByName(text, old_, new_, lib);
    if OccursAt(text, old_, k) {
      ReplaceByName(text[k + |old_|..], old_, new_, lib);
      ReplaceAtLeftmost(text, old_, new_, k);
    }
    if k == |text| {
      ReplaceNothing(text, old_, new_);
    }
  }

  /** `replace` of nothing: the new text in front of every character and at the end. */
  lemma ReplaceOfNothing(c: CodePoint, text: Text, new_: Text, rest: Text, lib: Library)
    requires Says(Answer("replace", [TextValue(text), TextValue([]), TextValue(new_)], lib), rest)
    ensures Says(Answer("replace", [TextValue([]), TextValue([]), TextValue(new_)], lib), new_)
    ensures Says(Answer("replace", [TextValue([c] + text), TextValue([]), TextValue(new_)], lib), new_ + [c] + rest)
  {
    hide Answer;
    ReplaceByName([], [], new_, lib);
    assert Interleave([], new_) == [] && new_ + [] == new_;
    ReplaceByName(text, [], new_, lib);
    ReplaceByName([c] + text, [], new_, lib);
    assert ([c] + text)[1..] == text;
    assert Interleave([c] + text, new_) == [c] + new_ + Interleave(text, new_);
    assert new_ + ([c] + new_ + Interleave(text, new_)) == new_ + [c] + (new_ + Interleave(text, new_));
  }

  /** Every argument of `replace` is read as a text. */
  lemma ReplaceAsText(args: seq<Value>, lib: Library)
    requires |args| == 3
    ensures Answer("replace", args, lib) ==
              Answer("replace", [TextValue(TextOf(args[0])), TextValue(TextOf(args[1])), TextValue(TextOf(args[2]))],
                lib)
  {
    hide Answer;
    ReplaceArm(args, lib);
    ReplaceByName(TextOf(args[0]), TextOf(args[1]), TextOf(args[2]), lib);
  }

  // ----- Slices -----

  /** An index as `slice` reads it: counted from the end when it is negative, and moved into the sequence. */
  predicate Denotes(index: int, length: nat, place: nat) {
    || index == place <= length
    || (index < 0 && index + length == place)
    || (index + length < 0 && place == 0)
    || (index > length && place == length)
  }

  /** `slice` of a list or a text is the stretch between the places its indices denote. */
  lemma SliceCuts(text: Text, items: seq<Text>, start: int, end: int, lib: Library)
    ensures forall i: nat, j: nat :: Denotes(start, |text|, i) && Denotes(end, |text|, j) ==>
              Answer("slice", [TextValue(text), IntValue(start), IntValue(end)], lib) ==
                Returned(TextValue(if i <= j then text[i..j] else []))
    ensures forall i: nat, j: nat :: Denotes(start, |items|, i) && Denotes(end, |items|, j) ==>
              Answer("slice", [ListValue(items), IntValue(start), IntValue(end)], lib) ==
                Returned(ListValue(if i <= j then items[i..j] else []))
  {
    hide Answer;
    SliceByName(TextValue(text), start, Some(end), lib);
    SliceByName(ListValue(items), start, Some(end), lib);
    SliceDenoted(text, start, end);
    SliceDenoted(items, start, end);
  }

  lemma SliceDenoted<T>(s: seq<T>, start: int, end: int)
    ensures forall i: nat, j: nat :: Denotes(start, |s|, i) && Denotes(end, |s|, j) ==>
              Slice(s, start, Some(end)) == if i <= j then s[i..j] else []
  {
  }

  lemma SliceByName(v: Value, start: int, end: Option<int>, lib: Library)
    ensures Answer("slice", if end == None then [v, IntValue(start)] else [v, IntValue(start), IntValue(end.value)],
              lib) ==
              Returned(if v.ListValue? then ListValue(Slice(v.items, start, end))
                          else TextValue(Slice(TextOf(v), start, end)))
  {
    hide Answer;
    SliceArm(if end == None then [v, IntValue(start)] else [v, IntValue(start), IntValue(end.value)], lib);
  }

  /** At any index, negative or too large, two slices make up the value. */
  lemma SlicesMeetByName(text: Text, items: seq<Text>, k: int, lib: Library)
    ensures var first, second :=
              Answer("slice", [TextValue(text), IntValue(0), IntValue(k)], lib),
              Answer("slice", [TextValue(text), IntValue(k)], lib);
            first.Returned? && second.Returned? && first.value.TextValue? && second.value.TextValue? &&
            first.value.text + second.value.text == text
    ensures var first, second :=
              Answer("slice", [ListValue(items), IntValue(0), IntValue(k)], lib),
              Answer("slice", [ListValue(items), IntValue(k)], lib);
            first.Returned? && second.Returned? && first.value.ListValue? && second.value.ListValue? &&
            first.value.items + second.value.items == items
  {
    hide Answer, Slice;
    SliceByName(TextValue(text), 0, Some(k), lib);
    SliceByName(TextValue(text), k, None, lib);
    SliceByName(ListValue(items), 0, Some(k), lib);
    SliceByName(ListValue(items), k, None, lib);
    SlicesMeet(text, k);
    SlicesMeet(items, k);
  }

  /** What `slice` and `pad` accept as an integer: a number, or a text that `int()` reads as one. */
  predicate ReadsAs(v: Value, n: int, lib: Library) {
    v == IntValue(n) || (v.TextValue? && lib.parseInteger(v.text) == Some(n))
  }

  lemma ReadsAsInteger(v: Value, lib: Library)
    ensures forall n :: ReadsAs(v, n, lib) <==> IntegerOf(v, lib) == Some(n)
  {
  }

  /** An index of any other kind is refused, and an accepted one counts as the number it reads as. */
  lemma SliceIndices(v: Value, start: Value, end: Value, lib: Library)
    ensures (forall n :: !ReadsAs(start, n, lib)) || (forall n :: !ReadsAs(end, n, lib)) ==>
              Answer("slice", [v, start, end], lib) == Failed(NeedsInteger)
    ensures (forall n :: !ReadsAs(start, n, lib)) ==> Answer("slice", [v, start], lib) == Failed(NeedsInteger)
    ensures forall i, j :: ReadsAs(start, i, lib) && ReadsAs(end, j, lib) ==>
              Answer("slice", [v, start, end], lib) == Answer("slice", [v, IntValue(i), IntValue(j)], lib)
    ensures forall i :: ReadsAs(start, i, lib) ==>
              Answer("slice", [v, start], lib) == Answer("slice", [v, IntValue(i)], lib)
  {
    hide Answer, Slice, ReadsAs, TextOf;
    ReadsAsInteger(start, lib);
    ReadsAsInteger(end, lib);
    SliceArm([v, start, end], lib);
    SliceArm([v, start], lib);
    assert IntegerOf(start, lib).Some? ==> ReadsAs(start, IntegerOf(start, lib).value, lib);
    assert IntegerOf(end, lib).Some? ==> ReadsAs(end, IntegerOf(end, lib).value, lib);
    forall i, j | ReadsAs(start, i, lib) && ReadsAs(end, j, lib)
      ensures Answer("slice", [v, start, end], lib) == Answer("slice", [v, IntValue(i), IntValue(j)], lib)
    {
      SliceArm([v, IntValue(i), IntValue(j)], lib);
    }
    forall i | ReadsAs(start, i, lib)
      ensures Answer("slice", [v, start], lib) == Answer("slice", [v, IntValue(i)], lib)
    {
      SliceArm([v, IntValue(i)], lib);
    }
  }

  /** What is neither a text nor a list is cut as its text. */
  lemma SliceAsText(v: Value, rest: seq<Value>, lib: Library)
    requires !v.ListValue? && 1 <= |rest| <= 2
    ensures Answer("slice", [v] + rest, lib) == Answer("slice", [TextValue(TextOf(v))] + rest, lib)
  {
    hide Answer, Slice;
    SliceArm([v] + rest, lib);
    SliceArm([TextValue(TextOf(v))] + rest, lib);
  }

  // ----- Padding -----

  /**
   `pad` needs a width between 0 and 1024 and one character to fill with, a zero
   when it is left out; it fills on the left up to the width and keeps the text.
   */
  lemma PadPads(text: Text, width: Value, fill: Text, lib: Library)
    ensures var r := Answer("pad", [TextValue(text), width, TextValue(fill)], lib);
            && (r == Failed(NeedsInteger) <==> forall n :: !ReadsAs(width, n, lib))
            && (forall n :: ReadsAs(width, n, lib) ==>
                  && (r == Failed(InvalidPadding) <==> n < 0 || n > 1024 || |fill| != 1)
                  && (!r.Failed? ==> r.value.TextValue? && Padded(text, n, fill, r.value.text)))
    ensures Answer("pad", [TextValue(text), width], lib) ==
              Answer("pad", [TextValue(text), width, TextValue(ZERO)], lib)
    ensures ZERO == ['0' as int]
  {
    hide Answer, ReadsAs;
    ReadsAsInteger(width, lib);
    PadArm([TextValue(text), width, TextValue(fill)], lib);
    PadArm([TextValue(text), width], lib);
    PadArm([TextValue(text), width, TextValue(ZERO)], lib);
    assert IntegerOf(width, lib).Some? ==> ReadsAs(width, IntegerOf(width, lib).value, lib);
  }

  predicate Padded(text: Text, width: int, fill: Text, padded: Text) {
    && |padded| == (if |text| < width then width else |text|)
    && padded[|padded| - |text|..] == text
    && forall i :: 0 <= i < |padded| - |text| ==> [padded[i]] == fill
  }

  // ----- Mappings -----

  /** The case mappings, the folding and the article rule are applied to the text of the value, each under its name. */
  lemma MappingsByName(v: Value, lib: Library)
    ensures Says(Answer("lower", [v], lib), lib.lower(TextOf(v)))
    ensures Says(Answer("upper", [v], lib), lib.upper(TextOf(v)))
    ensures Says(Answer("title", [v], lib), lib.title(TextOf(v)))
    ensures Says(Answer("ascii_fold", [v], lib), lib.asciiFold(TextOf(v)))
  {
    hide Answer;
    LowerArm([v], lib);
    UpperArm([v], lib);
    TitleArm([v], lib);
    AsciiFoldArm([v], lib);
  }

  /** The text starts with the article, case folded. */
  predicate Leads(text: Text, article: string, lib: Library) {
    StartsWith(lib.casefold(text), lib.casefold(Chars(article)))
  }

  /** `text` without its article, a comma and a blank, and the article without its blank. */
  predicate Inverted(text: Text, length: nat, r: CallResult) {
    && (length <= |text| && length > 0 ==> Says(r, text[length..] + Chars(", ") + text[..length - 1]))
    && (length > |text| ==> Says(r, Chars(", ") + text))
  }

  /**
   `sort_name` moves the first of the articles the stripped text starts with
   behind it, and answers the stripped text when it starts with none.
   */
  lemma SortNameInverts(v: Value, lib: Library)
    ensures var r, text := Answer("sort_name", [v], lib), Strip(TextOf(v));
            && (Leads(text, "The ", lib) ==> Inverted(text, 4, r))
            && (!Leads(text, "The ", lib) && Leads(text, "An ", lib) ==> Inverted(text, 3, r))
            && (!Leads(text, "The ", lib) && !Leads(text, "An ", lib) && Leads(text, "A ", lib) ==>
                  Inverted(text, 2, r))
            && (!Leads(text, "The ", lib) && !Leads(text, "An ", lib) && !Leads(text, "A ", lib) ==> Says(r, text))
  {
    hide Answer, StartsWith, Slice, TextOf, Strip, Inverted, SortName;
    var text := Strip(TextOf(v));
    SortNameByName(v, lib);
    SortNameCases(text, lib);
    InvertedBySlices(text, 4, Answer("sort_name", [v], lib));
    InvertedBySlices(text, 3, Answer("sort_name", [v], lib));
    InvertedBySlices(text, 2, Answer("sort_name", [v], lib));
  }

  lemma SortNameCases(text: Text, lib: Library)
    ensures SortName(text, lib) ==
              if Leads(text, "The ", lib) then Slice(text, 4, None) + Chars(", ") + Slice(text, 0, Some(3))
              else if Leads(text, "An ", lib) then Slice(text, 3, None) + Chars(", ") + Slice(text, 0, Some(2))
              else if Leads(text, "A ", lib) then Slice(text, 2, None) + Chars(", ") + Slice(text, 0, Some(1))
              else text
  {
    hide StartsWith, Slice;
    var the, an, a := Chars("The "), Chars("An "), Chars("A ");
    assert [the, an, a][1..] == [an, a] && [an, a][1..] == [a];
    assert SortNameBy(text, [a][1..], lib) == text;
    assert SortNameBy(text, [a], lib) ==
           if Leads(text, "A ", lib) then Slice(text, 2, None) + Chars(", ") + Slice(text, 0, Some(1)) else text;
    assert SortNameBy(text, [an, a], lib) ==
           if Leads(text, "An ", lib) then Slice(text, 3, None) + Chars(", ") + Slice(text, 0, Some(2))
           else SortNameBy(text, [a], lib);
  }

  lemma SortNameByName(v: Value, lib: Library)
    ensures Says(Answer("sort_name", [v], lib), SortName(Strip(TextOf(v)), lib))
  {
    hide Answer, SortName;
    SortNameArm([v], lib);
  }

  lemma InvertedBySlices(text: Text, length: nat, r: CallResult)
    requires length > 0
    ensures r == Returned(TextValue(Slice(text, length, None) + Chars(", ") + Slice(text, 0, Some(length - 1)))) ==>
              Inverted(text, length, r)
  {
    hide Answer;
    if length <= |text| {
      assert Slice(text, length, None) == text[length..] && Slice(text, 0, Some(length - 1)) == text[..length - 1];
    } else {
      assert Slice(text, length, None) == [] && Slice(text, 0, Some(length - 1)) == text;
      assert [] + Chars(", ") + text == Chars(", ") + text;
    }
  }

  // ----- Path safety -----

  predicate NotInPaths(c: CodePoint) {
    c < 0x20 || c == 0x7F || c in Chars("\"*/:<>?\\|")
  }

  lemma InvalidExactly(c: CodePoint)
    ensures IsInvalidInPath(c) <==> NotInPaths(c)
  {
    var listed := Chars("\"*/:<>?\\|");
    assert listed == [0x22, 0x2A, 0x2F, 0x3A, 0x3C, 0x3E, 0x3F, 0x5C, 0x7C];
  }

  /**
   `path_safe` wants one character other than a separator or NUL, an underscore
   when it is left out; it puts it in place of every character that is not valid
   in a path and keeps all others, so that no separator and no NUL is left.
   */
  lemma PathSafeByName(text: Text, replacement: Text, lib: Library)
    ensures var r := Answer("path_safe", [TextValue(text), TextValue(replacement)], lib);
            if |replacement| == 1 && replacement[0] !in {'/' as int, '\\' as int, 0} then
              && r.Returned? && r.value.TextValue? && |r.value.text| == |text|
              && forall i :: 0 <= i < |text| ==>
                   && r.value.text[i] == (if NotInPaths(text[i]) then replacement[0] else text[i])
                   && r.value.text[i] !in {'/' as int, '\\' as int, 0}
            else r == Failed(InvalidReplacement)
    ensures Answer("path_safe", [TextValue(text)], lib) ==
              Answer("path_safe", [TextValue(text), TextValue(Chars("_"))], lib)
  {
    hide Answer, NotInPaths, IsInvalidInPath;
    forall c: CodePoint
      ensures IsInvalidInPath(c) <==> NotInPaths(c)
    {
      InvalidExactly(c);
    }
    InvalidSeparators();
    PathSafeArm([TextValue(text), TextValue(replacement)], lib);
    PathSafeArm([TextValue(text)], lib);
    PathSafeArm([TextValue(text), TextValue(Chars("_"))], lib);
  }

  lemma InvalidSeparators()
    ensures IsInvalidInPath('/' as int) && IsInvalidInPath('\\' as int) && IsInvalidInPath(0)
  {
  }
}
