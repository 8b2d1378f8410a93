/**
 The eager evaluator and its budget. `Evaluate` (the method) charges a mutable
 budget object; `Eval` is the same charging on values; `Denote` is what an
 expression means when nothing is charged. `EvaluatorExact` connects the two.
 */
module ScriptEvaluator {
  import opened Wrappers
  import opened Texts
  import opened ScriptSyntax
  import opened ScriptFunctions
  import opened ScriptCompiler

  type Environment = map<Text, Value>

  datatype Budget = Budget(steps: nat, output: nat)

  datatype Outcome<+T> = Outcome(result: Result<T>, budget: Budget)

  const FRESH := Budget(0, 0)

  // ----- Sizes and limits of one value -----

  function TotalLength(items: seq<Text>): nat {
    if items == [] then 0 else |items[0]| + TotalLength(items[1..])
  }

  function ValueSize(v: Value): nat {
    match v
    case TextValue(text) => |text|
    case ListValue(items) => TotalLength(items)
    case _ => 0
  }

  predicate IsUnsafe(c: CodePoint) {
    c == 0 || 0xD800 <= c <= 0xDFFF
  }

  predicate HasUnsafe(t: Text) {
    exists i :: 0 <= i < |t| && IsUnsafe(t[i])
  }

  predicate HasUnsafeText(v: Value) {
    match v
    case TextValue(text) => HasUnsafe(text)
    case ListValue(items) => exists i :: 0 <= i < |items| && HasUnsafe(items[i])
    case _ => false
  }

  /** The limits every intermediate value has to keep. */
  predicate Acceptable(v: Value) {
    && (v.ListValue? ==> |v.items| <= MAX_LIST_VALUES)
    && !HasUnsafeText(v)
    && ValueSize(v) <= MAX_VALUE_CHARACTERS
  }

  /** Text that can be encoded and holds no NUL. */
  predicate Storable(t: Text) {
    forall i :: 0 <= i < |t| ==> t[i] > 0 && (t[i] < 0xD800 || 0xE000 <= t[i])
  }

  /**
   Every null, truth value and number is acceptable, a text of at most 8,192
   storable characters, and a list of at most 100 such texts with as many
   characters in all.
   */
  lemma AcceptableExact(v: Value)
    ensures Acceptable(v) <==>
              match v
              case TextValue(text) => Storable(text) && |text| <= 8_192
              case ListValue(items) =>
                && |items| <= 100 && (forall i :: 0 <= i < |items| ==> Storable(items[i]))
                && TotalLength(items) <= 8_192
              case _ => true
  {
    forall t: Text
      ensures HasUnsafe(t) <==> !Storable(t)
    {
      UnsafeExact(t);
    }
  }

  lemma UnsafeExact(t: Text)
    ensures HasUnsafe(t) <==> !Storable(t)
  {
  }

  // ----- Meaning without a budget -----

  function Lookup(env: Environment, name: Text): Value {
    if name in env then env[name] else NullValue
  }

  function Denote(e: Expression, env: Environment, lib: Library): Option<Value>
    decreases e, 0
  {
    match e
    case Literal(value, _) => Some(value)
    case Variable(name, _) => Some(Lookup(env, name))
    case ListExpression(children, _) =>
      var values := DenoteAll(children, env, lib);
      if values == None then None else Some(ListValue(TextsOf(values.value)))
    case Call(name, children, _) =>
      var values := DenoteAll(children, env, lib);
      if values == None then None
      else
        match CallFunction(AsciiFold(name), values.value, lib)
        case Failed(_) => None
        case Returned(value) => Some(value)
  }

  function DenoteAll(es: seq<Expression>, env: Environment, lib: Library): (r: Option<seq<Value>>)
    ensures r.Some? ==> |r.value| == |es|
    decreases es, 1
  {
    if es == [] then Some([])
    else
      var first, rest := Denote(es[0], env, lib), DenoteAll(es[1..], env, lib);
      if first == None || rest == None then None else Some([first.value] + rest.value)
  }

  /** The sizes of the values of all nodes, added up. */
  function OutputSize(e: Expression, env: Environment, lib: Library): nat
    decreases e, 0
  {
    var own := Denote(e, env, lib);
    (if own.Some? then ValueSize(own.value) else 0) +
    match e
    case ListExpression(children, _) => OutputSizes(children, env, lib)
    case Call(_, children, _) => OutputSizes(children, env, lib)
    case _ => 0
  }

  function OutputSizes(es: seq<Expression>, env: Environment, lib: Library): nat
    decreases es, 1
  {
    if es == [] then 0 else OutputSize(es[0], env, lib) + OutputSizes(es[1..], env, lib)
  }

  /** Every node has a value, and every one of these values keeps the limits. */
  predicate AllAcceptable(e: Expression, env: Environment, lib: Library)
    decreases e, 0
  {
    && Denote(e, env, lib).Some? && Acceptable(Denote(e, env, lib).value)
    && match e
       case ListExpression(children, _) => EachAcceptable(children, env, lib)
       case Call(_, children, _) => EachAcceptable(children, env, lib)
       case _ => true
  }

  predicate EachAcceptable(es: seq<Expression>, env: Environment, lib: Library)
    decreases es, 1
  {
    es == [] || (AllAcceptable(es[0], env, lib) && EachAcceptable(es[1..], env, lib))
  }

  // ----- Charging -----

  /** `budget.consume(expression)`, for one step. */
  function Consume(at: Position, b: Budget): Outcome<()> {
    var charged := b.(steps := b.steps + 1);
    Outcome(if charged.steps > MAX_RUNTIME_STEPS then Err(ScriptError(StepLimit, at)) else Ok(()), charged)
  }

  /** `budget.account(expression, value)`. */
  function Account(v: Value, at: Position, b: Budget): Outcome<Value> {
    if v.ListValue? && |v.items| > MAX_LIST_VALUES then Outcome(Err(ScriptError(TooManyListValues, at)), b)
    else if HasUnsafeText(v) then Outcome(Err(ScriptError(UnsafeText, at)), b)
    else if ValueSize(v) > MAX_VALUE_CHARACTERS then Outcome(Err(ScriptError(ValueTooLong, at)), b)
    else
      var charged := b.(output := b.output + ValueSize(v));
      var over := charged.output > MAX_TOTAL_OUTPUT_CHARACTERS;
      Outcome(if over then Err(ScriptError(OutputLimit, at)) else Ok(v), charged)
  }

  function Eval(e: Expression, env: Environment, lib: Library, b: Budget): Outcome<Value>
    decreases e, 0
  {
    var begun := Consume(e.at, b);
    if begun.result.Err? then Outcome(Err(begun.result.error), begun.budget)
    else
      match e
      case Literal(value, at) => Account(value, at, begun.budget)
      case Variable(name, at) => Account(Lookup(env, name), at, begun.budget)
      case ListExpression(children, at) =>
        var values := EvalAll(children, env, lib, begun.budget);
        if values.result.Err? then Outcome(Err(values.result.error), values.budget)
        else Account(ListValue(TextsOf(values.result.value)), at, values.budget)
      case Call(name, children, at) =>
        var values := EvalAll(children, env, lib, begun.budget);
        if values.result.Err? then Outcome(Err(values.result.error), values.budget)
        else
          match CallFunction(AsciiFold(name), values.result.value, lib)
          case Failed(kind) => Outcome(Err(ScriptError(kind, at)), values.budget)
          case Returned(value) => Account(value, at, values.budget)
  }

  function EvalAll(es: seq<Expression>, env: Environment, lib: Library, b: Budget): (r: Outcome<seq<Value>>)
    ensures r.result.Ok? ==> |r.result.value| == |es|
    decreases es, 1
  {
    if es == [] then Outcome(Ok([]), b)
    else
      var first := Eval(es[0], env, lib, b);
      if first.result.Err? then Outcome(Err(first.result.error), first.budget)
      else Joined([first.result.value], EvalAll(es[1..], env, lib, first.budget))
  }

  function Joined(values: seq<Value>, rest: Outcome<seq<Value>>): Outcome<seq<Value>> {
    if rest.result.Err? then rest else Outcome(Ok(values + rest.result.value), rest.budget)
  }

  // ----- The budget object and the evaluator -----

  class EvaluationBudget {
    var steps: nat
    var outputCharacters: nat

    constructor ()
      ensures Spent() == FRESH
    {
      steps, outputCharacters := 0, 0;
    }

    function Spent(): Budget
      reads this
    {
      Budget(steps, outputCharacters)
    }

    method ConsumeStep(at: Position) returns (r: Result<()>)
      modifies this
      ensures Outcome(r, Spent()) == Consume(at, old(Spent()))
      ensures steps == old(steps) + 1 && outputCharacters == old(outputCharacters)
      ensures if old(steps) < MAX_RUNTIME_STEPS then r.Ok? else r == Err(ScriptError(StepLimit, at))
    {
      steps := steps + 1;
      r := if steps > MAX_RUNTIME_STEPS then Err(ScriptError(StepLimit, at)) else Ok(());
    }

    method AccountFor(v: Value, at: Position) returns (r: Result<Value>)
      modifies this
      ensures Outcome(r, Spent()) == Account(v, at, old(Spent()))
      ensures steps == old(steps)
      ensures outputCharacters == old(outputCharacters) + if Acceptable(v) then ValueSize(v) else 0
      ensures r.Ok? <==> Acceptable(v) && outputCharacters <= MAX_TOTAL_OUTPUT_CHARACTERS
      ensures r.Ok? ==> r.value == v
      ensures r.Err? && Acceptable(v) ==> r.error == ScriptError(OutputLimit, at)
    {
      if v.ListValue? && |v.items| > MAX_LIST_VALUES {
        return Err(ScriptError(TooManyListValues, at));
      }
      if HasUnsafeText(v) {
        return Err(ScriptError(UnsafeText, at));
      }
      if ValueSize(v) > MAX_VALUE_CHARACTERS {
        return Err(ScriptError(ValueTooLong, at));
      }
      outputCharacters := outputCharacters + ValueSize(v);
      if outputCharacters > MAX_TOTAL_OUTPUT_CHARACTERS {
        return Err(ScriptError(OutputLimit, at));
      }
      r := Ok(v);
    }
  }

  method Evaluate(e: Expression, env: Environment, lib: Library, budget: EvaluationBudget) returns (r: Result<Value>)
    modifies budget
    ensures Outcome(r, budget.Spent()) == Eval(e, env, lib, old(budget.Spent()))
    decreases e, 0
  {
    var step := budget.ConsumeStep(e.at);
    if step.Err? {
      return Err(step.error);
    }
    match e
    case Literal(value, at) =>
      r := budget.AccountFor(value, at);
    case Variable(name, at) =>
      r := budget.AccountFor(Lookup(env, name), at);
    case ListExpression(children, at) =>
      var values := EvaluateAll(children, env, lib, budget);
      if values.Err? {
        return Err(values.error);
      }
      r := budget.AccountFor(ListValue(TextsOf(values.value)), at);
    case Call(name, children, at) =>
      var values := EvaluateAll(children, env, lib, budget);
      if values.Err? {
        return Err(values.error);
      }
      var called := CallFunction(AsciiFold(name), values.value, lib);
      if called.Failed? {
        return Err(ScriptError(called.kind, at));
      }
      r := budget.AccountFor(called.value, at);
  }

  /** The generator that evaluates children from left to right. */
  method EvaluateAll(es: seq<Expression>, env: Environment, lib: Library, budget: EvaluationBudget)
    returns (r: Result<seq<Value>>)
    modifies budget
    ensures Outcome(r, budget.Spent()) == EvalAll(es, env, lib, old(budget.Spent()))
    decreases es, 1
  {
    var values: seq<Value> := [];
    ghost var all := EvalAll(es, env, lib, budget.Spent());
    assert all.result.Ok? ==> [] + all.result.value == all.result.value;
    assert es[0..] == es;
    for i := 0 to |es|
      invariant all == Joined(values, EvalAll(es[i..], env, lib, budget.Spent()))
    {
      assert es[i..][0] == es[i] && es[i..][1..] == es[i + 1..];
      var value := Evaluate(es[i], env, lib, budget);
      if value.Err? {
        return Err(value.error);
      }
      JoinedTwice(values, value.value, EvalAll(es[i + 1..], env, lib, budget.Spent()));
      values := values + [value.value];
    }
    assert values + [] == values;
    r := Ok(values);
  }

  lemma JoinedTwice(values: seq<Value>, value: Value, rest: Outcome<seq<Value>>)
    ensures Joined(values, Joined([value], rest)) == Joined(values + [value], rest)
  {
    if rest.result.Ok? {
      assert values + ([value] + rest.result.value) == (values + [value]) + rest.result.value;
    }
  }

  // ----- The budgeted evaluator refines the meaning -----

  /** The budget a whole evaluation leaves. */
  function SpentOn(b: Budget, nodes: nat, size: nat): Budget {
    Budget(b.steps + nodes, b.output + size)
  }

  predicate WithinBudget(b: Budget) {
    b.steps <= MAX_RUNTIME_STEPS && b.output <= MAX_TOTAL_OUTPUT_CHARACTERS
  }

  lemma AccountExact(v: Value, at: Position, b: Budget)
    ensures var r := Account(v, at, b);
            && (r.result.Ok? <==> Acceptable(v) && b.output + ValueSize(v) <= MAX_TOTAL_OUTPUT_CHARACTERS)
            && (r.result.Ok? ==> r.result.value == v && r.budget == SpentOn(b, 0, ValueSize(v)))
  {
  }

  /**
   Evaluation succeeds exactly when the expression has a meaning, every
   intermediate value keeps the limits, and the total number of nodes and the
   total size of their values fit into what is left of the budget. It then
   returns the meaning and has charged exactly these totals.
   */
  lemma {:induction false} EvaluatorExact(e: Expression, env: Environment, lib: Library, b: Budget)
    ensures var r := Eval(e, env, lib, b);
            && (r.result.Ok? <==>
                  && AllAcceptable(e, env, lib)
                  && WithinBudget(SpentOn(b, NodeCount(e), OutputSize(e, env, lib))))
            && (r.result.Ok? ==>
                  && Some(r.result.value) == Denote(e, env, lib)
                  && r.budget == SpentOn(b, NodeCount(e), OutputSize(e, env, lib)))
    decreases e, 0
  {
    hide CallFunction, Account, Acceptable, ValueSize, TextsOf, Lookup, AsciiFold;
    var begun := Consume(e.at, b).budget;
    match e
    case Literal(value, at) => AccountExact(value, at, begun);
    case Variable(name, at) => AccountExact(Lookup(env, name), at, begun);
    case ListExpression(children, at) =>
      EvaluatorExactAll(children, env, lib, begun);
      var values := EvalAll(children, env, lib, begun);
      if values.result.Ok? {
        AccountExact(ListValue(TextsOf(values.result.value)), at, values.budget);
      }
    case Call(name, children, at) =>
      EvaluatorExactAll(children, env, lib, begun);
      var values := EvalAll(children, env, lib, begun);
      if values.result.Ok? {
        var called := CallFunction(AsciiFold(name), values.result.value, lib);
        if called.Returned? {
          AccountExact(called.value, at, values.budget);
        }
      }
  }

  lemma {:induction false} EvaluatorExactAll(es: seq<Expression>, env: Environment, lib: Library, b: Budget)
    ensures var r := EvalAll(es, env, lib, b);
            && (WithinBudget(b) ==>
                  (r.result.Ok? <==>
                    && EachAcceptable(es, env, lib)
                    && WithinBudget(SpentOn(b, NodeCounts(es), OutputSizes(es, env, lib)))))
            && (r.result.Ok? ==>
                  && Some(r.result.value) == DenoteAll(es, env, lib) && EachAcceptable(es, env, lib)
                  && r.budget == SpentOn(b, NodeCounts(es), OutputSizes(es, env, lib)))
    decreases es, 1
  {
    if es != [] {
      EvaluatorExact(es[0], env, lib, b);
      var first := Eval(es[0], env, lib, b);
      if first.result.Ok? {
        EvaluatorExactAll(es[1..], env, lib, first.budget);
      }
    }
  }

  // ----- Compiled expressions do not go wrong -----

  predicate GoesWrong(kind: ErrorKind) {
    kind == UnknownFunction || kind == WrongArity || kind == NotImplemented
  }

  lemma AccountRefusesSizesOnly(v: Value, at: Position, b: Budget)
    ensures var r := Account(v, at, b);
            r.budget.steps == b.steps &&
                (r.result.Err? ==> !GoesWrong(r.result.error.kind) && r.result.error.kind != StepLimit)
  {
  }

  lemma {:induction false} CallableNeverGoesWrong(e: Expression, env: Environment, lib: Library, b: Budget)
    requires Callable(e)
    ensures var r := Eval(e, env, lib, b);
            && r.budget.steps <= b.steps + NodeCount(e)
            && (r.result.Err? ==> !GoesWrong(r.result.error.kind))
            && (r.result.Err? && r.result.error.kind == StepLimit ==> b.steps + NodeCount(e) > MAX_RUNTIME_STEPS)
    decreases e, 0
  {
    hide CallFunction, SafeArity, Account;
    var begun := Consume(e.at, b).budget;
    match e
    case Literal(value, at) => AccountRefusesSizesOnly(value, at, begun);
    case Variable(name, at) => AccountRefusesSizesOnly(Lookup(env, name), at, begun);
    case ListExpression(children, at) =>
      CallablesNeverGoWrong(children, env, lib, begun);
      var values := EvalAll(children, env, lib, begun);
      if values.result.Ok? {
        AccountRefusesSizesOnly(ListValue(TextsOf(values.result.value)), at, values.budget);
      }
    case Call(name, children, at) =>
      CallablesNeverGoWrong(children, env, lib, begun);
      var values := EvalAll(children, env, lib, begun);
      if values.result.Ok? {
        TableCoversDispatcher(AsciiFold(name), values.result.value, lib);
        var called := CallFunction(AsciiFold(name), values.result.value, lib);
        if called.Returned? {
          AccountRefusesSizesOnly(called.value, at, values.budget);
        }
      }
  }

  lemma {:induction false} CallablesNeverGoWrong(es: seq<Expression>, env: Environment, lib: Library, b: Budget)
    requires AllCallable(es)
    ensures var r := EvalAll(es, env, lib, b);
            && r.budget.steps <= b.steps + NodeCounts(es)
            && (r.result.Err? ==> !GoesWrong(r.result.error.kind))
            && (r.result.Err? && r.result.error.kind == StepLimit ==> b.steps + NodeCounts(es) > MAX_RUNTIME_STEPS)
    decreases es, 1
  {
    if es != [] {
      CallableNeverGoesWrong(es[0], env, lib, b);
      CallablesNeverGoWrong(es[1..], env, lib, Eval(es[0], env, lib, b).budget);
    }
  }

  /**
   Whatever a source compiles to, its evaluation never reaches an unknown
   function, a wrong arity or an unimplemented function, and with a fresh budget
   it never runs out of steps.
   */
  lemma CompiledNeverGoesWrong(source: Text, origin: Position, env: Environment, lib: Library, b: Budget)
    requires Compile(source, origin).Ok?
    ensures var r := Eval(Compile(source, origin).value, env, lib, b).result;
            && (r.Err? ==> !GoesWrong(r.error.kind))
            && (b == FRESH && r.Err? ==> r.error.kind != StepLimit)
  {
    CompiledIsBounded(source, origin);
    CallableNeverGoesWrong(Compile(source, origin).value, env, lib, b);
  }
}
