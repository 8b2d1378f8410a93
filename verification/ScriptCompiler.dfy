/**
 `compile_expression`: length checks, lexing, parsing, and the check that every
 call names a safe function with an accepted number of arguments.
 */
module ScriptCompiler {
  import opened Wrappers
  import opened Texts
  import opened ScriptSyntax
  import opened ScriptLexer
  import opened ScriptParser
  import opened ScriptGrammar

  datatype Arity = Arity(minimum: nat, maximum: nat)

  /** The safe-function table, by case-folded name. */
  function SafeArity(name: Text): Option<Arity> {
    if name == Chars("default") || name == Chars("fallback") then Some(Arity(1, MAX_LIST_VALUES))
    else if name == Chars("if") || name == Chars("conditional") then Some(Arity(3, 3))
    else if name == Chars("equals") || name == Chars("eq") then Some(Arity(2, 2))
    else if name == Chars("contains") then Some(Arity(2, 2))
    else if name == Chars("replace") then Some(Arity(3, 3))
    else if name == Chars("slice") then Some(Arity(2, 3))
    else if name == Chars("pad") then Some(Arity(2, 3))
    else if name == Chars("lower") || name == Chars("upper") || name == Chars("title") then Some(Arity(1, 1))
    else if name == Chars("first") then Some(Arity(1, 1))
    else if name == Chars("join") then Some(Arity(1, 2))
    else if name == Chars("sortname") || name == Chars("sort_name") then Some(Arity(1, 1))
    else if name == Chars("asciifold") || name == Chars("ascii_fold") then Some(Arity(1, 1))
    else if name == Chars("pathsafe") || name == Chars("path_safe") then Some(Arity(1, 2))
    else if name == Chars("concat") then Some(Arity(1, MAX_LIST_VALUES))
    else if name == Chars("not") then Some(Arity(1, 1))
    else if name == Chars("all") || name == Chars("and") then Some(Arity(1, MAX_LIST_VALUES))
    else if name == Chars("any") || name == Chars("or") then Some(Arity(1, MAX_LIST_VALUES))
    else if name == Chars("is_empty") || name == Chars("empty") then Some(Arity(1, 1))
    else None
  }

  /** The complaint about one node, if any. */
  function NodeError(e: Expression): Option<ScriptError> {
    if !e.Call? then None
    else
      match SafeArity(AsciiFold(e.name))
      case None => Some(ScriptError(UnknownFunction, e.at))
      case Some(arity) =>
        if arity.minimum <= |e.children| <= arity.maximum then None else Some(ScriptError(WrongArity, e.at))
  }

  /** `walk_expressions`: the nodes, each before its children. */
  function Walk(e: Expression): seq<Expression>
    decreases e, 0
  {
    match e
    case ListExpression(children, _) => [e] + WalkAll(children)
    case Call(_, children, _) => [e] + WalkAll(children)
    case _ => [e]
  }

  function WalkAll(es: seq<Expression>): seq<Expression>
    decreases es, 1
  {
    if es == [] then [] else Walk(es[0]) + WalkAll(es[1..])
  }

  /** Every call in the expression is to a safe function with an accepted arity. */
  predicate Callable(e: Expression)
    decreases e, 0
  {
    NodeError(e) == None &&
    match e
    case ListExpression(children, _) => AllCallable(children)
    case Call(_, children, _) => AllCallable(children)
    case _ => true
  }

  predicate AllCallable(es: seq<Expression>)
    decreases es, 1
  {
    es == [] || (Callable(es[0]) && AllCallable(es[1..]))
  }

  /** The first complaint about a row of nodes. */
  function FirstError(nodes: seq<Expression>): Option<ScriptError> {
    if nodes == [] then None
    else if NodeError(nodes[0]).Some? then NodeError(nodes[0])
    else FirstError(nodes[1..])
  }

  lemma {:induction false} FirstErrorOfBoth(first: seq<Expression>, second: seq<Expression>)
    ensures FirstError(first + second) == if FirstError(first).Some? then FirstError(first) else FirstError(second)
  {
    if first == [] {
      assert first + second == second;
    } else {
      assert (first + second)[1..] == first[1..] + second;
      FirstErrorOfBoth(first[1..], second);
    }
  }

  /** The walk complains exactly when some call, at any depth, is not callable. */
  lemma {:induction false} WalkFindsEveryCall(e: Expression)
    ensures FirstError(Walk(e)) == None <==> Callable(e)
    decreases e, 0
  {
    match e
    case ListExpression(children, _) =>
      WalkAllFindsEveryCall(children);
      FirstErrorOfBoth([e], WalkAll(children));
    case Call(_, children, _) =>
      WalkAllFindsEveryCall(children);
      FirstErrorOfBoth([e], WalkAll(children));
    case _ =>
  }

  lemma {:induction false} WalkAllFindsEveryCall(es: seq<Expression>)
    ensures FirstError(WalkAll(es)) == None <==> AllCallable(es)
    decreases es, 1
  {
    if es != [] {
      WalkFindsEveryCall(es[0]);
      WalkAllFindsEveryCall(es[1..]);
      FirstErrorOfBoth(Walk(es[0]), WalkAll(es[1..]));
    }
  }

  /** What a source compiles to, and which error it is refused with. */
  function Compile(source: Text, origin: Position): Result<Expression> {
    if |source| > MAX_SOURCE_CHARACTERS then Err(ScriptError(SourceTooLong, origin))
    else if Strip(source) == [] then Err(ScriptError(SourceEmpty, origin))
    else
      match Tokens(source, origin)
      case Err(error) => Err(error)
      case Ok(tokens) => Checked(ParseExpression(tokens))
  }

  function Checked(parsed: Result<Expression>): Result<Expression> {
    if parsed.Err? then parsed
    else
      match FirstError(Walk(parsed.value))
      case Some(error) => Err(error)
      case None => parsed
  }

  method CheckCalls(e: Expression) returns (r: Result<Expression>)
    ensures r == Checked(Ok(e))
  {
    var nodes := Walk(e);
    for i := 0 to |nodes|
      invariant FirstError(nodes) == FirstError(nodes[i..])
    {
      var error := NodeError(nodes[i]);
      if error.Some? {
        return Err(error.value);
      }
    }
    r := Ok(e);
  }

  method CompileExpression(source: Text, origin: Position) returns (r: Result<Expression>)
    ensures r == Compile(source, origin)
  {
    if |source| > MAX_SOURCE_CHARACTERS {
      return Err(ScriptError(SourceTooLong, origin));
    }
    if Strip(source) == [] {
      return Err(ScriptError(SourceEmpty, origin));
    }
    var tokens := Tokenize(source, origin);
    if tokens.Err? {
      return Err(tokens.error);
    }
    var parser := new ExpressionParser(tokens.value);
    r := parser.Parse();
    if r.Ok? {
      r := CheckCalls(r.value);
    }
  }

  /** A compiled expression keeps the depth and width limits and has at most 2,048 nodes. */
  lemma CompiledIsBounded(source: Text, origin: Position)
    requires Compile(source, origin).Ok?
    ensures var e := Compile(source, origin).value; Callable(e) && Within(e, 1) && NodeCount(e) <= MAX_EXPRESSION_TOKENS
  {
    var e := Compile(source, origin).value;
    WalkFindsEveryCall(e);
    ParsedIsBounded(Tokens(source, origin).value, e);
    FewLexemes(source, 0, 0);
  }

  lemma ParsedIsBounded(tokens: seq<Token>, e: Expression)
    requires Terminated(tokens) && ParseExpression(tokens) == Ok(e)
    ensures Within(e, 1) && NodeCount(e) < |tokens|
  {
    ParserExact(tokens, e);
    var t :| Renders(t, tokens) && Ast(t) == e && Within(e, 1);
    NodesAtMostTokens(t);
  }

  lemma {:induction false} FewLexemes(source: Text, pos: nat, count: nat)
    requires pos <= |source| && count <= MAX_EXPRESSION_TOKENS && LexFrom(source, pos, count).Lexed?
    ensures count + |LexFrom(source, pos, count).lexemes| <= MAX_EXPRESSION_TOKENS
    decreases |source| - pos
  {
    if pos < |source| {
      if IsSpace(source[pos]) {
        FewLexemes(source, pos + 1, count);
      } else {
        FewLexemes(source, LexemeAt(source, pos).lexeme.end, count + 1);
      }
    }
  }
}
