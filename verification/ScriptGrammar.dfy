/**
 The expression grammar, stated on trees of tokens, and the proof that the
 parser accepts exactly the token sequences that render such a tree within the
 depth and width limits.
 */
module ScriptGrammar {
  import opened Wrappers
  import opened Texts
  import opened ScriptSyntax
  import opened ScriptLexer
  import opened ScriptParser

  /** A concrete syntax tree: every token of the rendering is in it. */
  datatype Tree =
    | Leaf(token: Token)
    | ListTree(open: Token, args: Args)
    | CallTree(name: Token, open: Token, args: Args)

  datatype Args = NoArgs(close: Token) | Items(first: Tree, more: More)

  datatype More = Done(close: Token) | Next(comma: Token, tree: Tree, more: More)

  predicate WellFormed(t: Tree) {
    match t
    case Leaf(token) =>
      || token.kind == StringToken
      || (token.kind == IntegerToken && |token.value| <= MAX_INT_DIGITS)
      || token.kind == IdentifierToken
    case ListTree(open, args) => open.kind == OpenBracket && WellFormedArgs(args, CloseBracket)
    case CallTree(name, open, args) =>
      && name.kind == IdentifierToken && ReservedValue(name.value) == None
      && open.kind == OpenParen && WellFormedArgs(args, CloseParen)
  }

  predicate WellFormedArgs(args: Args, closing: TokenKind) {
    match args
    case NoArgs(close) => close.kind == closing
    case Items(first, more) => WellFormed(first) && WellFormedMore(more, closing)
  }

  predicate WellFormedMore(more: More, closing: TokenKind) {
    match more
    case Done(close) => close.kind == closing
    case Next(comma, tree, rest) => comma.kind == Comma && WellFormed(tree) && WellFormedMore(rest, closing)
  }

  // ----- The expression a tree stands for -----

  function Ast(t: Tree): Expression {
    match t
    case Leaf(token) =>
      if token.kind == StringToken then Literal(TextValue(token.value), token.at)
      else if token.kind == IntegerToken then Literal(IntValue(DecimalValue(token.value)), token.at)
      else if ReservedValue(token.value).Some? then Literal(ReservedValue(token.value).value, token.at)
      else Variable(token.value, token.at)
    case ListTree(open, args) => ListExpression(AstArgs(args), open.at)
    case CallTree(name, _, args) => Call(name.value, AstArgs(args), name.at)
  }

  function AstArgs(args: Args): seq<Expression> {
    match args
    case NoArgs(_) => []
    case Items(first, more) => [Ast(first)] + AstMore(more)
  }

  function AstMore(more: More): seq<Expression> {
    match more
    case Done(_) => []
    case Next(_, tree, rest) => [Ast(tree)] + AstMore(rest)
  }

  // ----- Where a tree is rendered -----

  function Size(t: Tree): (n: nat)
    ensures n >= 1
  {
    match t
    case Leaf(_) => 1
    case ListTree(_, args) => 1 + SizeArgs(args)
    case CallTree(_, _, args) => 2 + SizeArgs(args)
  }

  function SizeArgs(args: Args): (n: nat)
    ensures n >= 1
  {
    match args
    case NoArgs(_) => 1
    case Items(first, more) => Size(first) + SizeMore(more)
  }

  function SizeMore(more: More): (n: nat)
    ensures n >= 1
  {
    match more
    case Done(_) => 1
    case Next(_, tree, rest) => 1 + Size(tree) + SizeMore(rest)
  }

  predicate TokenAt(tokens: seq<Token>, pos: nat, token: Token) {
    pos < |tokens| && tokens[pos] == token
  }

  /** The tokens from `pos` on are those of the tree, read from left to right. */
  predicate TreeAt(tokens: seq<Token>, pos: nat, t: Tree)
    decreases t
  {
    match t
    case Leaf(token) => TokenAt(tokens, pos, token)
    case ListTree(open, args) => TokenAt(tokens, pos, open) && ArgsAt(tokens, pos + 1, args)
    case CallTree(name, open, args) =>
        TokenAt(tokens, pos, name) && TokenAt(tokens, pos + 1, open) && ArgsAt(tokens, pos + 2, args)
  }

  predicate ArgsAt(tokens: seq<Token>, pos: nat, args: Args)
    decreases args
  {
    match args
    case NoArgs(close) => TokenAt(tokens, pos, close)
    case Items(first, more) => TreeAt(tokens, pos, first) && MoreAt(tokens, pos + Size(first), more)
  }

  predicate MoreAt(tokens: seq<Token>, pos: nat, more: More)
    decreases more
  {
    match more
    case Done(close) => TokenAt(tokens, pos, close)
    case Next(comma, tree, rest) =>
      TokenAt(tokens, pos, comma) && TreeAt(tokens, pos + 1, tree) && MoreAt(tokens, pos + 1 + Size(tree), rest)
  }

  // ----- Limits -----

  /** A subtree found at `depth` keeps to depth 20 and to 100 children a node. */
  predicate Within(e: Expression, depth: nat) {
    && depth <= MAX_EXPRESSION_DEPTH
    && match e
       case ListExpression(children, _) =>
         |children| <= MAX_LIST_VALUES && forall c :: c in children ==> Within(c, depth + 1)
       case Call(_, children, _) =>
         |children| <= MAX_LIST_VALUES && forall c :: c in children ==> Within(c, depth + 1)
       case _ => true
  }

  predicate AllWithin(es: seq<Expression>, depth: nat) {
    forall c :: c in es ==> Within(c, depth)
  }

  // ----- Completeness: renderings are parsed -----

  lemma {:induction false} ParsesTree(tokens: seq<Token>, pos: nat, t: Tree, depth: nat)
    requires Terminated(tokens) && WellFormed(t) && TreeAt(tokens, pos, t)
    requires pos + Size(t) < |tokens| && tokens[pos + Size(t)].kind != OpenParen
    requires Within(Ast(t), depth)
    ensures ParsePrimary(tokens, pos, depth) == Parsed(Ast(t), pos + Size(t))
    decreases Size(t), 0
  {
    match t
    case Leaf(_) =>
    case ListTree(_, args) => ParsesArgs(tokens, pos + 1, args, CloseBracket, depth);
    case CallTree(_, _, args) => ParsesArgs(tokens, pos + 2, args, CloseParen, depth);
  }

  lemma {:induction false} ParsesArgs(tokens: seq<Token>, pos: nat, args: Args, closing: TokenKind, depth: nat)
    requires Terminated(tokens) && WellFormedArgs(args, closing) && ArgsAt(tokens, pos, args)
    requires closing == CloseBracket || closing == CloseParen
    requires pos + SizeArgs(args) < |tokens|
    requires |AstArgs(args)| <= MAX_LIST_VALUES && AllWithin(AstArgs(args), depth + 1)
    ensures ParseArguments(tokens, pos, closing, depth) == Parsed(AstArgs(args), pos + SizeArgs(args))
    decreases SizeArgs(args), 1
  {
    if args.Items? {
      FirstTokenOpens(tokens, pos, args.first);
      ParsesItems(tokens, pos, args.first, args.more, closing, depth, 0);
    }
  }

  lemma {:induction false} ParsesItems(tokens: seq<Token>, pos: nat, first: Tree, more: More, closing: TokenKind,
      depth: nat, count: nat)
    requires Terminated(tokens) && WellFormed(first) && WellFormedMore(more, closing)
    requires TreeAt(tokens, pos, first) && MoreAt(tokens, pos + Size(first), more)
    requires closing == CloseBracket || closing == CloseParen
    requires pos + Size(first) + SizeMore(more) < |tokens|
    requires count + 1 + |AstMore(more)| <= MAX_LIST_VALUES
    requires Within(Ast(first), depth + 1) && AllWithin(AstMore(more), depth + 1)
    ensures ParseItems(tokens, pos, closing, depth, count)
         == Parsed([Ast(first)] + AstMore(more), pos + Size(first) + SizeMore(more))
    decreases Size(first) + SizeMore(more), 0
  {
    hide ParsePrimary, WellFormed, TreeAt, Ast, Size, Within;
    ParsesTree(tokens, pos, first, depth + 1);
    if more.Done? {
      assert [Ast(first)] + [] == [Ast(first)];
    } else {
      ParsesItems(tokens, pos + Size(first) + 1, more.tree, more.more, closing, depth, count + 1);
    }
  }

  /** No tree starts with a closing bracket, a comma or `Eof`. */
  lemma FirstTokenOpens(tokens: seq<Token>, pos: nat, t: Tree)
    requires WellFormed(t) && TreeAt(tokens, pos, t)
    ensures pos < |tokens|
    ensures tokens[pos].kind in {StringToken, IntegerToken, IdentifierToken, OpenBracket}
  {
  }

  // ----- Soundness: what is parsed is a rendering -----

  lemma {:induction false} ParsedTree(tokens: seq<Token>, pos: nat, depth: nat) returns (t: Tree)
    requires Terminated(tokens) && pos < |tokens| && ParsePrimary(tokens, pos, depth).Parsed?
    ensures WellFormed(t) && TreeAt(tokens, pos, t)
    ensures ParsePrimary(tokens, pos, depth) == Parsed(Ast(t), pos + Size(t))
    ensures Within(Ast(t), depth)
    decreases |tokens| - pos, 0
  {
    var token := tokens[pos];
    if token.kind == OpenBracket {
      var args := ParsedArgs(tokens, pos + 1, CloseBracket, depth);
      t := ListTree(token, args);
    } else if token.kind == IdentifierToken && ReservedValue(token.value) == None && tokens[pos + 1].kind == OpenParen {
      var args := ParsedArgs(tokens, pos + 2, CloseParen, depth);
      t := CallTree(token, tokens[pos + 1], args);
    } else {
      t := Leaf(token);
    }
  }

  lemma {:induction false} ParsedArgs(tokens: seq<Token>, pos: nat, closing: TokenKind, depth: nat) returns (args: Args)
    requires Terminated(tokens) && pos < |tokens| && closing != Eof &&
               ParseArguments(tokens, pos, closing, depth).Parsed?
    ensures WellFormedArgs(args, closing) && ArgsAt(tokens, pos, args)
    ensures ParseArguments(tokens, pos, closing, depth) == Parsed(AstArgs(args), pos + SizeArgs(args))
    ensures |AstArgs(args)| <= MAX_LIST_VALUES && AllWithin(AstArgs(args), depth + 1)
    decreases |tokens| - pos, 2
  {
    if tokens[pos].kind == closing {
      args := NoArgs(tokens[pos]);
    } else {
      var first, more := ParsedItems(tokens, pos, closing, depth, 0);
      args := Items(first, more);
    }
  }

  lemma {:induction false} ParsedItems(tokens: seq<Token>, pos: nat, closing: TokenKind, depth: nat, count: nat)
    returns (first: Tree, more: More)
    requires Terminated(tokens) && pos < |tokens| && closing != Eof &&
               ParseItems(tokens, pos, closing, depth, count).Parsed?
    ensures WellFormed(first) && WellFormedMore(more, closing)
    ensures TreeAt(tokens, pos, first) && MoreAt(tokens, pos + Size(first), more)
    ensures ParseItems(tokens, pos, closing, depth, count)
         == Parsed([Ast(first)] + AstMore(more), pos + Size(first) + SizeMore(more))
    ensures count + 1 + |AstMore(more)| <= MAX_LIST_VALUES
    ensures Within(Ast(first), depth + 1) && AllWithin(AstMore(more), depth + 1)
    decreases |tokens| - pos, 1
  {
    hide ParsePrimary, WellFormed, TreeAt, Ast, Size, Within;
    first := ParsedTree(tokens, pos, depth + 1);
    var after := pos + Size(first);
    if tokens[after].kind == closing {
      more := Done(tokens[after]);
      assert [Ast(first)] + [] == [Ast(first)];
    } else {
      var tree, rest := ParsedItems(tokens, after + 1, closing, depth, count + 1);
      more := Next(tokens[after], tree, rest);
    }
  }

  // ----- The theorem -----

  /** The tokens before the final `Eof` are exactly those of the tree. */
  predicate Renders(t: Tree, tokens: seq<Token>) {
    WellFormed(t) && TreeAt(tokens, 0, t) && Size(t) + 1 == |tokens|
  }

  /**
   The parser succeeds exactly on the renderings of trees of height at most 20
   with at most 100 children a node, and returns the expression of the tree.
   */
  lemma ParserExact(tokens: seq<Token>, e: Expression)
    requires Terminated(tokens)
    ensures ParseExpression(tokens) == Ok(e) <==> exists t :: Renders(t, tokens) && Ast(t) == e && Within(e, 1)
  {
    forall t | Renders(t, tokens) && Ast(t) == e && Within(e, 1)
      ensures ParseExpression(tokens) == Ok(e)
    {
      ParsesTree(tokens, 0, t, 1);
    }
    if ParseExpression(tokens) == Ok(e) {
      var t := ParsedTree(tokens, 0, 1);
      assert Renders(t, tokens) && Ast(t) == e && Within(e, 1);
    }
  }

  // ----- The tree is unique -----

  predicate OpensAt(tokens: seq<Token>, pos: nat) {
    pos < |tokens| && tokens[pos].kind == OpenParen
  }

  /** Tokens render at most one tree, unless a call could begin behind one of them. */
  lemma {:induction false} TreeUnique(tokens: seq<Token>, pos: nat, t: Tree, u: Tree)
    requires WellFormed(t) && TreeAt(tokens, pos, t) && !OpensAt(tokens, pos + Size(t))
    requires WellFormed(u) && TreeAt(tokens, pos, u) && !OpensAt(tokens, pos + Size(u))
    ensures t == u
    decreases t
  {
    if t.ListTree? && u.ListTree? {
      ArgsUnique(tokens, pos + 1, t.args, u.args, CloseBracket);
    } else if t.CallTree? && u.CallTree? {
      ArgsUnique(tokens, pos + 2, t.args, u.args, CloseParen);
    }
  }

  lemma {:induction false} ArgsUnique(tokens: seq<Token>, pos: nat, args: Args, others: Args, closing: TokenKind)
    requires closing == CloseBracket || closing == CloseParen
    requires WellFormedArgs(args, closing) && ArgsAt(tokens, pos, args)
    requires WellFormedArgs(others, closing) && ArgsAt(tokens, pos, others)
    ensures args == others
    decreases args
  {
    if args.Items? && others.Items? {
      MoreDelimits(tokens, pos + Size(args.first), args.more, closing);
      MoreDelimits(tokens, pos + Size(others.first), others.more, closing);
      TreeUnique(tokens, pos, args.first, others.first);
      MoreUnique(tokens, pos + Size(args.first), args.more, others.more, closing);
    }
  }

  lemma {:induction false} MoreUnique(tokens: seq<Token>, pos: nat, more: More, others: More, closing: TokenKind)
    requires closing == CloseBracket || closing == CloseParen
    requires WellFormedMore(more, closing) && MoreAt(tokens, pos, more)
    requires WellFormedMore(others, closing) && MoreAt(tokens, pos, others)
    ensures more == others
    decreases more
  {
    if more.Next? && others.Next? {
      MoreDelimits(tokens, pos + 1 + Size(more.tree), more.more, closing);
      MoreDelimits(tokens, pos + 1 + Size(others.tree), others.more, closing);
      TreeUnique(tokens, pos + 1, more.tree, others.tree);
      MoreUnique(tokens, pos + 1 + Size(more.tree), more.more, others.more, closing);
    }
  }

  lemma MoreDelimits(tokens: seq<Token>, pos: nat, more: More, closing: TokenKind)
    requires closing == CloseBracket || closing == CloseParen
    requires WellFormedMore(more, closing) && MoreAt(tokens, pos, more)
    ensures !OpensAt(tokens, pos)
  {
  }

  /** A token sequence renders at most one tree. */
  lemma RenderedTreeUnique(tokens: seq<Token>, t: Tree, u: Tree)
    requires Terminated(tokens) && Renders(t, tokens) && Renders(u, tokens)
    ensures t == u
  {
    TreeUnique(tokens, 0, t, u);
  }

  /** An expression has no more nodes than its rendering has tokens. */
  lemma {:induction false} NodesAtMostTokens(t: Tree)
    ensures NodeCount(Ast(t)) <= Size(t)
  {
    match t
    case Leaf(_) =>
    case ListTree(_, args) => NodesAtMostTokensArgs(args);
    case CallTree(_, _, args) => NodesAtMostTokensArgs(args);
  }

  lemma {:induction false} NodesAtMostTokensArgs(args: Args)
    ensures NodeCounts(AstArgs(args)) < SizeArgs(args)
  {
    if args.Items? {
      NodesAtMostTokens(args.first);
      NodesAtMostTokensMore(args.more);
      assert AstArgs(args)[1..] == AstMore(args.more);
    }
  }

  lemma {:induction false} NodesAtMostTokensMore(more: More)
    ensures NodeCounts(AstMore(more)) < SizeMore(more)
  {
    if more.Next? {
      NodesAtMostTokens(more.tree);
      NodesAtMostTokensMore(more.more);
      assert AstMore(more)[1..] == AstMore(more.more);
    }
  }
}
