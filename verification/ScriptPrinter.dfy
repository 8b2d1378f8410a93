/**
 Printing an expression, and the theorem that compiling the printed text gives
 the expression back (up to the positions the new text has).
 */
module ScriptPrinter {
  import opened Wrappers
  import opened Texts
  import opened ScriptSyntax
  import opened ScriptLexer
  import opened ScriptSpelling
  import opened ScriptParser
  import opened ScriptGrammar
  import opened ScriptCompiler

  const HOME := Position(1, 1)

  // ----- Forgetting positions -----

  function Erase(e: Expression): Expression
    decreases e, 0
  {
    match e
    case Literal(value, _) => Literal(value, HOME)
    case Variable(name, _) => Variable(name, HOME)
    case ListExpression(children, _) => ListExpression(EraseAll(children), HOME)
    case Call(name, children, _) => Call(name, EraseAll(children), HOME)
  }

  function EraseAll(es: seq<Expression>): (r: seq<Expression>)
    ensures |r| == |es|
    decreases es, 1
  {
    if es == [] then [] else [Erase(es[0])] + EraseAll(es[1..])
  }

  lemma EraseFirst(e: Expression, es: seq<Expression>)
    ensures EraseAll([e] + es) == [Erase(e)] + EraseAll(es)
    ensures EraseAll([e]) == [Erase(e)]
  {
    assert ([e] + es)[1..] == es && [e][1..] == [];
  }

  function EraseToken(token: Token): Token {
    token.(at := HOME)
  }

  function EraseTokens(tokens: seq<Token>): (r: seq<Token>)
    ensures |r| == |tokens|
    ensures forall i :: 0 <= i < |r| ==> r[i] == EraseToken(tokens[i])
  {
    seq(|tokens|, i requires 0 <= i < |tokens| => EraseToken(tokens[i]))
  }

  function EraseParsed(p: Parsed<Expression>): Parsed<Expression> {
    match p
    case Parsed(e, next) => Parsed(Erase(e), next)
    case Rejected(kind, _) => Rejected(kind, HOME)
  }

  function EraseParsedAll(p: Parsed<seq<Expression>>): Parsed<seq<Expression>> {
    match p
    case Parsed(es, next) => Parsed(EraseAll(es), next)
    case Rejected(kind, _) => Rejected(kind, HOME)
  }

  /** Parsing does not look at positions. */
  lemma {:induction false} ParseErased(tokens: seq<Token>, pos: nat, depth: nat)
    requires Terminated(tokens) && pos < |tokens|
    ensures Terminated(EraseTokens(tokens))
    ensures ParsePrimary(EraseTokens(tokens), pos, depth) == EraseParsed(ParsePrimary(tokens, pos, depth))
    decreases |tokens| - pos, 0
  {
    var token := tokens[pos];
    if depth > MAX_EXPRESSION_DEPTH {
    } else if token.kind == OpenBracket {
      ParseArgumentsErased(tokens, pos + 1, CloseBracket, depth);
    } else if token.kind == IdentifierToken && ReservedValue(token.value) == None && tokens[pos + 1].kind == OpenParen {
      ParseArgumentsErased(tokens, pos + 2, CloseParen, depth);
    }
  }

  lemma {:induction false} ParseArgumentsErased(tokens: seq<Token>, pos: nat, closing: TokenKind, depth: nat)
    requires Terminated(tokens) && pos < |tokens| && closing != Eof
    ensures Terminated(EraseTokens(tokens))
    ensures ParseArguments(EraseTokens(tokens), pos, closing, depth) ==
              EraseParsedAll(ParseArguments(tokens, pos, closing, depth))
    decreases |tokens| - pos, 2
  {
    if tokens[pos].kind != closing {
      ParseItemsErased(tokens, pos, closing, depth, 0);
    }
  }

  lemma {:induction false} ParseItemsErased(tokens: seq<Token>, pos: nat, closing: TokenKind, depth: nat, count: nat)
    requires Terminated(tokens) && pos < |tokens| && closing != Eof
    ensures Terminated(EraseTokens(tokens))
    ensures ParseItems(EraseTokens(tokens), pos, closing, depth, count)
         == EraseParsedAll(ParseItems(tokens, pos, closing, depth, count))
    decreases |tokens| - pos, 1
  {
    hide ParsePrimary, ParseItems, Erase, EraseAll;
    ParseErased(tokens, pos, depth + 1);
    ItemsUnfold(tokens, pos, closing, depth, count);
    ItemsUnfold(EraseTokens(tokens), pos, closing, depth, count);
    var first := ParsePrimary(tokens, pos, depth + 1);
    if first.Parsed? {
      var after := first.next;
      EraseFirst(first.value, []);
      if count + 1 <= MAX_LIST_VALUES && tokens[after].kind == Comma && tokens[after].kind != closing {
        ParseItemsErased(tokens, after + 1, closing, depth, count + 1);
        var rest := ParseItems(tokens, after + 1, closing, depth, count + 1);
        if rest.Parsed? {
          EraseFirst(first.value, rest.value);
        }
      }
    }
  }

  // ----- Expressions that can be written down -----

  predicate IsIdentifier(name: Text) {
    ValidSpelling(Word(name))
  }

  predicate Expressible(e: Expression)
    decreases e, 0
  {
    match e
    case Literal(IntValue(n), _) => n >= 0 && |Digits(n)| <= MAX_INT_DIGITS
    case Literal(ListValue(_), _) => false
    case Literal(_, _) => true
    case Variable(name, _) => IsIdentifier(name) && ReservedValue(name) == None
    case ListExpression(children, _) => AllExpressible(children)
    case Call(name, children, _) => IsIdentifier(name) && ReservedValue(name) == None && AllExpressible(children)
  }

  predicate AllExpressible(es: seq<Expression>)
    decreases es, 1
  {
    es == [] || (Expressible(es[0]) && AllExpressible(es[1..]))
  }

  lemma {:induction false} DigitsReadBack(n: nat)
    ensures DecimalValue(Digits(n)) == n
  {
    var t := Digits(n);
    if n >= 10 {
      DigitsReadBack(n / 10);
      assert t[..|t| - 1] == Digits(n / 10);
    } else {
      assert t[..0] == [];
    }
  }

  // ----- The canonical tree and the row that spells it -----

  function LiteralToken(value: Value): Token
    requires value.IntValue? ==> value.number >= 0
  {
    match value
    case NullValue => Token(IdentifierToken, NULL_NAME, HOME)
    case BoolValue(truth) => Token(IdentifierToken, if truth then TRUE_NAME else FALSE_NAME, HOME)
    case IntValue(n) => Token(IntegerToken, Digits(n), HOME)
    case TextValue(text) => Token(StringToken, text, HOME)
    case ListValue(_) => Token(Eof, [], HOME)
  }

  function MarkToken(c: CodePoint): Token
    requires IsPunctuation(c)
  {
    Token(PunctuationKind(c), [c], HOME)
  }

  function Canonical(e: Expression): Tree
    requires Expressible(e)
    decreases e, 0
  {
    match e
    case Literal(value, _) => Leaf(LiteralToken(value))
    case Variable(name, _) => Leaf(Token(IdentifierToken, name, HOME))
    case ListExpression(children, _) => ListTree(MarkToken(0x5B), CanonicalArgs(children, 0x5D))
    case Call(name, children, _) =>
      CallTree(Token(IdentifierToken, name, HOME), MarkToken(0x28), CanonicalArgs(children, 0x29))
  }

  function CanonicalArgs(es: seq<Expression>, close: CodePoint): Args
    requires AllExpressible(es) && IsPunctuation(close)
    decreases es, 2
  {
    if es == [] then NoArgs(MarkToken(close)) else Items(Canonical(es[0]), CanonicalMore(es[1..], close))
  }

  function CanonicalMore(es: seq<Expression>, close: CodePoint): More
    requires AllExpressible(es) && IsPunctuation(close)
    decreases es, 1
  {
    if es == [] then Done(MarkToken(close))
    else Next(MarkToken(0x2C), Canonical(es[0]), CanonicalMore(es[1..], close))
  }

  /** Characters that cannot stand for themselves in a literal on one line. */
  predicate NeedsEscape(c: CodePoint) {
    c == DOUBLE_QUOTE || c == BACKSLASH || IsLineBoundary(c)
  }

  /** A `\u` escape where one is needed; every other character stands for itself. */
  function EscapeGlyph(c: CodePoint): Glyph {
    if NeedsEscape(c)
        then Hex([HexChar(c / 16 / 16 / 16), HexChar(c / 16 / 16 % 16), HexChar(c / 16 % 16), HexChar(c % 16)])
    else Raw(c)
  }

  function HexChar(n: nat): (c: CodePoint)
    requires n < 16
    ensures IsHex(c) && HexDigit(c) == n
  {
    if n < 10 then 0x30 + n else 0x37 + n
  }

  lemma EscapeReadsBack(c: CodePoint)
    ensures ValidGlyph(EscapeGlyph(c), DOUBLE_QUOTE) && GlyphValue(EscapeGlyph(c), DOUBLE_QUOTE) == c
  {
    if NeedsEscape(c) {
      var digits := EscapeGlyph(c).digits;
      assert HexValue(digits) == c / 16 / 16 / 16 * 0x1000 + c / 16 / 16 % 16 * 0x100 + c / 16 % 16 * 0x10 + c % 16;
    }
  }

  function EscapeGlyphs(t: Text): (gs: seq<Glyph>)
    ensures ValidGlyphs(gs, DOUBLE_QUOTE)
  {
    if t == [] then [] else [EscapeGlyph(t[0])] + EscapeGlyphs(t[1..])
  }

  lemma {:induction false} EscapesReadBack(t: Text)
    ensures GlyphsValue(EscapeGlyphs(t), DOUBLE_QUOTE) == t
  {
    if t != [] {
      EscapeReadsBack(t[0]);
      EscapesReadBack(t[1..]);
      assert EscapeGlyphs(t)[1..] == EscapeGlyphs(t[1..]);
    }
  }

  function LiteralSpelling(value: Value): (s: Spelling)
    requires value.IntValue? ==> value.number >= 0
    ensures ValidSpelling(s)
  {
    match value
    case NullValue => Word(NULL_NAME)
    case BoolValue(truth) => Word(if truth then TRUE_NAME else FALSE_NAME)
    case IntValue(n) => Number(Digits(n))
    case TextValue(text) => Quoted(DOUBLE_QUOTE, EscapeGlyphs(text))
    case ListValue(_) => Mark(0x2C)
  }

  /** The spelled tokens of an expression, followed by `rest`. */
  function PrintRow(e: Expression, rest: Row): Row
    requires Expressible(e)
    decreases e, 0
  {
    match e
    case Literal(value, _) => Spelled(LiteralSpelling(value), rest)
    case Variable(name, _) => Spelled(Word(name), rest)
    case ListExpression(children, _) => Spelled(Mark(0x5B), PrintArgs(children, 0x5D, rest))
    case Call(name, children, _) => Spelled(Word(name), Spelled(Mark(0x28), PrintArgs(children, 0x29, rest)))
  }

  function PrintArgs(es: seq<Expression>, close: CodePoint, rest: Row): Row
    requires AllExpressible(es)
    decreases es, 2
  {
    if es == [] then Spelled(Mark(close), rest) else PrintRow(es[0], PrintMore(es[1..], close, rest))
  }

  function PrintMore(es: seq<Expression>, close: CodePoint, rest: Row): Row
    requires AllExpressible(es)
    decreases es, 1
  {
    if es == [] then Spelled(Mark(close), rest)
    else Spelled(Mark(0x2C), PrintRow(es[0], PrintMore(es[1..], close, rest)))
  }

  /** The printed text: no blanks outside strings, and escapes only where they are needed. */
  function PrintExpression(e: Expression): Text
    requires Expressible(e)
  {
    SourceText(PrintRow(e, End))
  }

  // ----- The printed row is valid -----

  predicate Delimited(row: Row) {
    row.End? || (row.Spelled? && row.spelling.Mark? && IsPunctuation(row.spelling.c))
  }

  lemma {:induction false} PrintRowValid(e: Expression, rest: Row)
    requires Expressible(e) && ValidRow(rest) && Delimited(rest)
    ensures ValidRow(PrintRow(e, rest))
    decreases e, 0
  {
    match e
    case ListExpression(children, _) => PrintArgsValid(children, 0x5D, rest);
    case Call(_, children, _) => PrintArgsValid(children, 0x29, rest);
    case _ =>
  }

  lemma {:induction false} PrintArgsValid(es: seq<Expression>, close: CodePoint, rest: Row)
    requires AllExpressible(es) && IsPunctuation(close) && ValidRow(rest)
    ensures ValidRow(PrintArgs(es, close, rest))
    decreases es, 2
  {
    if es != [] {
      PrintMoreValid(es[1..], close, rest);
      PrintRowValid(es[0], PrintMore(es[1..], close, rest));
    }
  }

  lemma {:induction false} PrintMoreValid(es: seq<Expression>, close: CodePoint, rest: Row)
    requires AllExpressible(es) && IsPunctuation(close) && ValidRow(rest)
    ensures ValidRow(PrintMore(es, close, rest)) && Delimited(PrintMore(es, close, rest))
    decreases es, 1
  {
    if es != [] {
      PrintMoreValid(es[1..], close, rest);
      PrintRowValid(es[0], PrintMore(es[1..], close, rest));
    }
  }

  // ----- The tokens of the printed row are those of the canonical tree -----

  /** The tokens of a row, without positions. */
  function RowTokens(row: Row): seq<Token>
    requires ValidRow(row)
  {
    match row
    case End => []
    case Blank(_, rest) => RowTokens(rest)
    case Spelled(s, rest) => [Token(SpellingKind(s), SpellingValue(s), HOME)] + RowTokens(rest)
  }

  lemma {:induction false} LexemesOfRow(row: Row, pos: nat)
    requires ValidRow(row)
    ensures |LexemesOf(row, pos)| == |RowTokens(row)|
    ensures forall i :: 0 <= i < |RowTokens(row)| ==>
              RowTokens(row)[i] == Token(LexemesOf(row, pos)[i].kind, LexemesOf(row, pos)[i].value, HOME)
    decreases row
  {
    match row
    case End =>
    case Blank(_, rest) => LexemesOfRow(rest, pos + 1);
    case Spelled(s, rest) => LexemesOfRow(rest, pos + |SpellingText(s)|);
  }

  /** From `pos` on, `tokens` are those of the row and then `tail`. */
  predicate RowAt(tokens: seq<Token>, pos: nat, row: Row, tail: seq<Token>)
    requires ValidRow(row)
  {
    pos <= |tokens| && tokens[pos..] == RowTokens(row) + tail
  }

  lemma RowAtNext(tokens: seq<Token>, pos: nat, s: Spelling, rest: Row, tail: seq<Token>)
    requires ValidRow(Spelled(s, rest)) && RowAt(tokens, pos, Spelled(s, rest), tail)
    ensures TokenAt(tokens, pos, Token(SpellingKind(s), SpellingValue(s), HOME))
    ensures RowAt(tokens, pos + 1, rest, tail)
  {
    assert tokens[pos] == tokens[pos..][0];
    assert tokens[pos + 1..] == tokens[pos..][1..];
  }

  lemma {:induction false} PrintedTreeAt(tokens: seq<Token>, pos: nat, e: Expression, rest: Row, tail: seq<Token>)
    requires Expressible(e) && ValidRow(rest) && Delimited(rest)
    requires ValidRow(PrintRow(e, rest)) && RowAt(tokens, pos, PrintRow(e, rest), tail)
    ensures TreeAt(tokens, pos, Canonical(e)) && RowAt(tokens, pos + Size(Canonical(e)), rest, tail)
    decreases e, 0
  {
    hide ValidRow, RowAt, PrintArgs, CanonicalArgs, ArgsAt, SizeArgs, ValidSpelling, LiteralSpelling, SpellingKind,
        SpellingValue;
    match e
    case Literal(_, _) => PrintedLeafAt(tokens, pos, e, rest, tail);
    case Variable(_, _) => PrintedLeafAt(tokens, pos, e, rest, tail);
    case ListExpression(children, _) =>
      PrintArgsValid(children, 0x5D, rest);
      MarkReadBack(0x5B);
      RowAtNext(tokens, pos, Mark(0x5B), PrintArgs(children, 0x5D, rest), tail);
      PrintedArgsAt(tokens, pos + 1, children, 0x5D, rest, tail);
    case Call(name, children, _) =>
      PrintArgsValid(children, 0x29, rest);
      MarkReadBack(0x28);
      WordReadBack(name);
      var args := PrintArgs(children, 0x29, rest);
      RowAtNext(tokens, pos, Word(name), Spelled(Mark(0x28), args), tail);
      RowAtNext(tokens, pos + 1, Mark(0x28), args, tail);
      PrintedArgsAt(tokens, pos + 2, children, 0x29, rest, tail);
  }

  lemma MarkReadBack(c: CodePoint)
    requires IsPunctuation(c)
    ensures ValidSpelling(Mark(c)) && Token(SpellingKind(Mark(c)), SpellingValue(Mark(c)), HOME) == MarkToken(c)
  {
  }

  lemma WordReadBack(name: Text)
    requires IsIdentifier(name)
    ensures ValidSpelling(Word(name))
    ensures Token(SpellingKind(Word(name)), SpellingValue(Word(name)), HOME) == Token(IdentifierToken, name, HOME)
  {
  }

  lemma PrintedLeafAt(tokens: seq<Token>, pos: nat, e: Expression, rest: Row, tail: seq<Token>)
    requires Expressible(e) && (e.Literal? || e.Variable?)
    requires ValidRow(PrintRow(e, rest)) && RowAt(tokens, pos, PrintRow(e, rest), tail)
    ensures ValidRow(rest) && TreeAt(tokens, pos, Canonical(e)) && RowAt(tokens, pos + 1, rest, tail)
  {
    hide RowAt;
    match e
    case Literal(value, _) =>
      RowAtNext(tokens, pos, LiteralSpelling(value), rest, tail);
      if value.TextValue? {
        EscapesReadBack(value.text);
      }
    case Variable(name, _) =>
      RowAtNext(tokens, pos, Word(name), rest, tail);
  }

  lemma {:induction false} PrintedArgsAt(tokens: seq<Token>, pos: nat, es: seq<Expression>, close: CodePoint,
      rest: Row, tail: seq<Token>)
    requires AllExpressible(es) && IsPunctuation(close) && ValidRow(rest)
    requires ValidRow(PrintArgs(es, close, rest)) && RowAt(tokens, pos, PrintArgs(es, close, rest), tail)
    ensures var args := CanonicalArgs(es, close);
            ArgsAt(tokens, pos, args) && RowAt(tokens, pos + SizeArgs(args), rest, tail)
    decreases es, 2
  {
    hide ValidRow, RowAt, PrintRow, ValidSpelling;
    if es == [] {
      RowAtNext(tokens, pos, Mark(close), rest, tail);
    } else {
      PrintMoreValid(es[1..], close, rest);
      PrintedTreeAt(tokens, pos, es[0], PrintMore(es[1..], close, rest), tail);
      PrintedMoreAt(tokens, pos + Size(Canonical(es[0])), es[1..], close, rest, tail);
    }
  }

  lemma {:induction false} PrintedMoreAt(tokens: seq<Token>, pos: nat, es: seq<Expression>, close: CodePoint,
      rest: Row, tail: seq<Token>)
    requires AllExpressible(es) && IsPunctuation(close) && ValidRow(rest)
    requires ValidRow(PrintMore(es, close, rest)) && RowAt(tokens, pos, PrintMore(es, close, rest), tail)
    ensures var more := CanonicalMore(es, close);
            MoreAt(tokens, pos, more) && RowAt(tokens, pos + SizeMore(more), rest, tail)
    decreases es, 1
  {
    hide ValidRow, RowAt, PrintRow, ValidSpelling;
    if es == [] {
      RowAtNext(tokens, pos, Mark(close), rest, tail);
    } else {
      var more := PrintMore(es[1..], close, rest);
      PrintMoreValid(es[1..], close, rest);
      PrintRowValid(es[0], more);
      RowAtNext(tokens, pos, Mark(0x2C), PrintRow(es[0], more), tail);
      PrintedTreeAt(tokens, pos + 1, es[0], more, tail);
      PrintedMoreAt(tokens, pos + 1 + Size(Canonical(es[0])), es[1..], close, rest, tail);
    }
  }

  // ----- The canonical tree stands for the expression -----

  lemma ReservedReadBack()
    ensures ReservedValue(NULL_NAME) == Some(NullValue)
    ensures ReservedValue(TRUE_NAME) == Some(BoolValue(true))
    ensures ReservedValue(FALSE_NAME) == Some(BoolValue(false))
  {
    assert AsciiFold(NULL_NAME) == NULL_NAME && AsciiFold(TRUE_NAME) == TRUE_NAME &&
        AsciiFold(FALSE_NAME) == FALSE_NAME;
    assert NULL_NAME[0] != TRUE_NAME[0] && |FALSE_NAME| == 5;
  }

  lemma {:induction false} CanonicalStandsFor(e: Expression)
    requires Expressible(e)
    ensures WellFormed(Canonical(e)) && Ast(Canonical(e)) == Erase(e)
    decreases e, 0
  {
    match e
    case Literal(value, _) =>
      ReservedReadBack();
      if value.IntValue? {
        DigitsReadBack(value.number);
      }
    case Variable(_, _) =>
    case ListExpression(children, _) => CanonicalArgsStandFor(children, 0x5D);
    case Call(_, children, _) => CanonicalArgsStandFor(children, 0x29);
  }

  lemma {:induction false} CanonicalArgsStandFor(es: seq<Expression>, close: CodePoint)
    requires AllExpressible(es) && IsPunctuation(close)
    ensures WellFormedArgs(CanonicalArgs(es, close), PunctuationKind(close))
    ensures AstArgs(CanonicalArgs(es, close)) == EraseAll(es)
    decreases es, 2
  {
    if es != [] {
      CanonicalStandsFor(es[0]);
      CanonicalMoreStandFor(es[1..], close);
    }
  }

  lemma {:induction false} CanonicalMoreStandFor(es: seq<Expression>, close: CodePoint)
    requires AllExpressible(es) && IsPunctuation(close)
    ensures WellFormedMore(CanonicalMore(es, close), PunctuationKind(close))
    ensures AstMore(CanonicalMore(es, close)) == EraseAll(es)
    decreases es, 1
  {
    if es != [] {
      CanonicalStandsFor(es[0]);
      CanonicalMoreStandFor(es[1..], close);
    }
  }

  // ----- Limits do not depend on positions -----

  lemma {:induction false} CallableErased(e: Expression)
    ensures Callable(Erase(e)) <==> Callable(e)
    decreases e, 0
  {
    match e
    case ListExpression(children, _) => AllCallableErased(children);
    case Call(_, children, _) => AllCallableErased(children);
    case _ =>
  }

  lemma {:induction false} AllCallableErased(es: seq<Expression>)
    ensures AllCallable(EraseAll(es)) <==> AllCallable(es)
    decreases es, 1
  {
    if es != [] {
      CallableErased(es[0]);
      AllCallableErased(es[1..]);
      assert EraseAll(es)[1..] == EraseAll(es[1..]);
    }
  }

  lemma {:induction false} WithinErased(e: Expression, depth: nat)
    ensures Within(Erase(e), depth) <==> Within(e, depth)
    decreases e, 0
  {
    match e
    case ListExpression(children, _) => AllWithinErased(children, depth + 1);
    case Call(_, children, _) => AllWithinErased(children, depth + 1);
    case _ =>
  }

  lemma {:induction false} AllWithinErased(es: seq<Expression>, depth: nat)
    ensures AllWithin(EraseAll(es), depth) <==> AllWithin(es, depth)
    decreases es, 1
  {
    if es != [] {
      WithinErased(es[0], depth);
      AllWithinErased(es[1..], depth);
    }
  }

  // ----- The round trip -----

  /** What the compiler demands of an expression, and of its printed text. */
  predicate Printable(e: Expression) {
    && Expressible(e) && Callable(e) && Within(e, 1)
    && Size(Canonical(e)) <= MAX_EXPRESSION_TOKENS
    && |PrintExpression(e)| <= MAX_SOURCE_CHARACTERS
  }

  /** The tokens of the printed row and `Eof` render the canonical tree. */
  lemma PrintedRowRenders(e: Expression)
    requires Expressible(e)
    ensures ValidRow(PrintRow(e, End))
    ensures Ast(Canonical(e)) == Erase(e)
    ensures Renders(Canonical(e), RowTokens(PrintRow(e, End)) + [Token(Eof, [], HOME)])
  {
    var eof := [Token(Eof, [], HOME)];
    PrintRowValid(e, End);
    PrintedTreeAt(RowTokens(PrintRow(e, End)) + eof, 0, e, End, eof);
    CanonicalStandsFor(e);
  }

  /** Lexing a valid row gives its tokens and `Eof`. */
  lemma RowIsLexed(row: Row, origin: Position)
    requires ValidRow(row) && |RowTokens(row)| <= MAX_EXPRESSION_TOKENS
    ensures Tokens(SourceText(row), origin).Ok?
    ensures EraseTokens(Tokens(SourceText(row), origin).value) == RowTokens(row) + [Token(Eof, [], HOME)]
  {
    LexemesOfRow(row, 0);
    assert Spells(row, SourceText(row));
    LexerExact(SourceText(row), origin);
  }

  // ----- What compiles -----

  /** The source spells the tokens of a tree of this expression, in at most 2,048 tokens. */
  predicate Writes(source: Text, row: Row, t: Tree, e: Expression) {
    && ValidRow(row) && SourceText(row) == source && |RowTokens(row)| <= MAX_EXPRESSION_TOKENS
    && Renders(t, RowTokens(row) + [Token(Eof, [], HOME)]) && Ast(t) == Erase(e)
  }

  /** What a source compiles to, up to positions. */
  predicate CompilesTo(source: Text, origin: Position, e: Expression) {
    Compile(source, origin).Ok? && Erase(Compile(source, origin).value) == Erase(e)
  }

  /**
   A source compiles to an expression exactly when it spells, in any valid way,
   a tree of that expression, and source and expression keep the limits.
   */
  lemma CompileExact(source: Text, origin: Position, e: Expression)
    ensures CompilesTo(source, origin, e) <==>
            && |source| <= MAX_SOURCE_CHARACTERS && Callable(e) && Within(e, 1)
            && exists row, t :: Writes(source, row, t, e)
  {
    if CompilesTo(source, origin, e) {
      var row, t := CompiledIsWritten(source, origin, e);
    }
    forall row, t | Writes(source, row, t, e) && |source| <= MAX_SOURCE_CHARACTERS && Callable(e) && Within(e, 1)
      ensures CompilesTo(source, origin, e)
    {
      WrittenCompiles(source, origin, row, t, e);
    }
  }

  lemma WrittenCompiles(source: Text, origin: Position, row: Row, t: Tree, e: Expression)
    requires Writes(source, row, t, e) && |source| <= MAX_SOURCE_CHARACTERS && Callable(e) && Within(e, 1)
    ensures CompilesTo(source, origin, e)
  {
    hide Tokens, ParsePrimary, Within, Erase, EraseTokens, Renders, RowTokens;
    RowIsLexed(row, origin);
    var tokens := Tokens(source, origin).value;
    WithinErased(e, 1);
    ParserExact(EraseTokens(tokens), Erase(e));
    ParseErased(tokens, 0, 1);
    var parsed := ParseExpression(tokens);
    assert parsed.Ok? && Erase(parsed.value) == Erase(e);
    CallableErased(e);
    CallableErased(parsed.value);
    WalkFindsEveryCall(parsed.value);
    RenderedNotEmpty(t, RowTokens(row));
    RowIsNotBlank(row);
  }

  lemma CompiledIsWritten(source: Text, origin: Position, e: Expression) returns (row: Row, t: Tree)
    requires CompilesTo(source, origin, e)
    ensures |source| <= MAX_SOURCE_CHARACTERS && Callable(e) && Within(e, 1) && Writes(source, row, t, e)
  {
    hide Tokens, ParsePrimary, Within, Erase, EraseTokens, Renders, RowTokens, LexFrom, Strip, LexemesOf;
    var tokens, parsed := Tokens(source, origin).value, Compile(source, origin).value;
    row := LexedIsSpelled(source, origin);
    RowIsLexed(row, origin);
    ParseErased(tokens, 0, 1);
    ParserExact(EraseTokens(tokens), Erase(parsed));
    t :| Renders(t, EraseTokens(tokens)) && Ast(t) == Erase(parsed) && Within(Erase(parsed), 1);
    WalkFindsEveryCall(parsed);
    CallableErased(parsed);
    CallableErased(e);
    WithinErased(e, 1);
  }

  lemma LexedIsSpelled(source: Text, origin: Position) returns (row: Row)
    requires Tokens(source, origin).Ok?
    ensures ValidRow(row) && SourceText(row) == source && |RowTokens(row)| <= MAX_EXPRESSION_TOKENS
  {
    LexerExact(source, origin);
    row :| Spells(row, source);
    LexemesOfRow(row, 0);
  }

  lemma RenderedNotEmpty(t: Tree, tokens: seq<Token>)
    requires Renders(t, tokens + [Token(Eof, [], HOME)])
    ensures tokens != []
  {
  }

  /** A source with a token in it is not blank. */
  lemma {:induction false} RowIsNotBlank(row: Row)
    requires ValidRow(row) && RowTokens(row) != []
    ensures Strip(SourceText(row)) != []
    decreases row
  {
    hide Strip, ValidSpelling, SpellingText, IsSpace;
    match row
    case Blank(c, rest) =>
      RowIsNotBlank(rest);
      StripAhead(c, SourceText(rest));
    case Spelled(s, rest) =>
      SpellingStarts(s);
      StripKeeps(SourceText(row));
  }

  lemma SpellingStarts(s: Spelling)
    requires ValidSpelling(s)
    ensures SpellingText(s) != [] && !IsSpace(SpellingText(s)[0])
  {
  }

  /** Compiling a printed expression gives the expression back. */
  lemma CompileInvertsPrint(e: Expression, origin: Position)
    requires Printable(e)
    ensures CompilesTo(PrintExpression(e), origin, e)
  {
    hide Within, Callable, Erase, Compile;
    PrintedRowRenders(e);
    CanonicalSize(e);
    WrittenCompiles(PrintExpression(e), origin, PrintRow(e, End), Canonical(e), e);
  }

  lemma CanonicalSize(e: Expression)
    requires Expressible(e) && ValidRow(PrintRow(e, End))
    requires Renders(Canonical(e), RowTokens(PrintRow(e, End)) + [Token(Eof, [], HOME)])
    ensures |RowTokens(PrintRow(e, End))| == Size(Canonical(e))
  {
  }

  /** A printed expression neither starts nor ends with a blank. */
  lemma PrintedIsNotBlank(e: Expression)
    requires Expressible(e)
    ensures var t := PrintExpression(e); t != [] && !IsSpace(t[0]) && Strip(t) != []
  {
    hide Strip, ValidSpelling, SpellingText, IsSpace;
    PrintRowValid(e, End);
    SpellingStarts(PrintRow(e, End).spelling);
    StripKeeps(PrintExpression(e));
  }
}
