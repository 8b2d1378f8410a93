/**
 The recursive-descent expression parser. `ParsePrimary` and `ParseArguments`
 say what is parsed from a token index; the class below is the parser object
 with its moving `position`, proved to compute them without ever reading past
 the final `Eof`.
 */
module ScriptParser {
  import opened Wrappers
  import opened Texts
  import opened ScriptSyntax
  import opened ScriptLexer

  datatype Parsed<+T> = Parsed(value: T, next: nat) | Rejected(kind: ErrorKind, at: Position)

  const TRUE_NAME := Chars("true")
  const FALSE_NAME := Chars("false")
  const NULL_NAME := Chars("null")

  /** The value of a reserved word, whatever its case. */
  function ReservedValue(name: Text): Option<Value> {
    var lowered := AsciiFold(name);
    if lowered == TRUE_NAME then Some(BoolValue(true))
    else if lowered == FALSE_NAME then Some(BoolValue(false))
    else if lowered == NULL_NAME then Some(NullValue)
    else None
  }

  /** The reserved words are true, false and null, in any capitals. */
  lemma ReservedExact(name: Text)
    ensures ReservedValue(name) == Some(BoolValue(true)) <==> Capitalizes(name, "true")
    ensures ReservedValue(name) == Some(BoolValue(false)) <==> Capitalizes(name, "false")
    ensures ReservedValue(name) == Some(NullValue) <==> Capitalizes(name, "null")
    ensures ReservedValue(name).Some? <==>
              Capitalizes(name, "true") || Capitalizes(name, "false") || Capitalizes(name, "null")
  {
    FoldedExactly(name, "true");
    FoldedExactly(name, "false");
    FoldedExactly(name, "null");
    assert Chars("true")[0] == 't' as int && Chars("null")[0] == 'n' as int;
  }

  lemma FoldedExactly(written: Text, name: string)
    requires forall i :: 0 <= i < |name| ==> 'a' <= name[i] <= 'z'
    ensures AsciiFold(written) == Chars(name) <==> Capitalizes(written, name)
  {
    if AsciiFold(written) == Chars(name) {
      forall i | 0 <= i < |name|
        ensures written[i] == name[i] as int || written[i] == name[i] as int - 0x20
      {
        assert AsciiFold(written)[i] == Chars(name)[i];
      }
    }
  }

  /** `int(digits)` on ASCII digits. */
  function DecimalValue(digits: Text): nat {
    if digits == [] then 0
    else 10 * DecimalValue(digits[..|digits| - 1]) + DigitValue(digits[|digits| - 1])
  }

  function DigitValue(c: CodePoint): nat {
    if IsDigit(c) then c - 0x30 else 0
  }

  /** One value, variable, list or call, with its first token at `pos`. */
  function ParsePrimary(tokens: seq<Token>, pos: nat, depth: nat): (r: Parsed<Expression>)
    requires Terminated(tokens) && pos < |tokens|
    ensures r.Parsed? ==> pos < r.next < |tokens|
    decreases |tokens| - pos, 0
  {
    var token := tokens[pos];
    if depth > MAX_EXPRESSION_DEPTH then Rejected(NestedTooDeeply, token.at)
    else if token.kind == StringToken then Parsed(Literal(TextValue(token.value), token.at), pos + 1)
    else if token.kind == IntegerToken then
      if |token.value| > MAX_INT_DIGITS then Rejected(IntegerTooLong, token.at)
      else Parsed(Literal(IntValue(DecimalValue(token.value)), token.at), pos + 1)
    else if token.kind == OpenBracket then
      match ParseArguments(tokens, pos + 1, CloseBracket, depth)
      case Rejected(kind, at) => Rejected(kind, at)
      case Parsed(children, next) => Parsed(ListExpression(children, token.at), next)
    else if token.kind != IdentifierToken then Rejected(ExpectedValue, token.at)
    else if ReservedValue(token.value).Some? then Parsed(Literal(ReservedValue(token.value).value, token.at), pos + 1)
    else if tokens[pos + 1].kind != OpenParen then Parsed(Variable(token.value, token.at), pos + 1)
    else
      match ParseArguments(tokens, pos + 2, CloseParen, depth)
      case Rejected(kind, at) => Rejected(kind, at)
      case Parsed(children, next) => Parsed(Call(token.value, children, token.at), next)
  }

  /** What follows an opening bracket, up to and including the closing one. */
  function ParseArguments(tokens: seq<Token>, pos: nat, closing: TokenKind, depth: nat): (r: Parsed<seq<Expression>>)
    requires Terminated(tokens) && pos < |tokens| && closing != Eof
    ensures r.Parsed? ==> pos < r.next < |tokens|
    decreases |tokens| - pos, 2
  {
    if tokens[pos].kind == closing then Parsed([], pos + 1)
    else ParseItems(tokens, pos, closing, depth, 0)
  }

  /** The remaining arguments when `count` were read and another one must follow. */
  function ParseItems(tokens: seq<Token>, pos: nat, closing: TokenKind, depth: nat, count: nat)
    : (r: Parsed<seq<Expression>>)
    requires Terminated(tokens) && pos < |tokens| && closing != Eof
    ensures r.Parsed? ==> pos < r.next < |tokens|
    decreases |tokens| - pos, 1
  {
    match ParsePrimary(tokens, pos, depth + 1)
    case Rejected(kind, at) => Rejected(kind, at)
    case Parsed(first, after) =>
      if count + 1 > MAX_LIST_VALUES then Rejected(TooManyValues, tokens[after].at)
      else if tokens[after].kind == closing then Parsed([first], after + 1)
      else if tokens[after].kind != Comma then Rejected(ExpectedCommaOrClosing, tokens[after].at)
      else
        match ParseItems(tokens, after + 1, closing, depth, count + 1)
        case Rejected(kind, at) => Rejected(kind, at)
        case Parsed(others, next) => Parsed([first] + others, next)
  }

  /** A whole expression: one primary and then `Eof`. */
  function ParseExpression(tokens: seq<Token>): Result<Expression>
    requires Terminated(tokens)
  {
    match ParsePrimary(tokens, 0, 1)
    case Rejected(kind, at) => Err(ScriptError(kind, at))
    case Parsed(expression, next) =>
      if tokens[next].kind != Eof then Err(ScriptError(UnexpectedToken, tokens[next].at)) else Ok(expression)
  }

  class ExpressionParser {
    const tokens: seq<Token>
    var position: nat

    constructor (tokens: seq<Token>)
      ensures this.tokens == tokens && position == 0
    {
      this.tokens := tokens;
      position := 0;
    }

    method Parse() returns (r: Result<Expression>)
      requires Terminated(tokens) && position == 0
      modifies this
      ensures r == ParseExpression(tokens)
    {
      r := Primary(1);
      if r.Ok? && tokens[position].kind != Eof {
        r := Err(ScriptError(UnexpectedToken, tokens[position].at));
      }
    }

    method Primary(depth: nat) returns (r: Result<Expression>)
      requires Terminated(tokens) && position < |tokens|
      modifies this
      ensures match ParsePrimary(tokens, old(position), depth)
              case Parsed(expression, next) => r == Ok(expression) && position == next
              case Rejected(kind, at) => r == Err(ScriptError(kind, at))
      decreases |tokens| - position, 0
    {
      var token := tokens[position];
      if depth > MAX_EXPRESSION_DEPTH {
        return Err(ScriptError(NestedTooDeeply, token.at));
      }
      position := position + 1;
      if token.kind == StringToken {
        return Ok(Literal(TextValue(token.value), token.at));
      }
      if token.kind == IntegerToken {
        if |token.value| > MAX_INT_DIGITS {
          return Err(ScriptError(IntegerTooLong, token.at));
        }
        return Ok(Literal(IntValue(DecimalValue(token.value)), token.at));
      }
      if token.kind == OpenBracket {
        var values := Arguments(CloseBracket, depth);
        if values.Err? {
          return Err(values.error);
        }
        return Ok(ListExpression(values.value, token.at));
      }
      if token.kind != IdentifierToken {
        return Err(ScriptError(ExpectedValue, token.at));
      }
      var reserved := ReservedValue(token.value);
      if reserved.Some? {
        return Ok(Literal(reserved.value, token.at));
      }
      if tokens[position].kind != OpenParen {
        return Ok(Variable(token.value, token.at));
      }
      position := position + 1;
      var arguments := Arguments(CloseParen, depth);
      if arguments.Err? {
        return Err(arguments.error);
      }
      r := Ok(Call(token.value, arguments.value, token.at));
    }

    method Arguments(closing: TokenKind, depth: nat) returns (r: Result<seq<Expression>>)
      requires Terminated(tokens) && position < |tokens| && closing != Eof
      modifies this
      ensures match ParseArguments(tokens, old(position), closing, depth)
              case Parsed(values, next) => r == Ok(values) && position == next
              case Rejected(kind, at) => r == Err(ScriptError(kind, at))
      decreases |tokens| - position, 1
    {
      hide ParsePrimary, ParseItems;
      var values: seq<Expression> := [];
      if tokens[position].kind == closing {
        position := position + 1;
        return Ok([]);
      }
      ghost var all := ParseItems(tokens, position, closing, depth, 0);
      assert all.Parsed? ==> [] + all.value == all.value;
      while true
        invariant old(position) <= position < |tokens|
        invariant ParseArguments(tokens, old(position), closing, depth)
               == After(values, ParseItems(tokens, position, closing, depth, |values|))
        decreases |tokens| - position
      {
        ItemsUnfold(tokens, position, closing, depth, |values|);
        var value := Primary(depth + 1);
        if value.Err? {
          return Err(value.error);
        }
        values := values + [value.value];
        if |values| > MAX_LIST_VALUES {
          return Err(ScriptError(TooManyValues, tokens[position].at));
        }
        if tokens[position].kind == closing {
          position := position + 1;
          return Ok(values);
        }
        if tokens[position].kind != Comma {
          return Err(ScriptError(ExpectedCommaOrClosing, tokens[position].at));
        }
        position := position + 1;
        AfterTwice(values[..|values| - 1], value.value, ParseItems(tokens, position, closing, depth, |values|));
      }
    }
  }

  /** Values read earlier, in front of the ones still to come. */
  ghost function After(values: seq<Expression>, rest: Parsed<seq<Expression>>): Parsed<seq<Expression>> {
    match rest
    case Parsed(others, next) => Parsed(values + others, next)
    case Rejected(_, _) => rest
  }

  /** One step of the item parser, told from its first item and the items behind it. */
  lemma ItemsUnfold(tokens: seq<Token>, pos: nat, closing: TokenKind, depth: nat, count: nat)
    requires Terminated(tokens) && pos < |tokens| && closing != Eof
    ensures ParseItems(tokens, pos, closing, depth, count) ==
            var first := ParsePrimary(tokens, pos, depth + 1);
            if first.Rejected? then Rejected(first.kind, first.at)
            else if count + 1 > MAX_LIST_VALUES then Rejected(TooManyValues, tokens[first.next].at)
            else if tokens[first.next].kind == closing then Parsed([first.value], first.next + 1)
            else if tokens[first.next].kind != Comma then Rejected(ExpectedCommaOrClosing, tokens[first.next].at)
            else After([first.value], ParseItems(tokens, first.next + 1, closing, depth, count + 1))
  {
    hide ParsePrimary;
  }

  lemma AfterTwice(values: seq<Expression>, value: Expression, rest: Parsed<seq<Expression>>)
    ensures After(values, After([value], rest)) == After(values + [value], rest)
  {
    if rest.Parsed? {
      assert values + ([value] + rest.value) == (values + [value]) + rest.value;
    }
  }
}
