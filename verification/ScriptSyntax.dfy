/**
 The data of the management script language: tokens, expressions, statements,
 template segments, runtime values, limits and the errors a script can raise.
 */
module ScriptSyntax {
  import opened Wrappers
  import opened Texts

  const MAX_EXPRESSION_DEPTH := 20
  const MAX_EXPRESSION_TOKENS := 2_048
  const MAX_PROGRAM_STATEMENTS := 500
  const MAX_RUNTIME_STEPS := 10_000
  const MAX_LIST_VALUES := 100
  const MAX_VALUE_CHARACTERS := 8_192
  const MAX_TOTAL_OUTPUT_CHARACTERS := 65_536
  const MAX_SOURCE_CHARACTERS := 32_768
  /** CPython's own limit on the digits `int()` accepts. */
  const MAX_INT_DIGITS := 4_300

  /** The messages of `ScriptValidationError`, one constructor each. */
  datatype ErrorKind =
    | SpansLines
    | EndsWithEscape
    | InvalidUnicodeEscape
    | UnsupportedEscape
    | UnclosedString
    | UnexpectedCharacter
    | TooManyTokens
    | UnexpectedToken
    | NestedTooDeeply
    | ExpectedValue
    | TooManyValues
    | ExpectedCommaOrClosing
    | IntegerTooLong
    | SourceTooLong
    | SourceEmpty
    | UnknownFunction
    | WrongArity
    | NotImplemented
    | NeedsInteger
    | InvalidPadding
    | InvalidReplacement
    | StepLimit
    | TooManyListValues
    | UnsafeText
    | ValueTooLong
    | OutputLimit
    | UnexpectedClosingBrace
    | UnclosedBrace
    | EmptyTemplateExpression
    | ConditionalTooDeep
    | ConditionalNeedsColon
    | ConditionalNeedsEnd
    | InvalidTarget
    | ExpectedStatement
    | TooManyStatements
    | UnexpectedTerminator
    | EmptyProgram

  datatype ScriptError = ScriptError(kind: ErrorKind, at: Position)

  datatype Result<+T> = Ok(value: T) | Err(error: ScriptError)

  // ----- Tokens -----

  datatype TokenKind =
    | StringToken
    | IntegerToken
    | IdentifierToken
    | OpenParen
    | CloseParen
    | Comma
    | OpenBracket
    | CloseBracket
    | Eof

  datatype Token = Token(kind: TokenKind, value: Text, at: Position)

  // ----- Values and expressions -----

  datatype Value =
    | NullValue
    | BoolValue(truth: bool)
    | IntValue(number: int)
    | TextValue(text: Text)
    | ListValue(items: seq<Text>)

  datatype Expression =
    | Literal(value: Value, at: Position)
    | Variable(name: Text, at: Position)
    | ListExpression(children: seq<Expression>, at: Position)
    | Call(name: Text, children: seq<Expression>, at: Position)

  datatype Operation = SetTag | AppendTag

  datatype Statement =
    | If(condition: Expression, body: seq<Statement>, alternate: seq<Statement>, at: Position)
    | Delete(target: Text, at: Position)
    | Assign(operation: Operation, target: Text, expression: Expression, at: Position)

  datatype TemplateSegment =
    | LiteralSegment(literal: Text, at: Position)
    | LegacySegment(variable: Text, formatSpec: Option<Text>, at: Position)
    | ExpressionSegment(expression: Expression, at: Position)

  /** How many nodes `walk_expressions` yields. */
  function NodeCount(e: Expression): (n: nat)
    ensures n >= 1
    decreases e, 0
  {
    match e
    case Literal(_, _) => 1
    case Variable(_, _) => 1
    case ListExpression(children, _) => 1 + NodeCounts(children)
    case Call(_, children, _) => 1 + NodeCounts(children)
  }

  function NodeCounts(es: seq<Expression>): (n: nat)
    ensures n >= |es|
    decreases es, 1
  {
    if es == [] then 0 else NodeCount(es[0]) + NodeCounts(es[1..])
  }
}
