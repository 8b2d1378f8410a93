/**
 Tagging programs: one statement a line, conditionals closed by `else:` and
 `end` lines, indentation ignored. `ReadLine` classifies a line, `ParseLines`
 says what a block is, and `ParseTaggingBlock` is the recursive loop.
 */
module ScriptBlocks {
  import opened Texts
  import opened ScriptSyntax
  import opened ScriptLexer
  import opened ScriptCompiler

  const ELSE_LINE := Chars("else:")
  const END_LINE := Chars("end")
  const IF_PREFIX := Chars("if ")
  const DELETE_PREFIX := Chars("delete ")
  const SET_PREFIX := Chars("set ")
  const APPEND_PREFIX := Chars("append ")

  datatype Reading =
    | Skip
    | Else
    | End
    | IfLine(condition: Expression, at: Position)
    | Simple(statement: Statement)
    | BadLine(error: ScriptError)

  predicate IsTargetPart(c: CodePoint) {
    IsIdentifierPart(c) || c == SPACE || c == COLON || c == 0x2F || c == 0x2D
  }

  /** `[A-Za-z_][A-Za-z0-9_. :/-]*` matched in full. */
  predicate IsTarget(t: Text) {
    t != [] && IsIdentifierStart(t[0]) && forall i :: 0 <= i < |t| ==> IsTargetPart(t[i])
  }

  // ----- One line -----

  function ReadLine(raw: Text, index: nat): Reading {
    ReadStripped(raw, Strip(raw), LineStart(raw, index))
  }

  /** The position of the first character that is not blank. */
  function LineStart(raw: Text, index: nat): Position {
    Position(index + 1, |raw| - |StripLeft(raw)| + 1)
  }

  function ReadStripped(raw: Text, stripped: Text, at: Position): Reading {
    if stripped == [] || stripped[0] == HASH then Skip
    else if stripped == ELSE_LINE then Else
    else if stripped == END_LINE then End
    else if StartsWith(stripped, IF_PREFIX) then ReadIf(raw, stripped, at)
    else if StartsWith(stripped, DELETE_PREFIX) then ReadDelete(Strip(stripped[|DELETE_PREFIX|..]), at)
    else if StartsWith(stripped, SET_PREFIX) then ReadAssign(raw, SetTag, stripped[|SET_PREFIX|..], at)
    else if StartsWith(stripped, APPEND_PREFIX) then ReadAssign(raw, AppendTag, stripped[|APPEND_PREFIX|..], at)
    else BadLine(ScriptError(ExpectedStatement, at))
  }

  function ReadIf(raw: Text, stripped: Text, at: Position): Reading
    requires |stripped| >= 3
  {
    if stripped[|stripped| - 1] != COLON || |stripped| == 3 then BadLine(ScriptError(ConditionalNeedsColon, at))
    else
      var source := Strip(stripped[3..|stripped| - 1]);
      match Compile(source, Position(at.line, Find(raw, source, 0) + 1))
      case Err(error) => BadLine(error)
      case Ok(condition) => IfLine(condition, at)
  }

  function ReadDelete(target: Text, at: Position): Reading {
    if IsTarget(target) then Simple(Delete(target, at)) else BadLine(ScriptError(InvalidTarget, at))
  }

  function ReadAssign(raw: Text, operation: Operation, remainder: Text, at: Position): Reading {
    var equals := Find(remainder, [EQUALS], 0);
    if equals < 0 then BadLine(ScriptError(ExpectedStatement, at))
    else
      var target, source := Strip(remainder[..equals]), Strip(remainder[equals + 1..]);
      if !IsTarget(target) then BadLine(ScriptError(InvalidTarget, at))
      else
        match Compile(source, Position(at.line, Find(raw, [EQUALS], 0) + 2))
        case Err(error) => BadLine(error)
        case Ok(expression) => Simple(Assign(operation, target, expression, at))
  }

  // ----- Blocks -----

  datatype Terminator = NoTerminator | ElseTerminator | EndTerminator

  datatype Block = Block(statements: seq<Statement>, next: nat, terminator: Terminator) | BlockError(error: ScriptError)

  function Preceded(statements: seq<Statement>, b: Block): (r: Block)
    ensures r.Block? <==> b.Block?
    ensures r.Block? ==> r.next == b.next && r.terminator == b.terminator
  {
    match b
    case Block(others, next, terminator) => Block(statements + others, next, terminator)
    case BlockError(_) => b
  }

  /** A block that starts at a line, at a nesting depth. */
  function ParseBlock(lines: seq<Text>, start: nat, depth: nat): (r: Block)
    requires start <= |lines|
    ensures r.Block? ==> start <= r.next <= |lines|
    decreases |lines| - start, 2
  {
    if depth > MAX_EXPRESSION_DEPTH then BlockError(ScriptError(ConditionalTooDeep, Position(start + 1, 1)))
    else ParseLines(lines, start, depth, 0)
  }

  /** The rest of a block that already has `count` statements. */
  function ParseLines(lines: seq<Text>, pos: nat, depth: nat, count: nat): (r: Block)
    requires pos <= |lines|
    ensures r.Block? ==> pos <= r.next <= |lines|
    decreases |lines| - pos, 1
  {
    if pos == |lines| then Block([], pos, NoTerminator)
    else
      match ReadLine(lines[pos], pos)
      case BadLine(error) => BlockError(error)
      case Skip => ParseLines(lines, pos + 1, depth, count)
      case Else => Block([], pos + 1, ElseTerminator)
      case End => Block([], pos + 1, EndTerminator)
      case Simple(statement) =>
        if statement.Assign? && count + 1 > MAX_PROGRAM_STATEMENTS
            then BlockError(ScriptError(TooManyStatements, statement.at))
        else Preceded([statement], ParseLines(lines, pos + 1, depth, count + 1))
      case IfLine(condition, at) =>
        match ParseConditional(lines, pos + 1, depth + 1, condition, at)
        case BlockError(error) => BlockError(error)
        case Block(one, next, _) => Preceded(one, ParseLines(lines, next, depth, count + 1))
  }

  /** One step of the line parser, told from what the line reads as. */
  lemma LinesUnfold(lines: seq<Text>, pos: nat, depth: nat, count: nat)
    requires pos <= |lines|
    ensures ParseLines(lines, pos, depth, count) ==
            if pos == |lines| then Block([], pos, NoTerminator)
            else
              match ReadLine(lines[pos], pos)
              case BadLine(error) => BlockError(error)
              case Skip => ParseLines(lines, pos + 1, depth, count)
              case Else => Block([], pos + 1, ElseTerminator)
              case End => Block([], pos + 1, EndTerminator)
              case Simple(statement) =>
                if statement.Assign? && count + 1 > MAX_PROGRAM_STATEMENTS
                    then BlockError(ScriptError(TooManyStatements, statement.at))
                else Preceded([statement], ParseLines(lines, pos + 1, depth, count + 1))
              case IfLine(condition, at) =>
                var one := ParseConditional(lines, pos + 1, depth + 1, condition, at);
                if one.BlockError? then one
                else Preceded(one.statements, ParseLines(lines, one.next, depth, count + 1))
  {
    hide ReadLine, ParseConditional;
  }

  /** The branches of a conditional up to its `end`, as a block of one statement. */
  function ParseConditional(lines: seq<Text>, start: nat, depth: nat, condition: Expression, at: Position): (r: Block)
    requires start <= |lines|
    ensures r.Block? ==> start <= r.next <= |lines|
    decreases |lines| - start, 3
  {
    var body := ParseBlock(lines, start, depth);
    if body.BlockError? then body
    else if body.terminator == EndTerminator
        then Block([If(condition, body.statements, [], at)], body.next, EndTerminator)
    else if body.terminator == NoTerminator then BlockError(ScriptError(ConditionalNeedsEnd, at))
    else
      var alternate := ParseBlock(lines, body.next, depth);
      if alternate.BlockError? then alternate
      else if alternate.terminator != EndTerminator then BlockError(ScriptError(ConditionalNeedsEnd, at))
      else Block([If(condition, body.statements, alternate.statements, at)], alternate.next, EndTerminator)
  }

  lemma ConditionalUnfold(lines: seq<Text>, start: nat, depth: nat, condition: Expression, at: Position)
    requires start <= |lines| && ParseConditional(lines, start, depth, condition, at).Block?
    ensures depth <= MAX_EXPRESSION_DEPTH && ParseLines(lines, start, depth, 0).Block?
    ensures var body := ParseLines(lines, start, depth, 0);
            var one := ParseConditional(lines, start, depth, condition, at);
            if body.terminator == EndTerminator then
              one == Block([If(condition, body.statements, [], at)], body.next, EndTerminator)
            else
              var alternate := ParseLines(lines, body.next, depth, 0);
              && body.terminator == ElseTerminator && alternate.Block? && alternate.terminator == EndTerminator
              && one == Block([If(condition, body.statements, alternate.statements, at)], alternate.next, EndTerminator)
  {
    hide ParseLines;
  }

  /** `walk_statements`: every statement, at any depth. */
  function StatementCount(statements: seq<Statement>): nat {
    if statements == [] then 0
    else
      1 + (match statements[0]
           case If(_, body, alternate, _) => StatementCount(body) + StatementCount(alternate)
           case _ => 0)
        + StatementCount(statements[1..])
  }

  method ParseTaggingBlock(lines: seq<Text>, start: nat, depth: nat) returns (r: Block)
    requires start <= |lines|
    ensures r == ParseBlock(lines, start, depth)
    decreases |lines| - start, 0
  {
    hide ReadLine, ParseLines, ParseConditional;
    if depth > MAX_EXPRESSION_DEPTH {
      return BlockError(ScriptError(ConditionalTooDeep, Position(start + 1, 1)));
    }
    var statements: seq<Statement> := [];
    var position := start;
    ghost var all := ParseLines(lines, start, depth, 0);
    assert all.Block? ==> [] + all.statements == all.statements;
    while position < |lines|
      invariant start <= position <= |lines|
      invariant all == Preceded(statements, ParseLines(lines, position, depth, |statements|))
      decreases |lines| - position
    {
      LinesUnfold(lines, position, depth, |statements|);
      var reading := ReadLine(lines[position], position);
      match reading
      case Skip =>
        position := position + 1;
      case Else =>
        assert statements + [] == statements;
        return Block(statements, position + 1, ElseTerminator);
      case End =>
        assert statements + [] == statements;
        return Block(statements, position + 1, EndTerminator);
      case BadLine(error) =>
        return BlockError(error);
      case Simple(statement) =>
        if statement.Assign? && |statements| + 1 > MAX_PROGRAM_STATEMENTS {
          return BlockError(ScriptError(TooManyStatements, statement.at));
        }
        PrecededTwice(statements, [statement], ParseLines(lines, position + 1, depth, |statements| + 1));
        statements := statements + [statement];
        position := position + 1;
      case IfLine(condition, at) =>
        var conditional := ParseBranches(lines, position + 1, depth + 1, condition, at);
        if conditional.BlockError? {
          return conditional;
        }
        PrecededTwice(statements, conditional.statements, ParseLines(lines, conditional.next, depth, |statements| + 1));
        statements := statements + conditional.statements;
        position := conditional.next;
    }
    LinesUnfold(lines, position, depth, |statements|);
    assert statements + [] == statements;
    r := Block(statements, position, NoTerminator);
  }

  /** Body, optional alternate, and the closing `end` of one conditional. */
  method ParseBranches(lines: seq<Text>, start: nat, depth: nat, condition: Expression, at: Position) returns (r: Block)
    requires start <= |lines|
    ensures r == ParseConditional(lines, start, depth, condition, at)
    ensures r.Block? ==> |r.statements| == 1
    decreases |lines| - start, 1
  {
    hide ParseBlock;
    var body := ParseTaggingBlock(lines, start, depth);
    if body.BlockError? {
      return body;
    }
    var alternate: seq<Statement>, position, terminator := [], body.next, body.terminator;
    if terminator == ElseTerminator {
      var other := ParseTaggingBlock(lines, position, depth);
      if other.BlockError? {
        return other;
      }
      alternate, position, terminator := other.statements, other.next, other.terminator;
    }
    if terminator != EndTerminator {
      return BlockError(ScriptError(ConditionalNeedsEnd, at));
    }
    r := Block([If(condition, body.statements, alternate, at)], position, EndTerminator);
  }

  lemma PrecededTwice(first: seq<Statement>, second: seq<Statement>, b: Block)
    ensures Preceded(first, Preceded(second, b)) == Preceded(first + second, b)
  {
    if b.Block? {
      assert first + (second + b.statements) == (first + second) + b.statements;
    }
  }

  // ----- Whole programs -----

  function FirstBoundary(t: Text): (k: nat)
    ensures k <= |t|
    ensures k < |t| ==> IsLineBoundary(t[k])
    ensures forall i :: 0 <= i < k ==> !IsLineBoundary(t[i])
  {
    if t == [] || IsLineBoundary(t[0]) then 0 else 1 + FirstBoundary(t[1..])
  }

  /** `str.splitlines()`. */
  function SplitLines(t: Text): seq<Text>
    decreases |t|
  {
    if t == [] then []
    else
      var k := FirstBoundary(t);
      if k == |t| then [t]
      else if t[k] == RETURN && k + 1 < |t| && t[k + 1] == NEWLINE then [t[..k]] + SplitLines(t[k + 2..])
      else [t[..k]] + SplitLines(t[k + 1..])
  }

  function CompileProgram(source: Text): Result<seq<Statement>> {
    var origin := Position(1, 1);
    if |source| > MAX_SOURCE_CHARACTERS then Err(ScriptError(SourceTooLong, origin))
    else
      match ParseBlock(SplitLines(source), 0, 1)
      case BlockError(error) => Err(error)
      case Block(statements, _, terminator) =>
        if terminator != NoTerminator then Err(ScriptError(UnexpectedTerminator, origin))
        else if statements == [] then Err(ScriptError(EmptyProgram, origin))
        else if StatementCount(statements) > MAX_PROGRAM_STATEMENTS then Err(ScriptError(TooManyStatements, origin))
        else Ok(statements)
  }

  method CompileTaggingProgram(source: Text) returns (r: Result<seq<Statement>>)
    ensures r == CompileProgram(source)
  {
    if |source| > MAX_SOURCE_CHARACTERS {
      return Err(ScriptError(SourceTooLong, Position(1, 1)));
    }
    var block := ParseTaggingBlock(SplitLines(source), 0, 1);
    if block.BlockError? {
      return Err(block.error);
    }
    if block.terminator != NoTerminator {
      return Err(ScriptError(UnexpectedTerminator, Position(1, 1)));
    }
    if block.statements == [] {
      return Err(ScriptError(EmptyProgram, Position(1, 1)));
    }
    if StatementCount(block.statements) > MAX_PROGRAM_STATEMENTS {
      return Err(ScriptError(TooManyStatements, Position(1, 1)));
    }
    r := Ok(block.statements);
  }
}
