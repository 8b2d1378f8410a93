/**
 What the block parser accepts, said line by line: a layout records which lines
 are blank, which hold a statement and which open, divide and close a
 conditional. `BlocksExact` is the equivalence.
 */
module ScriptLayout {
  import opened Texts
  import opened ScriptSyntax
  import opened ScriptBlocks

  datatype Layout =
    | Stop
    | BlankLine(rest: Layout)
    | StatementLine(statement: Statement, rest: Layout)
    | Conditional(condition: Expression, at: Position, body: Layout, hasElse: bool, alternate: Layout, rest: Layout)

  /** How many lines a layout takes. */
  function Height(layout: Layout): nat
    decreases layout, 1
  {
    match layout
    case Stop => 0
    case BlankLine(rest) => 1 + Height(rest)
    case StatementLine(_, rest) => 1 + Height(rest)
    case Conditional(_, _, _, _, _, rest) => ConditionalHeight(layout) + Height(rest)
  }

  /** The lines of a conditional with its branches: `if`, perhaps `else:`, and `end`. */
  function ConditionalHeight(layout: Layout): nat
    requires layout.Conditional?
    decreases layout, 0
  {
    2 + Height(layout.body) + if layout.hasElse then 1 + Height(layout.alternate) else 0
  }

  function Statements(layout: Layout): seq<Statement> {
    match layout
    case Stop => []
    case BlankLine(rest) => Statements(rest)
    case StatementLine(statement, rest) => [statement] + Statements(rest)
    case Conditional(condition, at, body, _, alternate, rest) =>
      [If(condition, Statements(body), Statements(alternate), at)] + Statements(rest)
  }

  predicate LineReads(lines: seq<Text>, pos: nat, reading: Reading) {
    pos < |lines| && ReadLine(lines[pos], pos) == reading
  }

  /** The lines from `pos` on are laid out this way. */
  predicate LaidOut(lines: seq<Text>, pos: nat, layout: Layout)
    decreases layout
  {
    match layout
    case Stop => true
    case BlankLine(rest) => LineReads(lines, pos, Skip) && LaidOut(lines, pos + 1, rest)
    case StatementLine(statement, rest) => LineReads(lines, pos, Simple(statement)) && LaidOut(lines, pos + 1, rest)
    case Conditional(condition, at, body, hasElse, alternate, rest) =>
      var after := pos + 1 + Height(body);
      && LineReads(lines, pos, IfLine(condition, at))
      && LaidOut(lines, pos + 1, body)
      && (if hasElse then
            && LineReads(lines, after, Else) && LaidOut(lines, after + 1, alternate)
            && LineReads(lines, after + 1 + Height(alternate), End)
          else
            alternate == Stop && LineReads(lines, after, End))
      && LaidOut(lines, pos + ConditionalHeight(layout), rest)
  }

  /** The nesting limit, and the limit on statements of one block met at an assignment. */
  predicate Fits(layout: Layout, depth: nat, count: nat)
    decreases layout
  {
    match layout
    case Stop => true
    case BlankLine(rest) => Fits(rest, depth, count)
    case StatementLine(statement, rest) =>
      (statement.Assign? ==> count + 1 <= MAX_PROGRAM_STATEMENTS) && Fits(rest, depth, count + 1)
    case Conditional(_, _, body, _, alternate, rest) =>
      && depth + 1 <= MAX_EXPRESSION_DEPTH
      && Fits(body, depth + 1, 0) && Fits(alternate, depth + 1, 0)
      && Fits(rest, depth, count + 1)
  }

  // ----- One line or one conditional more -----

  lemma StopLaid(lines: seq<Text>, pos: nat, depth: nat, count: nat)
    ensures LaidOut(lines, pos, Stop) && Fits(Stop, depth, count) && Statements(Stop) == [] && Height(Stop) == 0
  {
  }

  lemma BlankLaid(lines: seq<Text>, pos: nat, rest: Layout, depth: nat, count: nat)
    ensures var layout := BlankLine(rest);
            && (LaidOut(lines, pos, layout) <==> LineReads(lines, pos, Skip) && LaidOut(lines, pos + 1, rest))
            && (Fits(layout, depth, count) <==> Fits(rest, depth, count))
            && Height(layout) == 1 + Height(rest) && Statements(layout) == Statements(rest)
  {
    hide ReadLine;
  }

  lemma StatementLaid(lines: seq<Text>, pos: nat, statement: Statement, rest: Layout, depth: nat, count: nat)
    ensures var layout := StatementLine(statement, rest);
            && (LaidOut(lines, pos, layout) <==>
                LineReads(lines, pos, Simple(statement)) && LaidOut(lines, pos + 1, rest))
            && (Fits(layout, depth, count) <==>
                (statement.Assign? ==> count + 1 <= MAX_PROGRAM_STATEMENTS) && Fits(rest, depth, count + 1))
            && Height(layout) == 1 + Height(rest) && Statements(layout) == [statement] + Statements(rest)
  {
    hide ReadLine;
  }

  /** A conditional with another layout behind it. */
  function Followed(one: Layout, rest: Layout): Layout
    requires one.Conditional?
  {
    Conditional(one.condition, one.at, one.body, one.hasElse, one.alternate, rest)
  }

  lemma ConditionalLaid(lines: seq<Text>, pos: nat, one: Layout, rest: Layout, depth: nat, count: nat)
    requires one.Conditional? && one.rest == Stop
    ensures var layout := Followed(one, rest);
            && (LaidOut(lines, pos, layout) <==>
                LaidOut(lines, pos, one) && LaidOut(lines, pos + ConditionalHeight(one), rest))
            && (LaidOut(lines, pos, one) ==> LineReads(lines, pos, IfLine(one.condition, one.at)))
            && (Fits(layout, depth, count) <==> Fits(one, depth, 0) && Fits(rest, depth, count + 1))
            && (Fits(one, depth, 0) <==>
                depth + 1 <= MAX_EXPRESSION_DEPTH && Fits(one.body, depth + 1, 0) && Fits(one.alternate, depth + 1, 0))
            && ConditionalHeight(layout) == ConditionalHeight(one)
            && Height(layout) == ConditionalHeight(one) + Height(rest)
            && Statements(layout)
            == [If(one.condition, Statements(one.body), Statements(one.alternate), one.at)] + Statements(rest)
  {
    hide ReadLine;
  }

  lemma OneLaid(lines: seq<Text>, pos: nat, one: Layout)
    requires one.Conditional? && one.rest == Stop
    ensures var after := pos + 1 + Height(one.body);
            && ConditionalHeight(one) == after - pos + 1 + (if one.hasElse then 1 + Height(one.alternate) else 0)
            && (LaidOut(lines, pos, one) <==>
                && LineReads(lines, pos, IfLine(one.condition, one.at)) && LaidOut(lines, pos + 1, one.body)
                && (if one.hasElse then
                      && LineReads(lines, after, Else) && LaidOut(lines, after + 1, one.alternate)
                      && LineReads(lines, after + 1 + Height(one.alternate), End)
                    else one.alternate == Stop && LineReads(lines, after, End)))
  {
    hide ReadLine;
  }

  // ----- Completeness -----

  /** Laid-out lines are parsed to their statements, whatever follows them. */
  lemma {:induction false} ParsesLayout(lines: seq<Text>, pos: nat, layout: Layout, depth: nat, count: nat)
    requires LaidOut(lines, pos, layout) && pos + Height(layout) <= |lines|
    requires Fits(layout, depth, count)
    ensures ParseLines(lines, pos, depth, count)
         == Preceded(Statements(layout), ParseLines(lines, pos + Height(layout), depth, count + |Statements(layout)|))
    decreases layout, 1
  {
    hide ReadLine, ParseConditional, ParseLines, LaidOut, Fits, Statements, Height, ConditionalHeight;
    LinesUnfold(lines, pos, depth, count);
    var rest := if layout.Stop? then layout else layout.rest;
    var last := ParseLines(lines, pos + Height(layout), depth, count + |Statements(layout)|);
    match layout
    case Stop =>
      StopLaid(lines, pos, depth, count);
      assert last.Block? ==> [] + last.statements == last.statements;
    case BlankLine(_) =>
      BlankLaid(lines, pos, rest, depth, count);
      ParsesLayout(lines, pos + 1, rest, depth, count);
    case StatementLine(statement, _) =>
      StatementLaid(lines, pos, statement, rest, depth, count);
      ParsesLayout(lines, pos + 1, rest, depth, count + 1);
      PrecededTwice([statement], Statements(rest), last);
    case Conditional(condition, at, body, _, alternate, _) =>
      var one := Followed(layout, Stop);
      ConditionalLaid(lines, pos, one, rest, depth, count);
      ParsesConditional(lines, pos, layout, depth);
      ParsesLayout(lines, pos + ConditionalHeight(layout), rest, depth, count + 1);
      PrecededTwice([If(condition, Statements(body), Statements(alternate), at)], Statements(rest), last);
  }

  lemma {:induction false} ParsesConditional(lines: seq<Text>, pos: nat, layout: Layout, depth: nat)
    requires layout.Conditional? && LaidOut(lines, pos, layout)
    requires depth + 1 <= MAX_EXPRESSION_DEPTH && Fits(layout.body, depth + 1, 0) &&
               Fits(layout.alternate, depth + 1, 0)
    requires pos + ConditionalHeight(layout) <= |lines|
    ensures ParseConditional(lines, pos + 1, depth + 1, layout.condition, layout.at)
         == Block([If(layout.condition, Statements(layout.body), Statements(layout.alternate), layout.at)],
                  pos + ConditionalHeight(layout), EndTerminator)
    decreases layout, 0
  {
    hide ReadLine, ParseLines, ParseBlock, Fits;
    ParsesTerminated(lines, pos + 1, layout.body, depth + 1);
    if layout.hasElse {
      ParsesTerminated(lines, pos + 2 + Height(layout.body), layout.alternate, depth + 1);
    }
  }

  /** A laid-out block closed by a terminator line. */
  lemma {:induction false} ParsesTerminated(lines: seq<Text>, pos: nat, layout: Layout, depth: nat)
    requires LaidOut(lines, pos, layout) && Fits(layout, depth, 0) && depth <= MAX_EXPRESSION_DEPTH
    requires LineReads(lines, pos + Height(layout), Else) || LineReads(lines, pos + Height(layout), End)
    ensures ParseBlock(lines, pos, depth)
         == Block(Statements(layout), pos + Height(layout) + 1,
                  if LineReads(lines, pos + Height(layout), Else) then ElseTerminator else EndTerminator)
    decreases layout, 2
  {
    hide ReadLine, ParseLines, ParseConditional;
    ParsesLayout(lines, pos, layout, depth, 0);
    LinesUnfold(lines, pos + Height(layout), depth, |Statements(layout)|);
    assert Statements(layout) + [] == Statements(layout);
  }

  // ----- Soundness -----

  /** How a parsed block ends: at the end of the lines, or just behind a terminator line. */
  predicate EndsAt(lines: seq<Text>, pos: nat, block: Block) {
    block.Block? &&
    match block.terminator
    case NoTerminator => pos == |lines| && block.next == pos
    case ElseTerminator => LineReads(lines, pos, Else) && block.next == pos + 1
    case EndTerminator => LineReads(lines, pos, End) && block.next == pos + 1
  }

  lemma {:induction false} ParsedLayout(lines: seq<Text>, pos: nat, depth: nat, count: nat) returns (layout: Layout)
    requires pos <= |lines| && ParseLines(lines, pos, depth, count).Block?
    ensures LaidOut(lines, pos, layout) && Fits(layout, depth, count)
    ensures ParseLines(lines, pos, depth, count).statements == Statements(layout)
    ensures EndsAt(lines, pos + Height(layout), ParseLines(lines, pos, depth, count))
    decreases |lines| - pos, 1
  {
    hide ReadLine, ParseConditional, ParseLines, LaidOut, Fits, Statements, Height, ConditionalHeight;
    LinesUnfold(lines, pos, depth, count);
    StopLaid(lines, pos, depth, count);
    if pos == |lines| {
      return Stop;
    }
    match ReadLine(lines[pos], pos)
    case Skip =>
      var rest := ParsedLayout(lines, pos + 1, depth, count);
      layout := BlankLine(rest);
      BlankLaid(lines, pos, rest, depth, count);
    case Else => layout := Stop;
    case End => layout := Stop;
    case Simple(statement) =>
      var rest := ParsedLayout(lines, pos + 1, depth, count + 1);
      layout := StatementLine(statement, rest);
      StatementLaid(lines, pos, statement, rest, depth, count);
    case IfLine(condition, at) =>
      var one := ParsedConditional(lines, pos, depth, condition, at);
      var rest := ParsedLayout(lines, pos + ConditionalHeight(one), depth, count + 1);
      layout := Followed(one, rest);
      ConditionalLaid(lines, pos, one, rest, depth, count);
  }

  /** A parsed conditional, as a layout with nothing behind it. */
  lemma {:induction false} ParsedConditional(lines: seq<Text>, pos: nat, depth: nat, condition: Expression,
      at: Position)
    returns (layout: Layout)
    requires LineReads(lines, pos, IfLine(condition, at))
    requires ParseConditional(lines, pos + 1, depth + 1, condition, at).Block?
    ensures layout.Conditional? && layout.condition == condition && layout.at == at && layout.rest == Stop
    ensures LaidOut(lines, pos, layout) && Fits(layout, depth, 0) && pos + ConditionalHeight(layout) <= |lines|
    ensures ParseConditional(lines, pos + 1, depth + 1, condition, at)
         == Block([If(condition, Statements(layout.body), Statements(layout.alternate), at)],
                  pos + ConditionalHeight(layout), EndTerminator)
    decreases |lines| - pos, 0
  {
    hide ReadLine, ParseLines, ParseConditional, Statements, Fits, LaidOut, Height, ConditionalHeight;
    ConditionalUnfold(lines, pos + 1, depth + 1, condition, at);
    StopLaid(lines, pos, depth + 1, 0);
    var body := ParsedLayout(lines, pos + 1, depth + 1, 0);
    if ParseBlock(lines, pos + 1, depth + 1).terminator == EndTerminator {
      layout := Conditional(condition, at, body, false, Stop, Stop);
      OneLaid(lines, pos, layout);
      ConditionalLaid(lines, pos, layout, Stop, depth, 0);
    } else {
      var alternate := ParsedLayout(lines, pos + 2 + Height(body), depth + 1, 0);
      layout := Conditional(condition, at, body, true, alternate, Stop);
      OneLaid(lines, pos, layout);
      ConditionalLaid(lines, pos, layout, Stop, depth, 0);
    }
  }

  // ----- The theorem -----

  /** The layout takes all the lines. */
  predicate LaysOutAll(lines: seq<Text>, layout: Layout) {
    LaidOut(lines, 0, layout) && Height(layout) == |lines| && Fits(layout, 1, 0)
  }

  /**
   A row of lines parses to a program without a terminator left over exactly
   when all the lines can be laid out as that program within the limits.
   */
  lemma BlocksExact(lines: seq<Text>, statements: seq<Statement>)
    ensures ParseBlock(lines, 0, 1) == Block(statements, |lines|, NoTerminator) <==>
            exists layout :: LaysOutAll(lines, layout) && Statements(layout) == statements
  {
    hide ReadLine, ParseLines, LaidOut, Fits, Statements, Height;
    forall layout | LaysOutAll(lines, layout) && Statements(layout) == statements
      ensures ParseBlock(lines, 0, 1) == Block(statements, |lines|, NoTerminator)
    {
      ParsesLayout(lines, 0, layout, 1, 0);
      LinesUnfold(lines, |lines|, 1, |statements|);
      assert statements + [] == statements;
    }
    if ParseBlock(lines, 0, 1) == Block(statements, |lines|, NoTerminator) {
      var layout := ParsedLayout(lines, 0, 1, 0);
      assert LaysOutAll(lines, layout) && Statements(layout) == statements;
    }
  }

  /** A block without a terminator takes all the lines. */
  lemma OpenBlockTakesAll(lines: seq<Text>)
    requires ParseBlock(lines, 0, 1).Block? && ParseBlock(lines, 0, 1).terminator == NoTerminator
    ensures ParseBlock(lines, 0, 1).next == |lines|
  {
    hide ReadLine, ParseLines, LaidOut, Fits, Statements, Height;
    var layout := ParsedLayout(lines, 0, 1, 0);
  }

  /**
   A source compiles to a program exactly when it keeps the source limit and its
   lines can be laid out as that program, which is not empty and has at most 500
   statements at all depths.
   */
  lemma ProgramExact(source: Text, statements: seq<Statement>)
    ensures CompileProgram(source) == Ok(statements) <==>
            && |source| <= MAX_SOURCE_CHARACTERS
            && statements != [] && StatementCount(statements) <= MAX_PROGRAM_STATEMENTS
            && exists layout :: LaysOutAll(SplitLines(source), layout) && Statements(layout) == statements
  {
    hide ParseBlock, SplitLines, StatementCount, LaysOutAll, Statements;
    var lines := SplitLines(source);
    BlocksExact(lines, statements);
    var block := ParseBlock(lines, 0, 1);
    if block.Block? && block.terminator == NoTerminator {
      OpenBlockTakesAll(lines);
    }
  }
}
