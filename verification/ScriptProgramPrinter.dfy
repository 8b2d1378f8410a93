/**
 Printing a tagging program, and the theorem that compiling the printed source
 gives the program back (up to the positions the new source has).
 */
module ScriptProgramPrinter {
  import opened Texts
  import opened ScriptSyntax
  import opened ScriptLexer
  import opened ScriptSpelling
  import opened ScriptCompiler
  import opened ScriptPrinter
  import Blocks = ScriptBlocks
  import opened ScriptLayout

  // ----- Forgetting positions -----

  function EraseStatement(s: Statement): Statement
    decreases s, 0
  {
    match s
    case If(condition, body, alternate, _) =>
        If(Erase(condition), EraseStatements(body), EraseStatements(alternate), HOME)
    case Delete(target, _) => Delete(target, HOME)
    case Assign(operation, target, expression, _) => Assign(operation, target, Erase(expression), HOME)
  }

  function EraseStatements(ss: seq<Statement>): (r: seq<Statement>)
    ensures |r| == |ss|
    decreases ss, 1
  {
    if ss == [] then [] else [EraseStatement(ss[0])] + EraseStatements(ss[1..])
  }

  // ----- Programs that can be written down -----

  /** A text for every expression. */
  type Writer = Expression -> Text

  /** The text compiles to the expression, wherever it stands, and can stand inside a line. */
  ghost predicate Written(w: Writer, e: Expression) {
    Tidy(w(e)) && forall origin :: CompilesTo(w(e), origin, e)
  }

  /** A target as the parser returns it: matched in full, and no blank at its end. */
  predicate CleanTarget(t: Text) {
    Blocks.IsTarget(t) && !IsSpace(t[|t| - 1])
  }

  /** Expressions compile, targets are valid, and conditionals nest within the limit. */
  ghost predicate WritableStatement(w: Writer, s: Statement, depth: nat)
    decreases s, 0
  {
    match s
    case If(condition, body, alternate, _) =>
      && Written(w, condition) && depth + 1 <= MAX_EXPRESSION_DEPTH
      && Writable(w, body, depth + 1) && Writable(w, alternate, depth + 1)
    case Delete(target, _) => CleanTarget(target)
    case Assign(_, target, expression, _) => CleanTarget(target) && Written(w, expression)
  }

  ghost predicate Writable(w: Writer, ss: seq<Statement>, depth: nat)
    decreases ss, 1
  {
    ss == [] || (WritableStatement(w, ss[0], depth) && Writable(w, ss[1..], depth))
  }

  // ----- Printing -----

  const EQUALS_SIGN := Chars(" = ")

  function PrintIf(w: Writer, condition: Expression): Text
  {
    Blocks.IF_PREFIX + w(condition) + [COLON]
  }

  function PrintDelete(target: Text): Text {
    Blocks.DELETE_PREFIX + target
  }

  function Prefix(operation: Operation): Text {
    if operation.SetTag? then Blocks.SET_PREFIX else Blocks.APPEND_PREFIX
  }

  function PrintAssign(w: Writer, operation: Operation, target: Text, expression: Expression): Text
  {
    Prefix(operation) + (target + EQUALS_SIGN + w(expression))
  }

  /** The lines of a block; `else:` is written only in front of a non-empty alternate. */
  function PrintStatements(w: Writer, ss: seq<Statement>, depth: nat): seq<Text>
    requires Writable(w, ss, depth)
    decreases ss, 1
  {
    if ss == [] then [] else PrintStatement(w, ss[0], depth) + PrintStatements(w, ss[1..], depth)
  }

  function PrintStatement(w: Writer, s: Statement, depth: nat): seq<Text>
    requires WritableStatement(w, s, depth)
    decreases s, 0
  {
    match s
    case If(condition, body, alternate, _) =>
      [PrintIf(w, condition)] + PrintStatements(w, body, depth + 1)
      + (if alternate == [] then [] else [Blocks.ELSE_LINE] + PrintStatements(w, alternate, depth + 1))
      + [Blocks.END_LINE]
    case Delete(target, _) => [PrintDelete(target)]
    case Assign(operation, target, expression, _) => [PrintAssign(w, operation, target, expression)]
  }

  // ----- Printed expressions have no blanks at their ends and no line breaks -----

  predicate OnOneLine(t: Text) {
    forall i :: 0 <= i < |t| ==> !IsLineBoundary(t[i])
  }

  predicate Tidy(t: Text) {
    t != [] && !IsSpace(t[0]) && !IsSpace(t[|t| - 1]) && OnOneLine(t)
  }

  predicate TidyRow(row: Row) {
    match row
    case End => true
    case Blank(_, _) => false
    case Spelled(s, rest) => Tidy(SpellingText(s)) && TidyRow(rest)
  }

  lemma TidyTogether(a: Text, b: Text)
    requires Tidy(a) && (b == [] || Tidy(b))
    ensures Tidy(a + b)
  {
  }

  lemma {:induction false} TidyRowIsTidy(row: Row)
    requires TidyRow(row)
    ensures SourceText(row) == [] || Tidy(SourceText(row))
    decreases row
  {
    if row.Spelled? {
      TidyRowIsTidy(row.rest);
      TidyTogether(SpellingText(row.spelling), SourceText(row.rest));
    }
  }

  lemma OneLineTogether(a: Text, b: Text)
    requires OnOneLine(a) && OnOneLine(b)
    ensures OnOneLine(a + b)
  {
  }

  lemma {:induction false} EscapedOnOneLine(t: Text)
    ensures OnOneLine(GlyphsText(EscapeGlyphs(t)))
  {
    if t != [] {
      EscapedOnOneLine(t[1..]);
      assert EscapeGlyphs(t)[1..] == EscapeGlyphs(t[1..]);
      EscapeOnOneLine(t[0]);
      OneLineTogether(GlyphText(EscapeGlyph(t[0])), GlyphsText(EscapeGlyphs(t[1..])));
    }
  }

  lemma EscapeOnOneLine(c: CodePoint)
    ensures OnOneLine(GlyphText(EscapeGlyph(c)))
  {
    if NeedsEscape(c) {
      var digits := EscapeGlyph(c).digits;
      assert forall i :: 0 <= i < 4 ==> IsHex(digits[i]);
      OneLineTogether([BACKSLASH, 0x75], digits);
    }
  }

  lemma SpellingIsTidy(value: Value)
    requires value.IntValue? ==> value.number >= 0
    ensures Tidy(SpellingText(LiteralSpelling(value)))
  {
    if value.TextValue? {
      var body := GlyphsText(EscapeGlyphs(value.text));
      EscapedOnOneLine(value.text);
      OneLineTogether([DOUBLE_QUOTE], body);
      OneLineTogether([DOUBLE_QUOTE] + body, [DOUBLE_QUOTE]);
    }
  }

  lemma {:induction false} PrintRowTidy(e: Expression, rest: Row)
    requires Expressible(e) && TidyRow(rest)
    ensures TidyRow(PrintRow(e, rest))
    decreases e, 0
  {
    match e
    case Literal(value, _) => SpellingIsTidy(value);
    case Variable(_, _) =>
    case ListExpression(children, _) => PrintArgsTidy(children, 0x5D, rest);
    case Call(_, children, _) => PrintArgsTidy(children, 0x29, rest);
  }

  lemma {:induction false} PrintArgsTidy(es: seq<Expression>, close: CodePoint, rest: Row)
    requires AllExpressible(es) && IsPunctuation(close) && TidyRow(rest)
    ensures TidyRow(PrintArgs(es, close, rest))
    decreases es, 2
  {
    if es != [] {
      PrintMoreTidy(es[1..], close, rest);
      PrintRowTidy(es[0], PrintMore(es[1..], close, rest));
    }
  }

  lemma {:induction false} PrintMoreTidy(es: seq<Expression>, close: CodePoint, rest: Row)
    requires AllExpressible(es) && IsPunctuation(close) && TidyRow(rest)
    ensures TidyRow(PrintMore(es, close, rest))
    decreases es, 1
  {
    if es != [] {
      PrintMoreTidy(es[1..], close, rest);
      PrintRowTidy(es[0], PrintMore(es[1..], close, rest));
    }
  }

  lemma PrintedIsTidy(e: Expression)
    requires Expressible(e)
    ensures Tidy(PrintExpression(e))
  {
    PrintRowTidy(e, Row.End);
    TidyRowIsTidy(PrintRow(e, Row.End));
    PrintedIsNotBlank(e);
  }

  /** The writer that prints every expression. */
  const PRINTED: Writer := e => if Expressible(e) then PrintExpression(e) else []

  /** It writes every expression whose printed text keeps the limits. */
  lemma PrintedIsWritten(e: Expression)
    requires Printable(e)
    ensures Written(PRINTED, e)
  {
    hide CompilesTo, PrintExpression, Tidy;
    PrintedIsTidy(e);
    forall origin
      ensures CompilesTo(PRINTED(e), origin, e)
    {
      CompileInvertsPrint(e, origin);
    }
  }

  // ----- Printed lines are read back -----

  /** A prefix that starts with a letter, a tidy text, and a last character that is no blank. */
  lemma TidyInside(prefix: Text, t: Text, suffix: Text)
    requires prefix != [] && !IsSpace(prefix[0]) && OnOneLine(prefix)
    requires Tidy(t) && (suffix == [] || Tidy(suffix))
    ensures Tidy(prefix + t + suffix)
  {
    var all := prefix + t + suffix;
    assert suffix == [] ==> all[|all| - 1] == t[|t| - 1];
    assert suffix != [] ==> all[|all| - 1] == suffix[|suffix| - 1];
  }

  lemma DiffersAtStart(t: Text, prefix: Text)
    requires t != [] && prefix != [] && t[0] != prefix[0]
    ensures !StartsWith(t, prefix) && t != prefix
  {
    if |prefix| <= |t| {
      assert t[..|prefix|][0] == t[0];
    }
  }

  lemma StartsWithPrefix(prefix: Text, rest: Text)
    ensures StartsWith(prefix + rest, prefix) && (prefix + rest)[|prefix|..] == rest
  {
    assert (prefix + rest)[..|prefix|] == prefix;
  }

  /** The tests a line fails because of its first letter. */
  lemma Keywords(line: Text)
    requires line != []
    ensures line[0] != 0x65 ==> line != Blocks.ELSE_LINE && line != Blocks.END_LINE
    ensures line[0] != 0x69 ==> !StartsWith(line, Blocks.IF_PREFIX)
    ensures line[0] != 0x64 ==> !StartsWith(line, Blocks.DELETE_PREFIX)
    ensures line[0] != 0x73 ==> !StartsWith(line, Blocks.SET_PREFIX)
  {
    if line[0] != Blocks.IF_PREFIX[0] {
      DiffersAtStart(line, Blocks.IF_PREFIX);
    }
    if line[0] != Blocks.DELETE_PREFIX[0] {
      DiffersAtStart(line, Blocks.DELETE_PREFIX);
    }
    if line[0] != Blocks.SET_PREFIX[0] {
      DiffersAtStart(line, Blocks.SET_PREFIX);
    }
    assert Blocks.ELSE_LINE[0] == 0x65 && Blocks.END_LINE[0] == 0x65;
  }

  lemma TidyIsStripped(line: Text)
    requires Tidy(line)
    ensures Strip(line) == line
  {
    StripFixed(line);
  }

  lemma IfIsDispatched(source: Text, index: nat)
    requires Tidy(source)
    ensures var line := Blocks.IF_PREFIX + source + [COLON];
            Tidy(line) && Blocks.ReadLine(line, index) == Blocks.ReadIf(line, line, Blocks.LineStart(line, index))
  {
    hide Strip, StartsWith, Blocks.ReadIf, Blocks.LineStart;
    var line := Blocks.IF_PREFIX + source + [COLON];
    TidyInside(Blocks.IF_PREFIX, source, [COLON]);
    TidyIsStripped(line);
    StartsWithPrefix(Blocks.IF_PREFIX, source + [COLON]);
    assert Blocks.IF_PREFIX + (source + [COLON]) == line && line[0] == Blocks.IF_PREFIX[0] == 0x69;
    Keywords(line);
  }

  lemma IfIsRead(w: Writer, condition: Expression, index: nat) returns (e: Expression, at: Position)
    requires Written(w, condition)
    ensures Tidy(PrintIf(w, condition))
    ensures Blocks.ReadLine(PrintIf(w, condition), index) == Blocks.IfLine(e, at) && Erase(e) == Erase(condition)
  {
    hide Compile, Blocks.ReadLine, Erase, Strip, Find, Tidy, Blocks.LineStart;
    var source, line := w(condition), PrintIf(w, condition);
    IfIsDispatched(source, index);
    TidyIsStripped(source);
    assert line[3..|line| - 1] == source;
    at := Blocks.LineStart(line, index);
    var origin := Position(at.line, Find(line, source, 0) + 1);
    assert CompilesTo(source, origin, condition);
    TidyNotEmpty(source);
    e := Compile(source, origin).value;
  }

  lemma TidyNotEmpty(t: Text)
    requires Tidy(t)
    ensures t != []
  {
  }

  lemma DeleteIsDispatched(target: Text, index: nat)
    requires Tidy(target)
    ensures var line := Blocks.DELETE_PREFIX + target;
            Tidy(line) && Blocks.ReadLine(line, index) == Blocks.ReadDelete(target, Blocks.LineStart(line, index))
  {
    hide Strip, StartsWith, Blocks.ReadDelete, Blocks.LineStart;
    var line := Blocks.DELETE_PREFIX + target;
    TidyInside(Blocks.DELETE_PREFIX, target, []);
    assert Blocks.DELETE_PREFIX + target + [] == line && line[0] == Blocks.DELETE_PREFIX[0] == 0x64;
    TidyIsStripped(line);
    TidyIsStripped(target);
    StartsWithPrefix(Blocks.DELETE_PREFIX, target);
    Keywords(line);
  }

  lemma DeleteIsRead(target: Text, index: nat) returns (at: Position)
    requires CleanTarget(target)
    ensures Tidy(PrintDelete(target))
    ensures Blocks.ReadLine(PrintDelete(target), index) == Blocks.Simple(Delete(target, at))
  {
    hide Blocks.ReadLine, Blocks.LineStart;
    DeleteIsDispatched(target, index);
    at := Blocks.LineStart(PrintDelete(target), index);
  }

  lemma OccursChar(t: Text, c: CodePoint, k: nat)
    ensures OccursAt(t, [c], k) <==> k < |t| && t[k] == c
  {
    if k < |t| {
      assert t[k..k + 1] == [t[k]];
    }
  }

  /** The first `=` of an assignment is the one behind the target. */
  lemma FindsEquals(target: Text, source: Text)
    requires forall i :: 0 <= i < |target| ==> target[i] != EQUALS
    ensures Find(target + EQUALS_SIGN + source, [EQUALS], 0) == |target| + 1
  {
    var remainder := target + EQUALS_SIGN + source;
    var r := Find(remainder, [EQUALS], 0);
    OccursChar(remainder, EQUALS, |target| + 1);
    if 0 <= r {
      OccursChar(remainder, EQUALS, r);
    }
  }

  /** The text behind `set ` or `append ` splits into target and expression. */
  lemma AssignmentSplits(target: Text, source: Text)
    requires CleanTarget(target) && Tidy(source)
    ensures var remainder := target + EQUALS_SIGN + source;
            && Find(remainder, [EQUALS], 0) == |target| + 1
            && Strip(remainder[..|target| + 1]) == target && Strip(remainder[|target| + 2..]) == source
  {
    hide Strip, Find;
    FindsEquals(target, source);
    var remainder := target + EQUALS_SIGN + source;
    assert remainder[..|target| + 1] == [] + target + [SPACE];
    StripPadded([], target, [SPACE]);
    assert remainder[|target| + 2..] == [SPACE] + source + [];
    StripPadded([SPACE], source, []);
  }

  lemma AssignmentTidy(target: Text, source: Text)
    requires CleanTarget(target) && Tidy(source)
    ensures Tidy(target + EQUALS_SIGN + source)
  {
    OneLineTogether(target, EQUALS_SIGN);
    TidyInside(target + EQUALS_SIGN, source, []);
    assert target + EQUALS_SIGN + source + [] == target + EQUALS_SIGN + source;
  }

  lemma AssignIsDispatched(operation: Operation, remainder: Text, index: nat)
    requires Tidy(remainder)
    ensures var line := Prefix(operation) + remainder;
            && Tidy(line)
            && Blocks.ReadLine(line, index) ==
                 Blocks.ReadAssign(line, operation, remainder, Blocks.LineStart(line, index))
  {
    hide Strip, StartsWith, Blocks.ReadAssign, Blocks.LineStart, Blocks.ReadIf, Blocks.ReadDelete, Tidy;
    var line := Prefix(operation) + remainder;
    assert line[0] == Prefix(operation)[0];
    TidyInside(Prefix(operation), remainder, []);
    assert Prefix(operation) + remainder + [] == line;
    TidyIsStripped(line);
    StartsWithPrefix(Prefix(operation), remainder);
    Keywords(line);
  }

  lemma AssignIsRead(w: Writer, operation: Operation, target: Text, expression: Expression, index: nat)
    returns (e: Expression, at: Position)
    requires CleanTarget(target) && Written(w, expression)
    ensures Tidy(PrintAssign(w, operation, target, expression))
    ensures Blocks.ReadLine(PrintAssign(w, operation, target, expression), index) ==
              Blocks.Simple(Assign(operation, target, e, at))
    ensures Erase(e) == Erase(expression)
  {
    hide Compile, Blocks.ReadLine, Blocks.LineStart, Erase, Strip, Find, Tidy;
    var source, line := w(expression), PrintAssign(w, operation, target, expression);
    AssignmentTidy(target, source);
    AssignIsDispatched(operation, target + EQUALS_SIGN + source, index);
    AssignmentSplits(target, source);
    at := Blocks.LineStart(line, index);
    var origin := Position(at.line, Find(line, [EQUALS], 0) + 2);
    assert CompilesTo(source, origin, expression);
    e := Compile(source, origin).value;
  }

  // ----- Printed lines can be laid out as the program -----

  predicate LinesAt(lines: seq<Text>, pos: nat, part: seq<Text>) {
    pos + |part| <= |lines| && forall i :: 0 <= i < |part| ==> lines[pos + i] == part[i]
  }

  lemma LinesInTurn(lines: seq<Text>, pos: nat, first: seq<Text>, second: seq<Text>)
    requires LinesAt(lines, pos, first + second)
    ensures LinesAt(lines, pos, first) && LinesAt(lines, pos + |first|, second)
  {
    assert forall i :: 0 <= i < |first| ==> (first + second)[i] == first[i];
    assert forall i :: 0 <= i < |second| ==>
        (first + second)[|first| + i] == second[i] && lines[pos + |first| + i] == lines[pos + (|first| + i)];
  }

  lemma TerminatorsAreRead(index: nat)
    ensures Blocks.ReadLine(Blocks.ELSE_LINE, index) == Blocks.Else &&
              Blocks.ReadLine(Blocks.END_LINE, index) == Blocks.End
    ensures OnOneLine(Blocks.ELSE_LINE) && OnOneLine(Blocks.END_LINE)
  {
    hide Strip, StartsWith, Blocks.ReadIf, Blocks.ReadDelete, Blocks.ReadAssign;
    TidyIsStripped(Blocks.ELSE_LINE);
    TidyIsStripped(Blocks.END_LINE);
    assert |Blocks.ELSE_LINE| == 5 && |Blocks.END_LINE| == 3;
  }

  /** What a layout of printed statements has to be like. */
  predicate Reproduces(lines: seq<Text>, pos: nat, depth: nat, count: nat, layout: Layout, ss: seq<Statement>) {
    && LaidOut(lines, pos, layout) && Fits(layout, depth, count)
    && EraseStatements(Statements(layout)) == EraseStatements(ss)
  }

  lemma CountFirst(s: Statement, ss: seq<Statement>)
    ensures Blocks.StatementCount([s] + ss) == Blocks.StatementCount([s]) + Blocks.StatementCount(ss)
  {
    assert ([s] + ss)[1..] == ss && [s][1..] == [];
  }

  lemma PrintFirst(w: Writer, lines: seq<Text>, pos: nat, ss: seq<Statement>, depth: nat)
    requires ss != [] && Writable(w, ss, depth) && LinesAt(lines, pos, PrintStatements(w, ss, depth))
    ensures LinesAt(lines, pos, PrintStatement(w, ss[0], depth))
    ensures LinesAt(lines, pos + |PrintStatement(w, ss[0], depth)|, PrintStatements(w, ss[1..], depth))
    ensures |PrintStatements(w, ss, depth)| == |PrintStatement(w, ss[0], depth)| + |PrintStatements(w, ss[1..], depth)|
    ensures Blocks.StatementCount(ss) == Blocks.StatementCount([ss[0]]) + Blocks.StatementCount(ss[1..])
    ensures Blocks.StatementCount([ss[0]]) >= 1
  {
    hide WritableStatement, PrintStatement;
    LinesInTurn(lines, pos, PrintStatement(w, ss[0], depth), PrintStatements(w, ss[1..], depth));
    assert ss == [ss[0]] + ss[1..];
    CountFirst(ss[0], ss[1..]);
  }

  /**
   Wherever the printed lines of a block stand, and whatever stands behind them,
   they are laid out as that block.
   */
  lemma {:induction false} PrintedLayout(w: Writer, lines: seq<Text>, pos: nat, ss: seq<Statement>, depth: nat,
      count: nat) returns (layout: Layout)
    requires Writable(w, ss, depth) && LinesAt(lines, pos, PrintStatements(w, ss, depth))
    requires count + Blocks.StatementCount(ss) <= MAX_PROGRAM_STATEMENTS
    ensures Reproduces(lines, pos, depth, count, layout, ss) && Height(layout) == |PrintStatements(w, ss, depth)|
    decreases ss, 2
  {
    if ss == [] {
      return Stop;
    }
    hide WritableStatement, PrintStatement, Reproduces;
    PrintFirst(w, lines, pos, ss, depth);
    var rest := PrintedLayout(w, lines, pos + |PrintStatement(w, ss[0], depth)|, ss[1..], depth, count + 1);
    layout := PrintedStatementLayout(w, lines, pos, ss[0], depth, count, rest, ss[1..]);
    assert [ss[0]] + ss[1..] == ss;
  }

  lemma {:induction false} PrintedStatementLayout(
      w: Writer, lines: seq<Text>, pos: nat, s: Statement, depth: nat, count: nat, rest: Layout, others: seq<Statement>)
    returns (layout: Layout)
    requires WritableStatement(w, s, depth) && LinesAt(lines, pos, PrintStatement(w, s, depth))
    requires count + Blocks.StatementCount([s]) <= MAX_PROGRAM_STATEMENTS
    requires Reproduces(lines, pos + |PrintStatement(w, s, depth)|, depth, count + 1, rest, others)
    ensures Reproduces(lines, pos, depth, count, layout, [s] + others)
    ensures Height(layout) == |PrintStatement(w, s, depth)| + Height(rest)
    decreases s, 1
  {
    hide Written, CleanTarget, PrintIf, PrintDelete, PrintAssign, Blocks.ReadLine, Erase;
    match s
    case Delete(target, _) =>
      var at := DeleteIsRead(target, pos);
      assert lines[pos] == PrintStatement(w, s, depth)[0];
      layout := StatementLine(Delete(target, at), rest);
      EraseStatementsFirst(Delete(target, at), Statements(rest), s, others);
    case Assign(operation, target, expression, _) =>
      var e, at := AssignIsRead(w, operation, target, expression, pos);
      assert lines[pos] == PrintStatement(w, s, depth)[0];
      layout := StatementLine(Assign(operation, target, e, at), rest);
      EraseStatementsFirst(Assign(operation, target, e, at), Statements(rest), s, others);
    case If(_, _, _, _) =>
      layout := PrintedConditional(w, lines, pos, s, depth, count, rest, others);
  }

  lemma EraseStatementsFirst(s: Statement, ss: seq<Statement>, t: Statement, ts: seq<Statement>)
    requires EraseStatement(s) == EraseStatement(t) && EraseStatements(ss) == EraseStatements(ts)
    ensures EraseStatements([s] + ss) == EraseStatements([t] + ts)
  {
    assert ([s] + ss)[1..] == ss && ([t] + ts)[1..] == ts;
  }

  /** Where the parts of a printed conditional stand: `after` its body, and its `last` line. */
  lemma ConditionalLines(w: Writer, lines: seq<Text>, pos: nat, s: Statement, depth: nat)
      returns (after: nat, last: nat)
    requires s.If? && WritableStatement(w, s, depth) && LinesAt(lines, pos, PrintStatement(w, s, depth))
    ensures LinesAt(lines, pos, [PrintIf(w, s.condition)])
    ensures LinesAt(lines, pos + 1, PrintStatements(w, s.body, depth + 1))
    ensures after == pos + 1 + |PrintStatements(w, s.body, depth + 1)|
    ensures s.alternate == [] ==> last == after
    ensures s.alternate != [] ==> LinesAt(lines, after, [Blocks.ELSE_LINE])
    ensures s.alternate != [] ==> LinesAt(lines, after + 1, PrintStatements(w, s.alternate, depth + 1))
    ensures s.alternate != [] ==> last == after + 1 + |PrintStatements(w, s.alternate, depth + 1)|
    ensures LinesAt(lines, last, [Blocks.END_LINE]) && |PrintStatement(w, s, depth)| == last + 1 - pos
  {
    hide PrintIf, LinesAt, PrintStatements;
    var first, body := [PrintIf(w, s.condition)], PrintStatements(w, s.body, depth + 1);
    var middle := if s.alternate == [] then [] else [Blocks.ELSE_LINE] + PrintStatements(w, s.alternate, depth + 1);
    after := pos + 1 + |body|;
    last := after + |middle|;
    LinesInTurn(lines, pos, first + body + middle, [Blocks.END_LINE]);
    LinesInTurn(lines, pos, first + body, middle);
    LinesInTurn(lines, pos, first, body);
    if s.alternate != [] {
      LinesInTurn(lines, after, [Blocks.ELSE_LINE], PrintStatements(w, s.alternate, depth + 1));
    }
  }

  lemma IfParts(w: Writer, s: Statement, depth: nat)
    requires s.If? && WritableStatement(w, s, depth)
    ensures Written(w, s.condition) && depth + 1 <= MAX_EXPRESSION_DEPTH
    ensures Writable(w, s.body, depth + 1) && Writable(w, s.alternate, depth + 1)
    ensures Blocks.StatementCount(s.body) + Blocks.StatementCount(s.alternate) < Blocks.StatementCount([s])
  {
  }

  lemma LineIsThere(lines: seq<Text>, pos: nat, line: Text)
    requires LinesAt(lines, pos, [line])
    ensures pos < |lines| && lines[pos] == line
  {
    assert lines[pos + 0] == [line][0];
  }

  lemma TerminatorIsThere(lines: seq<Text>, pos: nat, line: Text)
    requires LinesAt(lines, pos, [line])
    ensures line == Blocks.ELSE_LINE ==> LineReads(lines, pos, Blocks.Else)
    ensures line == Blocks.END_LINE ==> LineReads(lines, pos, Blocks.End)
  {
    hide Blocks.ReadLine;
    LineIsThere(lines, pos, line);
    TerminatorsAreRead(pos);
  }

  lemma ConditionIsThere(w: Writer, lines: seq<Text>, pos: nat, condition: Expression)
      returns (e: Expression, at: Position)
    requires Written(w, condition) && LinesAt(lines, pos, [PrintIf(w, condition)])
    ensures LineReads(lines, pos, Blocks.IfLine(e, at)) && Erase(e) == Erase(condition)
  {
    hide Blocks.ReadLine, Erase;
    LineIsThere(lines, pos, PrintIf(w, condition));
    e, at := IfIsRead(w, condition, pos);
  }

  /** A printed conditional with its branches, in front of `rest`. */
  lemma {:induction false} PrintedConditional(
      w: Writer, lines: seq<Text>, pos: nat, s: Statement, depth: nat, count: nat, rest: Layout, others: seq<Statement>)
    returns (layout: Layout)
    requires s.If? && WritableStatement(w, s, depth) && LinesAt(lines, pos, PrintStatement(w, s, depth))
    requires count + Blocks.StatementCount([s]) <= MAX_PROGRAM_STATEMENTS
    requires Reproduces(lines, pos + |PrintStatement(w, s, depth)|, depth, count + 1, rest, others)
    ensures Reproduces(lines, pos, depth, count, layout, [s] + others)
    ensures Height(layout) == |PrintStatement(w, s, depth)| + Height(rest)
    decreases s, 0
  {
    hide *;
    IfParts(w, s, depth);
    var after, last := ConditionalLines(w, lines, pos, s, depth);
    var e, at := ConditionIsThere(w, lines, pos, s.condition);
    var body := PrintedLayout(w, lines, pos + 1, s.body, depth + 1, 0);
    var alternate := Stop;
    TerminatorIsThere(lines, last, Blocks.END_LINE);
    if s.alternate != [] {
      TerminatorIsThere(lines, after, Blocks.ELSE_LINE);
      alternate := PrintedLayout(w, lines, after + 1, s.alternate, depth + 1, 0);
    }
    layout := Conditional(e, at, body, s.alternate != [], alternate, rest);
    ConditionalSize(layout);
    ConditionalReproduces(lines, pos, s, depth, count, layout, others);
  }

  lemma ConditionalSize(layout: Layout)
    requires layout.Conditional?
    ensures ConditionalHeight(layout)
         == 2 + Height(layout.body) + (if layout.hasElse then 1 + Height(layout.alternate) else 0)
    ensures Height(layout) == ConditionalHeight(layout) + Height(layout.rest)
  {
  }

  /** A conditional reproduces a statement when its condition, its branches and its rest do. */
  lemma ConditionalReproduces(
      lines: seq<Text>, pos: nat, s: Statement, depth: nat, count: nat, layout: Layout, others: seq<Statement>)
    requires s.If? && layout.Conditional? && depth + 1 <= MAX_EXPRESSION_DEPTH
    requires Erase(layout.condition) == Erase(s.condition) &&
               LineReads(lines, pos, Blocks.IfLine(layout.condition, layout.at))
    requires Reproduces(lines, pos + 1, depth + 1, 0, layout.body, s.body)
    requires var after := pos + 1 + Height(layout.body);
             if layout.hasElse then
               && LineReads(lines, after, Blocks.Else)
               && Reproduces(lines, after + 1, depth + 1, 0, layout.alternate, s.alternate)
               && LineReads(lines, after + 1 + Height(layout.alternate), Blocks.End)
             else layout.alternate == Stop && s.alternate == [] && LineReads(lines, after, Blocks.End)
    requires Reproduces(lines, pos + ConditionalHeight(layout), depth, count + 1, layout.rest, others)
    ensures Reproduces(lines, pos, depth, count, layout, [s] + others)
  {
    hide LineReads, Erase;
    var read := If(layout.condition, Statements(layout.body), Statements(layout.alternate), layout.at);
    EraseStatementsFirst(read, Statements(layout.rest), s, others);
    assert Statements(layout) == [read] + Statements(layout.rest);
    assert LaidOut(lines, pos, layout) && Fits(layout, depth, count);
  }

  // ----- Lines joined and split again -----

  predicate EachOnOneLine(lines: seq<Text>) {
    lines == [] || (OnOneLine(lines[0]) && EachOnOneLine(lines[1..]))
  }

  function JoinLines(lines: seq<Text>): Text {
    if lines == [] then [] else lines[0] + ([NEWLINE] + JoinLines(lines[1..]))
  }

  lemma {:induction false} FirstBoundaryBehind(line: Text, rest: Text)
    requires OnOneLine(line)
    ensures Blocks.FirstBoundary(line + ([NEWLINE] + rest)) == |line|
  {
    var t := line + ([NEWLINE] + rest);
    if line != [] {
      assert t[1..] == line[1..] + ([NEWLINE] + rest);
      FirstBoundaryBehind(line[1..], rest);
    }
  }

  /** `splitlines` undoes joining, for lines without a line boundary. */
  lemma {:induction false} SplitInvertsJoin(lines: seq<Text>)
    requires EachOnOneLine(lines)
    ensures Blocks.SplitLines(JoinLines(lines)) == lines
  {
    if lines != [] {
      var line, rest := lines[0], JoinLines(lines[1..]);
      var t := line + ([NEWLINE] + rest);
      FirstBoundaryBehind(line, rest);
      assert t[..|line|] == line && t[|line|] == NEWLINE && t[|line| + 1..] == rest;
      SplitInvertsJoin(lines[1..]);
    }
  }

  lemma {:induction false} OneLineEachTogether(a: seq<Text>, b: seq<Text>)
    requires EachOnOneLine(a) && EachOnOneLine(b)
    ensures EachOnOneLine(a + b)
  {
    if a == [] {
      assert a + b == b;
    } else {
      assert (a + b)[1..] == a[1..] + b;
      OneLineEachTogether(a[1..], b);
    }
  }

  lemma {:induction false} PrintedOnOneLine(w: Writer, ss: seq<Statement>, depth: nat)
    requires Writable(w, ss, depth)
    ensures EachOnOneLine(PrintStatements(w, ss, depth))
    decreases ss, 2
  {
    if ss != [] {
      PrintedStatementOnOneLine(w, ss[0], depth);
      PrintedOnOneLine(w, ss[1..], depth);
      OneLineEachTogether(PrintStatement(w, ss[0], depth), PrintStatements(w, ss[1..], depth));
    }
  }

  lemma SingleOnOneLine(line: Text)
    requires OnOneLine(line)
    ensures EachOnOneLine([line])
  {
    assert [line][1..] == [];
  }

  lemma {:induction false} PrintedStatementOnOneLine(w: Writer, s: Statement, depth: nat)
    requires WritableStatement(w, s, depth)
    ensures EachOnOneLine(PrintStatement(w, s, depth))
    decreases s, 1
  {
    hide CleanTarget, PrintIf, PrintDelete, PrintAssign, Blocks.ReadLine, Erase, EachOnOneLine, OnOneLine,
        PrintStatements;
    match s
    case Delete(target, _) =>
      var at := DeleteIsRead(target, 0);
      TidyOnOneLine(PrintDelete(target));
    case Assign(operation, target, expression, _) =>
      var e, at := AssignIsRead(w, operation, target, expression, 0);
      TidyOnOneLine(PrintAssign(w, operation, target, expression));
    case If(_, _, _, _) =>
      PrintedConditionalOnOneLine(w, s, depth);
  }

  lemma TidyOnOneLine(line: Text)
    requires Tidy(line)
    ensures EachOnOneLine([line])
  {
    SingleOnOneLine(line);
  }

  lemma {:induction false} PrintedConditionalOnOneLine(w: Writer, s: Statement, depth: nat)
    requires s.If? && WritableStatement(w, s, depth)
    ensures EachOnOneLine(PrintStatement(w, s, depth))
    decreases s, 0
  {
    hide PrintIf, Blocks.ReadLine, Erase, OnOneLine, PrintStatements;
    var first, body := [PrintIf(w, s.condition)], PrintStatements(w, s.body, depth + 1);
    var middle := if s.alternate == [] then [] else [Blocks.ELSE_LINE] + PrintStatements(w, s.alternate, depth + 1);
    var e, at := IfIsRead(w, s.condition, 0);
    TidyOnOneLine(PrintIf(w, s.condition));
    TerminatorsAreRead(0);
    SingleOnOneLine(Blocks.ELSE_LINE);
    SingleOnOneLine(Blocks.END_LINE);
    PrintedOnOneLine(w, s.body, depth + 1);
    PrintedOnOneLine(w, s.alternate, depth + 1);
    OneLineEachTogether([Blocks.ELSE_LINE], PrintStatements(w, s.alternate, depth + 1));
    OneLineEachTogether(first, body);
    OneLineEachTogether(first + body, middle);
    OneLineEachTogether(first + body + middle, [Blocks.END_LINE]);
  }

  // ----- The round trip -----

  lemma {:induction false} CountErased(ss: seq<Statement>)
    ensures Blocks.StatementCount(EraseStatements(ss)) == Blocks.StatementCount(ss)
  {
    if ss != [] {
      CountErased(ss[1..]);
      assert EraseStatements(ss)[1..] == EraseStatements(ss[1..]);
      if ss[0].If? {
        CountErased(ss[0].body);
        CountErased(ss[0].alternate);
      }
    }
  }

  function PrintProgram(w: Writer, ss: seq<Statement>): Text
    requires Writable(w, ss, 1)
  {
    JoinLines(PrintStatements(w, ss, 1))
  }

  /** The printed lines of a program parse to it, with no terminator left over. */
  lemma ParseInvertsPrint(w: Writer, ss: seq<Statement>) returns (read: seq<Statement>)
    requires Writable(w, ss, 1) && Blocks.StatementCount(ss) <= MAX_PROGRAM_STATEMENTS
    ensures var lines := PrintStatements(w, ss, 1);
            Blocks.ParseBlock(lines, 0, 1) == Blocks.Block(read, |lines|, Blocks.NoTerminator)
    ensures EraseStatements(read) == EraseStatements(ss) && Blocks.StatementCount(read) == Blocks.StatementCount(ss)
  {
    hide Writable, PrintStatements, Blocks.ParseBlock, Blocks.StatementCount, LaidOut, Fits;
    var lines := PrintStatements(w, ss, 1);
    var layout := PrintedLayout(w, lines, 0, ss, 1, 0);
    read := Statements(layout);
    BlocksExact(lines, read);
    assert LaysOutAll(lines, layout);
    CountErased(ss);
    CountErased(read);
  }

  /**
   Compiling the printed source of a program gives the program back: every
   statement, target and expression, in its place, whatever texts its expressions
   are written with.
   */
  lemma CompileProgramInvertsPrint(w: Writer, ss: seq<Statement>)
    requires ss != [] && Writable(w, ss, 1)
    requires Blocks.StatementCount(ss) <= MAX_PROGRAM_STATEMENTS && |PrintProgram(w, ss)| <= MAX_SOURCE_CHARACTERS
    ensures Blocks.CompileProgram(PrintProgram(w, ss)).Ok?
    ensures EraseStatements(Blocks.CompileProgram(PrintProgram(w, ss)).value) == EraseStatements(ss)
  {
    hide PrintStatements, Writable, Blocks.ParseBlock, Blocks.StatementCount, Blocks.SplitLines, EraseStatement;
    PrintedOnOneLine(w, ss, 1);
    SplitInvertsJoin(PrintStatements(w, ss, 1));
    var read := ParseInvertsPrint(w, ss);
  }

  // ----- The standard printer -----

  /** Clean targets, expressions whose printed text keeps the limits, and nesting within the limit. */
  predicate PrintableStatement(s: Statement, depth: nat)
    decreases s, 0
  {
    match s
    case If(condition, body, alternate, _) =>
      && Printable(condition) && depth + 1 <= MAX_EXPRESSION_DEPTH
      && PrintableProgram(body, depth + 1) && PrintableProgram(alternate, depth + 1)
    case Delete(target, _) => CleanTarget(target)
    case Assign(_, target, expression, _) => CleanTarget(target) && Printable(expression)
  }

  predicate PrintableProgram(ss: seq<Statement>, depth: nat)
    decreases ss, 1
  {
    ss == [] || (PrintableStatement(ss[0], depth) && PrintableProgram(ss[1..], depth))
  }

  lemma {:induction false} PrintableIsWritable(ss: seq<Statement>, depth: nat)
    requires PrintableProgram(ss, depth)
    ensures Writable(PRINTED, ss, depth)
    decreases ss, 1
  {
    if ss != [] {
      PrintableStatementIsWritable(ss[0], depth);
      PrintableIsWritable(ss[1..], depth);
    }
  }

  lemma {:induction false} PrintableStatementIsWritable(s: Statement, depth: nat)
    requires PrintableStatement(s, depth)
    ensures WritableStatement(PRINTED, s, depth)
    decreases s, 0
  {
    hide Printable, Written, CleanTarget;
    match s
    case If(condition, body, alternate, _) =>
      PrintedIsWritten(condition);
      PrintableIsWritable(body, depth + 1);
      PrintableIsWritable(alternate, depth + 1);
    case Delete(_, _) =>
    case Assign(_, _, expression, _) => PrintedIsWritten(expression);
  }

  /** Compiling what the standard printer prints gives the program back. */
  lemma CompileInvertsStandardPrint(ss: seq<Statement>)
    requires ss != [] && PrintableProgram(ss, 1) && Blocks.StatementCount(ss) <= MAX_PROGRAM_STATEMENTS
    ensures Writable(PRINTED, ss, 1)
    ensures |PrintProgram(PRINTED, ss)| <= MAX_SOURCE_CHARACTERS ==>
              && Blocks.CompileProgram(PrintProgram(PRINTED, ss)).Ok?
              && EraseStatements(Blocks.CompileProgram(PrintProgram(PRINTED, ss)).value) == EraseStatements(ss)
  {
    hide Writable, PrintableProgram, PrintProgram, Blocks.CompileProgram, Blocks.StatementCount;
    PrintableIsWritable(ss, 1);
    if |PrintProgram(PRINTED, ss)| <= MAX_SOURCE_CHARACTERS {
      CompileProgramInvertsPrint(PRINTED, ss);
    }
  }
}
