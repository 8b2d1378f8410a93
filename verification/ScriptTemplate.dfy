/**
 Naming templates: literal text with expressions in braces. `TemplateExact`
 says which segmentation the splitter finds, without following its loop.
 */
module ScriptTemplate {
  import opened Wrappers
  import opened Texts
  import opened ScriptSyntax
  import opened ScriptLexer
  import opened ScriptCompiler

  const ORIGIN := Position(1, 1)

  /** A segment's range `[start, end)` in the template. */
  datatype Part = LiteralPart(start: nat, end: nat) | BracePart(start: nat, end: nat)

  datatype Step = Finished | Taken(part: Part) | Bad(kind: ErrorKind)

  predicate IsBrace(c: CodePoint) {
    c == OPEN_BRACE || c == CLOSE_BRACE
  }

  // ----- What a segmentation is -----

  predicate ValidPart(source: Text, part: Part) {
    && part.start < part.end <= |source|
    && match part
       case LiteralPart(start, end) => forall k :: start <= k < end ==> !IsBrace(source[k])
       case BracePart(start, end) =>
         && source[start] == OPEN_BRACE && end - start >= 2 && source[end - 1] == CLOSE_BRACE
         && forall k :: start < k < end - 1 ==> source[k] != CLOSE_BRACE
  }

  /** The parts lie one behind the other from `start` to the end, and no two literals touch. */
  predicate Tiles(source: Text, start: nat, parts: seq<Part>)
    decreases |parts|
  {
    if parts == [] then start == |source|
    else
      && parts[0].start == start && ValidPart(source, parts[0])
      && (parts[0].LiteralPart? && |parts| > 1 ==> parts[1].BracePart?)
      && Tiles(source, parts[0].end, parts[1..])
  }

  /** The source texts of the parts, joined. */
  function Covered(source: Text, parts: seq<Part>): Text {
    if parts == [] then []
    else if parts[0].start <= parts[0].end <= |source|
    then source[parts[0].start..parts[0].end] + Covered(source, parts[1..])
    else []
  }

  lemma {:induction false} TilesCover(source: Text, start: nat, parts: seq<Part>)
    requires start <= |source| && Tiles(source, start, parts)
    ensures Covered(source, parts) == source[start..]
    decreases |parts|
  {
    if parts != [] {
      TilesCover(source, parts[0].end, parts[1..]);
    }
  }

  // ----- The segment of a part -----

  /** `[A-Za-z_][A-Za-z0-9_]*` matched in full. */
  predicate IsLegacyName(t: Text) {
    t != [] && IsIdentifierStart(t[0]) && forall i :: 0 <= i < |t| ==> IsIdentifierStart(t[i]) || IsDigit(t[i])
  }

  predicate IsFormatSpec(t: Text) {
    t != [] && forall i :: 0 <= i < |t| ==> !IsBrace(t[i])
  }

  /** A bare variable, or a variable, a colon and a format. */
  function LegacyParts(body: Text): Option<(Text, Option<Text>)> {
    var colon := Find(body, [COLON], 0);
    if IsLegacyName(body) then Some((body, None))
    else if colon >= 0 && IsLegacyName(body[..colon]) && IsFormatSpec(body[colon + 1..])
    then Some((body[..colon], Some(body[colon + 1..])))
    else None
  }

  /**
   A brace body is a bare variable exactly when it is a name, and a variable with
   a format exactly when it is a name, a colon and a format without braces.
   */
  lemma LegacyExact(body: Text, name: Text, spec: Text)
    ensures LegacyParts(body) == Some((name, None)) <==> body == name && IsLegacyName(name)
    ensures LegacyParts(body) == Some((name, Some(spec))) <==>
              body == name + [COLON] + spec && IsLegacyName(name) && IsFormatSpec(spec)
  {
    var colon := Find(body, [COLON], 0);
    if colon >= 0 {
      assert body[colon..colon + 1] == [body[colon]];
      assert body == body[..colon] + [COLON] + body[colon + 1..];
    }
    if body == name + [COLON] + spec && IsLegacyName(name) {
      assert body[|name|] == COLON;
      assert OccursAt(body, [COLON], |name|);
      assert forall k :: 0 <= k < |name| ==> body[k] == name[k] != COLON;
      assert colon == |name|;
      assert body[..colon] == name && body[colon + 1..] == spec;
    }
  }

  /** A name is a letter or underscore and then letters, digits and underscores; a format is anything without braces. */
  lemma LegacyWordsExact(t: Text)
    ensures IsLegacyName(t) <==>
              && t != [] && (IsLetter(t[0]) || t[0] == '_' as int)
              && forall i :: 0 <= i < |t| ==> IsLetter(t[i]) || IsDigit(t[i]) || t[i] == '_' as int
    ensures IsFormatSpec(t) <==> t != [] && OPEN_BRACE !in t && CLOSE_BRACE !in t
  {
  }

  /** In braces, with any blanks around it, such a body is that segment. */
  lemma LegacyReads(before: Text, name: Text, spec: Text, after: Text, at: Position)
    requires AllSpace(before) && AllSpace(after) && IsLegacyName(name)
    ensures BraceSegment(before + name + after, at) == Ok(LegacySegment(name, None, at))
    ensures IsFormatSpec(spec) && !IsSpace(spec[|spec| - 1]) ==>
              BraceSegment(before + (name + [COLON] + spec) + after, at) == Ok(LegacySegment(name, Some(spec), at))
  {
    hide Strip, LegacyParts, Compile;
    LegacyExact(name, name, []);
    LegacyExact(name + [COLON] + spec, name, spec);
    StripPadded(before, name, after);
    if IsFormatSpec(spec) && !IsSpace(spec[|spec| - 1]) {
      StripPadded(before, name + [COLON] + spec, after);
    }
  }

  function SegmentOf(source: Text, part: Part): Result<TemplateSegment>
    requires ValidPart(source, part)
  {
    var at := PositionAt(source, ORIGIN, part.start);
    if part.LiteralPart? then Ok(LiteralSegment(source[part.start..part.end], at))
    else BraceSegment(source[part.start + 1..part.end - 1], at)
  }

  function BraceSegment(inner: Text, at: Position): Result<TemplateSegment> {
    var body := Strip(inner);
    var bodyColumn := at.column + 1 + |inner| - |StripLeft(inner)|;
    if body == [] then Err(ScriptError(EmptyTemplateExpression, at))
    else
      match LegacyParts(body)
      case Some((name, spec)) => Ok(LegacySegment(name, spec, at))
      case None =>
        match Compile(body, Position(at.line, bodyColumn))
        case Err(error) => Err(error)
        case Ok(expression) => Ok(ExpressionSegment(expression, at))
  }

  // ----- The splitter -----

  function NextBrace(source: Text, pos: nat): (r: nat)
    requires pos <= |source|
    ensures pos <= r <= |source|
    ensures forall k :: pos <= k < r ==> !IsBrace(source[k])
    ensures r < |source| ==> IsBrace(source[r])
    decreases |source| - pos
  {
    if pos == |source| || IsBrace(source[pos]) then pos else NextBrace(source, pos + 1)
  }

  /** `source.find("}", pos)`, or the length for absent. */
  function ClosingBrace(source: Text, pos: nat): (r: nat)
    requires pos <= |source|
    ensures pos <= r <= |source|
    ensures forall k :: pos <= k < r ==> source[k] != CLOSE_BRACE
    ensures r < |source| ==> source[r] == CLOSE_BRACE
    decreases |source| - pos
  {
    if pos == |source| || source[pos] == CLOSE_BRACE then pos else ClosingBrace(source, pos + 1)
  }

  /** The part that starts at `start`. */
  function NextPart(source: Text, start: nat): (r: Step)
    requires start <= |source|
    ensures r.Taken? ==> ValidPart(source, r.part) && r.part.start == start
  {
    if start == |source| then Finished
    else if source[start] == CLOSE_BRACE then Bad(UnexpectedClosingBrace)
    else if source[start] == OPEN_BRACE then
      var end := ClosingBrace(source, start + 1);
      if end == |source| then Bad(UnclosedBrace) else Taken(BracePart(start, end + 1))
    else Taken(LiteralPart(start, NextBrace(source, start)))
  }

  function SegmentsFrom(source: Text, start: nat): Result<seq<TemplateSegment>>
    requires start <= |source|
    decreases |source| - start
  {
    match NextPart(source, start)
    case Finished => Ok([])
    case Bad(kind) => Err(ScriptError(kind, PositionAt(source, ORIGIN, start)))
    case Taken(part) =>
      match SegmentOf(source, part)
      case Err(error) => Err(error)
      case Ok(segment) => Behind([segment], SegmentsFrom(source, part.end))
  }

  function Behind(segments: seq<TemplateSegment>, rest: Result<seq<TemplateSegment>>): Result<seq<TemplateSegment>> {
    if rest.Err? then rest else Ok(segments + rest.value)
  }

  lemma BehindTwice(segments: seq<TemplateSegment>, segment: TemplateSegment, rest: Result<seq<TemplateSegment>>)
    ensures Behind(segments, Behind([segment], rest)) == Behind(segments + [segment], rest)
  {
    if rest.Ok? {
      assert segments + ([segment] + rest.value) == (segments + [segment]) + rest.value;
    }
  }

  /** Line and column behind a consumed stretch, counted from the stretch alone. */
  function MovedOver(here: Position, consumed: Text): Position {
    Position(here.line + CountBreaks(consumed),
             if LastBreak(consumed) >= 0 then |consumed| - LastBreak(consumed) else here.column + |consumed|)
  }

  lemma {:induction false} PositionBehind(source: Text, p: nat, q: nat)
    requires p <= q <= |source|
    ensures PositionAt(source, ORIGIN, q) == MovedOver(PositionAt(source, ORIGIN, p), source[p..q])
    decreases q - p
  {
    if p < q {
      PositionBehind(source, p, q - 1);
      PositionNext(source, ORIGIN, q - 1);
      assert source[p..q][..q - p - 1] == source[p..q - 1];
    }
  }

  method CompileNamingTemplate(source: Text) returns (r: Result<seq<TemplateSegment>>)
    ensures r == if |source| > MAX_SOURCE_CHARACTERS then Err(ScriptError(SourceTooLong, ORIGIN))
                 else if source == [] then Err(ScriptError(SourceEmpty, ORIGIN))
                 else SegmentsFrom(source, 0)
  {
    if |source| > MAX_SOURCE_CHARACTERS {
      return Err(ScriptError(SourceTooLong, ORIGIN));
    }
    if source == [] {
      return Err(ScriptError(SourceEmpty, ORIGIN));
    }
    r := SplitTemplate(source);
  }

  lemma SplitStarts(source: Text)
    ensures PositionAt(source, ORIGIN, 0) == ORIGIN
    ensures Behind([], SegmentsFrom(source, 0)) == SegmentsFrom(source, 0)
  {
    hide SegmentsFrom;
    var all := SegmentsFrom(source, 0);
    assert all.Ok? ==> [] + all.value == all.value;
  }

  /** The splitter loop. */
  method SplitTemplate(source: Text) returns (r: Result<seq<TemplateSegment>>)
    ensures r == SegmentsFrom(source, 0)
  {
    hide SegmentsFrom, BraceSegment, PositionAt, MovedOver, ClosingBrace;
    var segments: seq<TemplateSegment> := [];
    var literalStart, position, here := 0, 0, ORIGIN;
    ghost var all := SegmentsFrom(source, 0);
    SplitStarts(source);
    while position < |source|
      invariant literalStart <= position <= |source|
      invariant forall k :: literalStart <= k < position ==> !IsBrace(source[k])
      invariant here == PositionAt(source, ORIGIN, position)
      invariant all == Behind(segments, SegmentsFrom(source, literalStart))
    {
      var c := source[position];
      if !IsBrace(c) {
        PositionNext(source, ORIGIN, position);
        here := if c == NEWLINE then Position(here.line + 1, 1) else Position(here.line, here.column + 1);
        position := position + 1;
        continue;
      }
      BraceDecides(source, position);
      segments := TakeLiteral(source, literalStart, position, segments);
      if c == CLOSE_BRACE {
        return Err(ScriptError(UnexpectedClosingBrace, here));
      }
      var end := ClosingBrace(source, position + 1);
      if end == |source| {
        return Err(ScriptError(UnclosedBrace, here));
      }
      var segment := ReadBrace(source[position + 1..end], here);
      if segment.Err? {
        return Err(segment.error);
      }
      BehindTwice(segments, segment.value, SegmentsFrom(source, end + 1));
      segments := segments + [segment.value];
      PositionBehind(source, position, end + 1);
      here := MovedOver(here, source[position..end + 1]);
      position := end + 1;
      literalStart := position;
    }
    segments := TakeLiteral(source, literalStart, |source|, segments);
    BraceDecides(source, |source|);
    assert segments + [] == segments;
    r := Ok(segments);
  }

  /** The literal text read since the last brace becomes a segment, if there is any. */
  method TakeLiteral(source: Text, start: nat, end: nat, segments: seq<TemplateSegment>)
    returns (r: seq<TemplateSegment>)
    requires start <= end <= |source| && forall k :: start <= k < end ==> !IsBrace(source[k])
    requires end < |source| ==> IsBrace(source[end])
    ensures Behind(r, SegmentsFrom(source, end)) == Behind(segments, SegmentsFrom(source, start))
  {
    r := segments;
    if start < end {
      var literal := LiteralSegment(source[start..end], PositionAt(source, ORIGIN, start));
      LiteralEnds(source, start, end);
      BehindTwice(segments, literal, SegmentsFrom(source, end));
      r := segments + [literal];
    }
  }

  method ReadBrace(inner: Text, at: Position) returns (r: Result<TemplateSegment>)
    ensures r == BraceSegment(inner, at)
  {
    var body := Strip(inner);
    if body == [] {
      return Err(ScriptError(EmptyTemplateExpression, at));
    }
    var legacy := LegacyParts(body);
    if legacy.Some? {
      return Ok(LegacySegment(legacy.value.0, legacy.value.1, at));
    }
    var expression := CompileExpression(body, Position(at.line, at.column + 1 + |inner| - |StripLeft(inner)|));
    r := if expression.Err? then Err(expression.error) else Ok(ExpressionSegment(expression.value, at));
  }

  lemma {:induction false} NextBraceAt(source: Text, pos: nat, end: nat)
    requires pos <= end <= |source| && forall k :: pos <= k < end ==> !IsBrace(source[k])
    requires end < |source| ==> IsBrace(source[end])
    ensures NextBrace(source, pos) == end
    decreases end - pos
  {
    if pos < end {
      NextBraceAt(source, pos + 1, end);
    }
  }

  lemma {:induction false} ClosingBraceAt(source: Text, pos: nat, end: nat)
    requires pos <= end < |source| && source[end] == CLOSE_BRACE
    requires forall k :: pos <= k < end ==> source[k] != CLOSE_BRACE
    ensures ClosingBrace(source, pos) == end
    decreases end - pos
  {
    if pos < end {
      ClosingBraceAt(source, pos + 1, end);
    }
  }

  /** A stretch of literal text up to a brace or the end is one segment. */
  lemma LiteralEnds(source: Text, start: nat, end: nat)
    requires start <= end <= |source| && forall k :: start <= k < end ==> !IsBrace(source[k])
    requires end < |source| ==> IsBrace(source[end])
    requires start < end
    ensures SegmentsFrom(source, start)
         == Behind([LiteralSegment(source[start..end], PositionAt(source, ORIGIN, start))], SegmentsFrom(source, end))
  {
    hide Compile, BraceSegment, PositionAt;
    NextBraceAt(source, start, end);
  }

  /** What the splitter does at a brace and at the end of the template. */
  lemma BraceDecides(source: Text, p: nat)
    requires p <= |source| && (p < |source| ==> IsBrace(source[p]))
    ensures SegmentsFrom(source, p) == AtBrace(source, p)
  {
    hide BraceSegment, PositionAt, ClosingBrace, NextBrace;
    if p < |source| && source[p] == OPEN_BRACE {
      var end := ClosingBrace(source, p + 1);
      assert end < |source| ==> NextPart(source, p) == Taken(BracePart(p, end + 1));
    }
  }

  function AtBrace(source: Text, p: nat): Result<seq<TemplateSegment>>
    requires p <= |source| && (p < |source| ==> IsBrace(source[p]))
  {
    var here := PositionAt(source, ORIGIN, p);
    if p == |source| then Ok([])
    else if source[p] == CLOSE_BRACE then Err(ScriptError(UnexpectedClosingBrace, here))
    else
      var end := ClosingBrace(source, p + 1);
      if end == |source| then Err(ScriptError(UnclosedBrace, here))
      else
        match BraceSegment(source[p + 1..end], here)
        case Err(error) => Err(error)
        case Ok(segment) => Behind([segment], SegmentsFrom(source, end + 1))
  }

  // ----- The theorem -----

  /** The segments are those of the parts, one for one. */
  predicate SegmentsOf(source: Text, parts: seq<Part>, segments: seq<TemplateSegment>) {
    if parts == [] || segments == [] then parts == [] && segments == []
    else
      && ValidPart(source, parts[0]) && SegmentOf(source, parts[0]) == Ok(segments[0])
      && SegmentsOf(source, parts[1..], segments[1..])
  }

  /** Where a tiling has a part, the splitter takes the same part. */
  lemma TilingIsTaken(source: Text, start: nat, parts: seq<Part>)
    requires start <= |source| && Tiles(source, start, parts)
    ensures NextPart(source, start) == if parts == [] then Finished else Taken(parts[0])
  {
    if parts != [] {
      var part := parts[0];
      if part.LiteralPart? {
        if |parts| > 1 {
          assert parts[1..][0] == parts[1];
        }
        NextBraceAt(source, start, part.end);
      } else {
        ClosingBraceAt(source, start + 1, part.end - 1);
      }
    }
  }

  lemma TakenIsSplit(source: Text, start: nat, part: Part, segment: TemplateSegment)
    requires start <= |source| && NextPart(source, start) == Taken(part)
    requires SegmentOf(source, part) == Ok(segment)
    ensures SegmentsFrom(source, start) == Behind([segment], SegmentsFrom(source, part.end))
  {
    hide NextPart, SegmentOf;
  }

  lemma FinishedIsSplit(source: Text, start: nat)
    requires start <= |source| && NextPart(source, start) == Finished
    ensures SegmentsFrom(source, start) == Ok([])
  {
    hide NextPart, SegmentOf;
  }

  lemma SegmentsAhead(source: Text, parts: seq<Part>, segments: seq<TemplateSegment>)
    requires SegmentsOf(source, parts, segments)
    ensures if parts == [] then segments == []
            else segments != [] && ValidPart(source, parts[0]) && SegmentOf(source, parts[0]) == Ok(segments[0])
                 && SegmentsOf(source, parts[1..], segments[1..])
  {
    hide SegmentOf;
  }

  lemma {:induction false} TilingIsSplit(source: Text, start: nat, parts: seq<Part>, segments: seq<TemplateSegment>)
    requires start <= |source| && Tiles(source, start, parts) && SegmentsOf(source, parts, segments)
    ensures SegmentsFrom(source, start) == Ok(segments)
    decreases |parts|
  {
    hide SegmentsFrom, SegmentsOf, SegmentOf, NextPart;
    TilingIsTaken(source, start, parts);
    if parts == [] {
      FinishedIsSplit(source, start);
      SegmentsAhead(source, parts, segments);
    } else {
      SegmentsAhead(source, parts, segments);
      TakenIsSplit(source, start, parts[0], segments[0]);
      TilingIsSplit(source, parts[0].end, parts[1..], segments[1..]);
      assert segments == [segments[0]] + segments[1..];
    }
  }

  lemma {:induction false} SplitIsTiling(source: Text, start: nat) returns (parts: seq<Part>)
    requires start <= |source| && SegmentsFrom(source, start).Ok?
    ensures Tiles(source, start, parts) && SegmentsOf(source, parts, SegmentsFrom(source, start).value)
    decreases |source| - start
  {
    hide Compile, SegmentOf, ValidPart;
    match NextPart(source, start)
    case Finished => parts := [];
    case Taken(part) =>
      var rest := SplitIsTiling(source, part.end);
      parts := [part] + rest;
      assert parts[1..] == rest;
      TilingIsTaken(source, part.end, rest);
  }

  /**
   A template is accepted exactly when it can be tiled by brace-free literals
   that do not touch and by braced bodies that compile. The segments are then
   those of the tiling, which is unique, each at the line and column its first
   character has, and the parts joined are the template.
   */
  lemma TemplateExact(source: Text, segments: seq<TemplateSegment>)
    ensures SegmentsFrom(source, 0) == Ok(segments) <==>
            exists parts :: Tiles(source, 0, parts) && SegmentsOf(source, parts, segments)
    ensures forall parts :: Tiles(source, 0, parts) ==> Covered(source, parts) == source
  {
    forall parts | Tiles(source, 0, parts) && SegmentsOf(source, parts, segments)
      ensures SegmentsFrom(source, 0) == Ok(segments)
    {
      TilingIsSplit(source, 0, parts, segments);
    }
    forall parts | Tiles(source, 0, parts)
      ensures Covered(source, parts) == source
    {
      TilesCover(source, 0, parts);
    }
    if SegmentsFrom(source, 0) == Ok(segments) {
      var parts := SplitIsTiling(source, 0);
    }
  }

  lemma {:induction false} TilingUnique(source: Text, start: nat, parts: seq<Part>, others: seq<Part>)
    requires start <= |source| && Tiles(source, start, parts) && Tiles(source, start, others)
    ensures parts == others
    decreases |parts|
  {
    TilingIsTaken(source, start, parts);
    TilingIsTaken(source, start, others);
    if parts != [] {
      TilingUnique(source, parts[0].end, parts[1..], others[1..]);
      assert parts == [parts[0]] + parts[1..] && others == [others[0]] + others[1..];
    }
  }
}
