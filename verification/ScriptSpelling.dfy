/**
 What the lexer accepts, said without the lexer: a source is a row of blank
 characters and spelled tokens. The theorem `LexerExact` is the
 equivalence, in both directions.
 */
module ScriptSpelling {
  import opened Wrappers
  import opened Texts
  import opened ScriptSyntax
  import opened ScriptLexer

  /** One character of a string literal as it is written. */
  datatype Glyph = Raw(c: CodePoint) | Short(letter: CodePoint) | Hex(digits: Text)

  datatype Spelling =
    | Quoted(quote: CodePoint, glyphs: seq<Glyph>)
    | Number(text: Text)
    | Word(text: Text)
    | Mark(c: CodePoint)

  /** A source as a row of blank characters and spelled tokens. */
  datatype Row = End | Blank(c: CodePoint, rest: Row) | Spelled(spelling: Spelling, rest: Row)

  predicate ValidGlyph(g: Glyph, quote: CodePoint) {
    match g
    case Raw(c) => c != quote && c != BACKSLASH && c != NEWLINE && c != RETURN
    case Short(letter) => letter != 0x75 && EscapeValue(letter, quote).Some?
    case Hex(digits) => |digits| == 4 && forall i :: 0 <= i < 4 ==> IsHex(digits[i])
  }

  function GlyphText(g: Glyph): Text {
    match g
    case Raw(c) => [c]
    case Short(letter) => [BACKSLASH, letter]
    case Hex(digits) => [BACKSLASH, 0x75] + digits
  }

  function GlyphValue(g: Glyph, quote: CodePoint): CodePoint
    requires ValidGlyph(g, quote)
  {
    match g
    case Raw(c) => c
    case Short(letter) => EscapeValue(letter, quote).value
    case Hex(digits) => HexValue(digits)
  }

  predicate ValidGlyphs(gs: seq<Glyph>, quote: CodePoint) {
    forall i :: 0 <= i < |gs| ==> ValidGlyph(gs[i], quote)
  }

  function GlyphsText(gs: seq<Glyph>): Text {
    if gs == [] then [] else GlyphText(gs[0]) + GlyphsText(gs[1..])
  }

  function GlyphsValue(gs: seq<Glyph>, quote: CodePoint): Text
    requires ValidGlyphs(gs, quote)
  {
    if gs == [] then [] else [GlyphValue(gs[0], quote)] + GlyphsValue(gs[1..], quote)
  }

  predicate ValidSpelling(s: Spelling) {
    match s
    case Quoted(quote, glyphs) => IsQuote(quote) && ValidGlyphs(glyphs, quote)
    case Number(text) => text != [] && forall i :: 0 <= i < |text| ==> IsDigit(text[i])
    case Word(text) =>
      text != [] && IsIdentifierStart(text[0]) && forall i :: 0 <= i < |text| ==> IsIdentifierPart(text[i])
    case Mark(c) => IsPunctuation(c)
  }

  function SpellingText(s: Spelling): Text {
    match s
    case Quoted(quote, glyphs) => [quote] + GlyphsText(glyphs) + [quote]
    case Number(text) => text
    case Word(text) => text
    case Mark(c) => [c]
  }

  function SpellingKind(s: Spelling): TokenKind
    requires ValidSpelling(s)
  {
    match s
    case Quoted(_, _) => StringToken
    case Number(_) => IntegerToken
    case Word(_) => IdentifierToken
    case Mark(c) => PunctuationKind(c)
  }

  function SpellingValue(s: Spelling): Text
    requires ValidSpelling(s)
  {
    match s
    case Quoted(quote, glyphs) => GlyphsValue(glyphs, quote)
    case Number(text) => text
    case Word(text) => text
    case Mark(c) => [c]
  }

  /** A number or a word must not run on into the text that follows it. */
  predicate EndsBefore(s: Spelling, rest: Text) {
    rest == [] ||
    match s
    case Number(_) => !IsDigit(rest[0])
    case Word(_) => !IsIdentifierPart(rest[0])
    case _ => true
  }

  function SourceText(row: Row): Text {
    match row
    case End => []
    case Blank(c, rest) => [c] + SourceText(rest)
    case Spelled(s, rest) => SpellingText(s) + SourceText(rest)
  }

  predicate ValidRow(row: Row) {
    match row
    case End => true
    case Blank(c, rest) => IsSpace(c) && ValidRow(rest)
    case Spelled(s, rest) => ValidSpelling(s) && EndsBefore(s, SourceText(rest)) && ValidRow(rest)
  }

  function LexemeOf(s: Spelling, pos: nat): Lexeme
    requires ValidSpelling(s)
  {
    Lexeme(SpellingKind(s), SpellingValue(s), pos, pos + |SpellingText(s)|)
  }

  /** The lexemes a row stands for when it starts at `pos`. */
  function LexemesOf(row: Row, pos: nat): seq<Lexeme>
    requires ValidRow(row)
  {
    match row
    case End => []
    case Blank(_, rest) => LexemesOf(rest, pos + 1)
    case Spelled(s, rest) => [LexemeOf(s, pos)] + LexemesOf(rest, pos + |SpellingText(s)|)
  }

  // ----- String literals -----

  /** A spelled character is decoded to its value. */
  lemma ScansGlyph(source: Text, start: nat, pos: nat, g: Glyph)
    requires start < pos <= |source| && IsQuote(source[start]) && ValidGlyph(g, source[start])
    requires OccursAt(source, GlyphText(g), pos)
    ensures ScanString(source, start, pos)
         == Prefixed(GlyphValue(g, source[start]), ScanString(source, start, pos + |GlyphText(g)|))
  {
    var text := GlyphText(g);
    assert source[pos] == source[pos..pos + |text|][0] == text[0];
    if !g.Raw? {
      assert source[pos + 1] == source[pos..pos + |text|][1] == text[1];
    }
    if g.Hex? {
      assert source[pos + 2..pos + 6] == source[pos..pos + |text|][2..] == g.digits;
    }
  }

  /** The character spelled at a position the decoder gets past. */
  lemma GlyphAt(source: Text, start: nat, pos: nat) returns (g: Glyph)
    requires start < pos < |source| && IsQuote(source[start])
    requires source[pos] != source[start] && ScanString(source, start, pos).Scanned?
    ensures ValidGlyph(g, source[start]) && OccursAt(source, GlyphText(g), pos)
  {
    if source[pos] != BACKSLASH {
      g := Raw(source[pos]);
    } else if source[pos + 1] == 0x75 {
      g := Hex(source[pos + 2..pos + 6]);
      assert source[pos..pos + 6] == GlyphText(g);
    } else {
      g := Short(source[pos + 1]);
    }
  }

  /** Decoding inverts escaping, for either quote and any mix of escapes. */
  lemma {:induction false} DecodesSpelledString(source: Text, start: nat, pos: nat, glyphs: seq<Glyph>)
    requires start < pos <= |source| && IsQuote(source[start])
    requires ValidGlyphs(glyphs, source[start])
    requires OccursAt(source, GlyphsText(glyphs), pos)
    requires OccursAt(source, [source[start]], pos + |GlyphsText(glyphs)|)
    ensures ScanString(source, start, pos) ==
              Scanned(GlyphsValue(glyphs, source[start]), pos + |GlyphsText(glyphs)| + 1)
    decreases glyphs
  {
    hide OccursAt, ScanString, ValidGlyph, ValidGlyphs, GlyphText, GlyphsText, GlyphValue, GlyphsValue;
    if glyphs == [] {
      NoGlyphs(source[start]);
      ScanEnds(source, start, pos);
    } else {
      var first, rest := glyphs[0], glyphs[1..];
      assert glyphs == [first] + rest;
      GlyphsApart(first, rest, source[start]);
      GlyphAhead(first, rest, source[start]);
      OccursInTurn(source, GlyphText(first), GlyphsText(rest), pos);
      OccursInside(source, GlyphText(first), pos);
      ScansGlyph(source, start, pos, first);
      DecodesSpelledString(source, start, pos + |GlyphText(first)|, rest);
    }
  }

  lemma GlyphsApart(g: Glyph, gs: seq<Glyph>, quote: CodePoint)
    requires ValidGlyphs([g] + gs, quote)
    ensures ValidGlyph(g, quote) && ValidGlyphs(gs, quote)
  {
    assert ([g] + gs)[0] == g && ([g] + gs)[1..] == gs;
  }

  lemma OccursInside(source: Text, text: Text, pos: nat)
    requires OccursAt(source, text, pos)
    ensures pos + |text| <= |source|
  {
  }

  lemma ScanEnds(source: Text, start: nat, pos: nat)
    requires start < pos <= |source| && IsQuote(source[start]) && OccursAt(source, [source[start]], pos)
    ensures ScanString(source, start, pos) == Scanned([], pos + 1)
  {
    assert source[pos] == source[pos..pos + 1][0];
  }

  lemma NoGlyphs(quote: CodePoint)
    ensures ValidGlyphs([], quote) && GlyphsText([]) == [] && GlyphsValue([], quote) == []
  {
  }

  lemma GlyphAhead(g: Glyph, gs: seq<Glyph>, quote: CodePoint)
    requires ValidGlyph(g, quote) && ValidGlyphs(gs, quote)
    ensures ValidGlyphs([g] + gs, quote) && GlyphsText([g] + gs) == GlyphText(g) + GlyphsText(gs)
    ensures GlyphsValue([g] + gs, quote) == [GlyphValue(g, quote)] + GlyphsValue(gs, quote)
  {
    assert ([g] + gs)[1..] == gs;
  }

  lemma ScanStarts(source: Text, start: nat, pos: nat)
    requires start < pos <= |source| && IsQuote(source[start]) && ScanString(source, start, pos).Scanned?
    ensures pos < |source| && OccursAt(source, [], pos) && OccursAt(source, [source[pos]], pos)
    ensures source[pos] == source[start] ==> ScanString(source, start, pos) == Scanned([], pos + 1)
  {
  }

  /** Every literal the decoder accepts is a spelled one. */
  lemma {:induction false} DecodedStringIsSpelled(source: Text, start: nat, pos: nat) returns (glyphs: seq<Glyph>)
    requires start < pos <= |source| && IsQuote(source[start])
    requires ScanString(source, start, pos).Scanned?
    ensures ValidGlyphs(glyphs, source[start])
    ensures ScanString(source, start, pos) ==
              Scanned(GlyphsValue(glyphs, source[start]), pos + |GlyphsText(glyphs)| + 1)
    ensures OccursAt(source, GlyphsText(glyphs), pos)
    ensures OccursAt(source, [source[start]], pos + |GlyphsText(glyphs)|)
    decreases |source| - pos
  {
    hide OccursAt, ScanString, ValidGlyph, ValidGlyphs, GlyphText, GlyphsText, GlyphValue, GlyphsValue;
    ScanStarts(source, start, pos);
    if source[pos] == source[start] {
      glyphs := [];
      NoGlyphs(source[start]);
    } else {
      var g := GlyphAt(source, start, pos);
      ScansGlyph(source, start, pos, g);
      var rest := DecodedStringIsSpelled(source, start, pos + |GlyphText(g)|);
      glyphs := [g] + rest;
      GlyphAhead(g, rest, source[start]);
      OccursTogether(source, GlyphText(g), GlyphsText(rest), pos);
    }
  }

  /** Two texts one after the other, seen as one and as two. */
  lemma OccursInTurn(source: Text, first: Text, second: Text, pos: nat)
    requires OccursAt(source, first + second, pos)
    ensures OccursAt(source, first, pos) && OccursAt(source, second, pos + |first|)
  {
    var both := source[pos..pos + |first + second|];
    assert both[..|first|] == first && both[|first|..] == second;
  }

  lemma OccursTogether(source: Text, first: Text, second: Text, pos: nat)
    requires OccursAt(source, first, pos) && OccursAt(source, second, pos + |first|)
    ensures OccursAt(source, first + second, pos)
  {
    assert source[pos..pos + |first + second|] ==
        source[pos..pos + |first|] + source[pos + |first|..pos + |first| + |second|];
  }

  // ----- One lexeme -----

  lemma {:induction false} DigitsEndAt(source: Text, pos: nat, end: nat)
    requires pos <= end <= |source|
    requires forall k :: pos <= k < end ==> IsDigit(source[k])
    requires end < |source| ==> !IsDigit(source[end])
    ensures DigitsEnd(source, pos) == end
    decreases end - pos
  {
    if pos < end {
      DigitsEndAt(source, pos + 1, end);
    }
  }

  lemma {:induction false} IdentifierEndAt(source: Text, pos: nat, end: nat)
    requires pos <= end <= |source|
    requires forall k :: pos <= k < end ==> IsIdentifierPart(source[k])
    requires end < |source| ==> !IsIdentifierPart(source[end])
    ensures IdentifierEnd(source, pos) == end
    decreases end - pos
  {
    if pos < end {
      IdentifierEndAt(source, pos + 1, end);
    }
  }

  lemma LexesQuoted(source: Text, pos: nat, s: Spelling)
    requires s.Quoted? && ValidSpelling(s) && OccursAt(source, SpellingText(s), pos)
    ensures source[pos] == s.quote
    ensures ScanString(source, pos, pos + 1) == Scanned(SpellingValue(s), pos + |SpellingText(s)|)
  {
    hide ScanString, GlyphsText;
    var quote, body := s.quote, GlyphsText(s.glyphs);
    assert SpellingText(s) == [quote] + (body + [quote]);
    OccursInTurn(source, [quote], body + [quote], pos);
    OccursInTurn(source, body, [quote], pos + 1);
    assert source[pos] == source[pos..pos + 1][0];
    DecodesSpelledString(source, pos, pos + 1, s.glyphs);
  }

  lemma LexesSpelling(source: Text, pos: nat, s: Spelling)
    requires ValidSpelling(s) && OccursAt(source, SpellingText(s), pos)
    requires EndsBefore(s, source[pos + |SpellingText(s)|..])
    ensures |SpellingText(s)| > 0 && !IsSpace(source[pos])
    ensures LexemeAt(source, pos) == Read(LexemeOf(s, pos))
  {
    var text := SpellingText(s);
    var end := pos + |text|;
    if s.Quoted? {
      LexesQuoted(source, pos, s);
    } else {
      assert source[pos..end] == text;
      assert forall k :: pos <= k < end ==> source[k] == text[k - pos];
      if s.Number? {
        DigitsEndAt(source, pos + 1, end);
      } else if s.Word? {
        IdentifierEndAt(source, pos + 1, end);
      }
    }
  }

  lemma QuotedIsSpelled(source: Text, pos: nat) returns (s: Spelling)
    requires pos < |source| && IsQuote(source[pos]) && ScanString(source, pos, pos + 1).Scanned?
    ensures s.Quoted? && ValidSpelling(s) && OccursAt(source, SpellingText(s), pos)
    ensures ScanString(source, pos, pos + 1) == Scanned(SpellingValue(s), pos + |SpellingText(s)|)
  {
    hide ScanString, GlyphsText;
    var quote := source[pos];
    var glyphs := DecodedStringIsSpelled(source, pos, pos + 1);
    s := Quoted(quote, glyphs);
    assert OccursAt(source, [quote], pos);
    OccursTogether(source, GlyphsText(glyphs), [quote], pos + 1);
    OccursTogether(source, [quote], GlyphsText(glyphs) + [quote], pos);
    assert SpellingText(s) == [quote] + (GlyphsText(glyphs) + [quote]);
  }

  lemma MarkIsSpelled(source: Text, pos: nat) returns (s: Spelling)
    requires pos < |source| && IsPunctuation(source[pos])
    ensures s == Mark(source[pos]) && ValidSpelling(s) && OccursAt(source, SpellingText(s), pos)
    ensures EndsBefore(s, source[pos + |SpellingText(s)|..])
  {
    s := Mark(source[pos]);
  }

  lemma NumberIsSpelled(source: Text, pos: nat) returns (s: Spelling)
    requires pos < |source| && IsDigit(source[pos])
    ensures s == Number(source[pos..DigitsEnd(source, pos + 1)])
    ensures ValidSpelling(s) && OccursAt(source, SpellingText(s), pos)
    ensures EndsBefore(s, source[pos + |SpellingText(s)|..])
  {
    DigitsEndBounds(source, pos + 1);
    s := Number(source[pos..DigitsEnd(source, pos + 1)]);
  }

  lemma WordIsSpelled(source: Text, pos: nat) returns (s: Spelling)
    requires pos < |source| && IsIdentifierStart(source[pos])
    ensures s == Word(source[pos..IdentifierEnd(source, pos + 1)])
    ensures ValidSpelling(s) && OccursAt(source, SpellingText(s), pos)
    ensures EndsBefore(s, source[pos + |SpellingText(s)|..])
  {
    IdentifierEndBounds(source, pos + 1);
    s := Word(source[pos..IdentifierEnd(source, pos + 1)]);
  }

  lemma LexemeIsSpelled(source: Text, pos: nat) returns (s: Spelling)
    requires pos < |source| && !IsSpace(source[pos])
    requires LexemeAt(source, pos).Read?
    ensures ValidSpelling(s) && OccursAt(source, SpellingText(s), pos)
    ensures EndsBefore(s, source[pos + |SpellingText(s)|..])
    ensures LexemeAt(source, pos) == Read(LexemeOf(s, pos))
  {
    hide ScanString, GlyphsText, ValidSpelling, OccursAt, DigitsEnd, IdentifierEnd;
    if IsPunctuation(source[pos]) {
      s := MarkIsSpelled(source, pos);
    } else if IsQuote(source[pos]) {
      s := QuotedIsSpelled(source, pos);
    } else if IsDigit(source[pos]) {
      s := NumberIsSpelled(source, pos);
    } else {
      s := WordIsSpelled(source, pos);
    }
  }

  // ----- Whole sources -----

  /** The rest of the source after the text it starts with. */
  lemma SourceAfter(source: Text, pos: nat, text: Text, rest: Text)
    requires pos <= |source| && source[pos..] == text + rest
    ensures OccursAt(source, text, pos) && source[pos + |text|..] == rest
  {
    assert source[pos..pos + |text|] == source[pos..][..|text|] == text;
    assert source[pos + |text|..] == source[pos..][|text|..] == rest;
  }

  lemma LexesBlank(source: Text, pos: nat, c: CodePoint, rest: Text, count: nat)
    requires pos <= |source| && source[pos..] == [c] + rest && IsSpace(c)
    ensures pos < |source| && source[pos + 1..] == rest
    ensures LexFrom(source, pos, count) == LexFrom(source, pos + 1, count)
  {
    SourceAfter(source, pos, [c], rest);
    assert source[pos] == source[pos..pos + 1][0] == c;
  }

  lemma LexesFirst(source: Text, pos: nat, s: Spelling, rest: Text, count: nat)
    requires pos <= |source| && source[pos..] == SpellingText(s) + rest
    requires ValidSpelling(s) && EndsBefore(s, rest)
    ensures var end := pos + |SpellingText(s)|;
            && pos < end <= |source| && source[end..] == rest
            && LexFrom(source, pos, count) ==
                 if count + 1 > MAX_EXPRESSION_TOKENS then LexError(TooManyTokens, pos)
                 else Before([LexemeOf(s, pos)], LexFrom(source, end, count + 1))
  {
    SourceAfter(source, pos, SpellingText(s), rest);
    LexesSpelling(source, pos, s);
  }

  /** Lexing a spelled source gives back its tokens. */
  lemma {:induction false} LexesSpelledSource(source: Text, pos: nat, row: Row, count: nat)
    requires pos <= |source| && source[pos..] == SourceText(row) && ValidRow(row)
    requires count + |LexemesOf(row, pos)| <= MAX_EXPRESSION_TOKENS
    ensures LexFrom(source, pos, count) == Lexed(LexemesOf(row, pos))
    decreases row
  {
    hide LexemeAt, SpellingText, ValidSpelling, EndsBefore;
    match row
    case End =>
    case Blank(c, rest) =>
      LexesBlank(source, pos, c, SourceText(rest), count);
      LexesSpelledSource(source, pos + 1, rest, count);
    case Spelled(s, rest) =>
      LexesFirst(source, pos, s, SourceText(rest), count);
      LexesSpelledSource(source, pos + |SpellingText(s)|, rest, count + 1);
  }

  lemma LexedRest(source: Text, pos: nat, count: nat)
    requires pos < |source| && !IsSpace(source[pos]) && LexFrom(source, pos, count).Lexed?
    ensures LexemeAt(source, pos).Read? && LexFrom(source, LexemeAt(source, pos).lexeme.end, count + 1).Lexed?
    ensures count < MAX_EXPRESSION_TOKENS
  {
  }

  /** The first token of a source the lexer accepts. */
  lemma LexedFirst(source: Text, pos: nat, count: nat) returns (s: Spelling)
    requires pos < |source| && !IsSpace(source[pos]) && LexFrom(source, pos, count).Lexed?
    ensures ValidSpelling(s) && |SpellingText(s)| > 0 && OccursAt(source, SpellingText(s), pos)
    ensures EndsBefore(s, source[pos + |SpellingText(s)|..])
    ensures LexFrom(source, pos + |SpellingText(s)|, count + 1).Lexed? && count < MAX_EXPRESSION_TOKENS
    ensures source[pos..] == SpellingText(s) + source[pos + |SpellingText(s)|..]
  {
    hide LexFrom;
    LexedRest(source, pos, count);
    s := LexemeIsSpelled(source, pos);
    var end := pos + |SpellingText(s)|;
    assert source[pos..] == source[pos..end] + source[end..];
  }

  lemma LexedBlank(source: Text, pos: nat, count: nat)
    requires pos < |source| && IsSpace(source[pos])
    ensures LexFrom(source, pos, count) == LexFrom(source, pos + 1, count)
    ensures source[pos..] == [source[pos]] + source[pos + 1..]
  {
  }

  /** Every source the lexer accepts is a spelled one. */
  lemma {:induction false} LexedSourceIsSpelled(source: Text, pos: nat, count: nat) returns (row: Row)
    requires pos <= |source| && LexFrom(source, pos, count).Lexed?
    requires count <= MAX_EXPRESSION_TOKENS
    ensures ValidRow(row) && source[pos..] == SourceText(row)
    ensures count + |LexemesOf(row, pos)| <= MAX_EXPRESSION_TOKENS
    decreases |source| - pos
  {
    hide LexFrom, SpellingText, ValidSpelling, EndsBefore;
    if pos == |source| {
      row := End;
    } else if IsSpace(source[pos]) {
      LexedBlank(source, pos, count);
      var rest := LexedSourceIsSpelled(source, pos + 1, count);
      row := Blank(source[pos], rest);
    } else {
      var s := LexedFirst(source, pos, count);
      var rest := LexedSourceIsSpelled(source, pos + |SpellingText(s)|, count + 1);
      row := Spelled(s, rest);
    }
  }

  /** A row the lexer reads in full. */
  predicate Spells(row: Row, source: Text) {
    ValidRow(row) && source == SourceText(row) && |LexemesOf(row, 0)| <= MAX_EXPRESSION_TOKENS
  }

  /**
   The lexer accepts exactly the spelled sources of at most 2,048 tokens, and
   returns exactly the spelled tokens, each at the position of its first
   character, and one final `Eof`.
   */
  lemma LexerExact(source: Text, origin: Position)
    ensures Tokens(source, origin).Ok? <==> exists row :: Spells(row, source)
    ensures forall row :: Spells(row, source) ==> LexFrom(source, 0, 0) == Lexed(LexemesOf(row, 0))
  {
    assert source[0..] == source;
    forall row | Spells(row, source)
      ensures LexFrom(source, 0, 0) == Lexed(LexemesOf(row, 0))
    {
      LexesSpelledSource(source, 0, row, 0);
    }
    if Tokens(source, origin).Ok? {
      var row := LexedSourceIsSpelled(source, 0, 0);
      assert Spells(row, source);
    }
  }
}
