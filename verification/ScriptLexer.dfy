/**
 The hand-written lexer. `LexFrom` says which lexemes a source has and where
 they start; `Tokenize` is the loop, which tracks line and column as it goes
 and is proved to place every token (and every error) at the position computed
 from the line breaks before it.
 */
module ScriptLexer {
  import opened Wrappers
  import opened Texts
  import opened ScriptSyntax

  /** A token still at its source range `[start, end)`. */
  datatype Lexeme = Lexeme(kind: TokenKind, value: Text, start: nat, end: nat)

  datatype Lexed = Lexed(lexemes: seq<Lexeme>) | LexError(kind: ErrorKind, offset: nat)

  datatype Read = Read(lexeme: Lexeme) | ReadError(kind: ErrorKind, offset: nat)

  datatype Scanned = Scanned(value: Text, end: nat) | ScanError(kind: ErrorKind, offset: nat)

  predicate IsIdentifierStart(c: CodePoint) {
    IsLetter(c) || c == 0x5F
  }

  predicate IsIdentifierPart(c: CodePoint) {
    IsIdentifierStart(c) || IsDigit(c) || c == 0x2E
  }

  predicate IsPunctuation(c: CodePoint) {
    c == 0x28 || c == 0x29 || c == 0x2C || c == 0x5B || c == 0x5D
  }

  function PunctuationKind(c: CodePoint): TokenKind
    requires IsPunctuation(c)
  {
    if c == 0x28 then OpenParen
    else if c == 0x29 then CloseParen
    else if c == 0x2C then Comma
    else if c == 0x5B then OpenBracket
    else CloseBracket
  }

  predicate IsHex(c: CodePoint) {
    IsDigit(c) || 0x41 <= c <= 0x46 || 0x61 <= c <= 0x66
  }

  function HexDigit(c: CodePoint): (n: nat)
    requires IsHex(c)
    ensures n < 16
  {
    if IsDigit(c) then c - 0x30 else if c <= 0x46 then c - 0x37 else c - 0x57
  }

  function HexValue(digits: Text): (c: CodePoint)
    requires |digits| == 4 && forall i :: 0 <= i < 4 ==> IsHex(digits[i])
  {
    HexDigit(digits[0]) * 0x1000 + HexDigit(digits[1]) * 0x100 + HexDigit(digits[2]) * 0x10 + HexDigit(digits[3])
  }

  /** The one-letter escapes; only the quote that opened the literal is among them. */
  function EscapeValue(letter: CodePoint, quote: CodePoint): Option<CodePoint> {
    if letter == 0x6E then Some(NEWLINE)
    else if letter == 0x72 then Some(RETURN)
    else if letter == 0x74 then Some(TAB)
    else if letter == BACKSLASH then Some(BACKSLASH)
    else if letter == quote then Some(quote)
    else None
  }

  /** The five escapes of a literal, and no others. */
  lemma EscapesExact(letter: CodePoint, quote: CodePoint)
    requires IsQuote(quote)
    ensures EscapeValue('n' as int, quote) == Some('\n' as int)
    ensures EscapeValue('r' as int, quote) == Some('\r' as int)
    ensures EscapeValue('t' as int, quote) == Some('\t' as int)
    ensures EscapeValue('\\' as int, quote) == Some('\\' as int)
    ensures EscapeValue(quote, quote) == Some(quote)
    ensures EscapeValue(letter, quote).Some? <==>
              letter in {'n' as int, 'r' as int, 't' as int, '\\' as int, quote}
  {
  }

  /** The hexadecimal digits, in either case, by their values. */
  lemma HexDigitsExact(c: CodePoint)
    ensures IsHex(c) <==> c in Chars("0123456789abcdefABCDEF")
    ensures forall k :: 0 <= k < 16 ==>
              && var digit := Chars("0123456789abcdef")[k]; IsHex(digit) && HexDigit(digit) == k
    ensures forall k :: 0 <= k < 16 ==>
              && var digit := Chars("0123456789ABCDEF")[k]; IsHex(digit) && HexDigit(digit) == k
  {
    hide Chars;
    HexLetters(c);
    forall k | 0 <= k < 16
      ensures var digit := Chars("0123456789abcdef")[k]; IsHex(digit) && HexDigit(digit) == k
      ensures var digit := Chars("0123456789ABCDEF")[k]; IsHex(digit) && HexDigit(digit) == k
    {
      HexDigitsAt(k);
    }
  }

  lemma HexDigitsAt(k: nat)
    requires k < 16
    ensures Chars("0123456789abcdef")[k] == if k < 10 then 0x30 + k else 0x57 + k
    ensures Chars("0123456789ABCDEF")[k] == if k < 10 then 0x30 + k else 0x37 + k
  {
  }

  lemma HexLetters(c: CodePoint)
    ensures IsHex(c) <==> c in Chars("0123456789abcdefABCDEF")
  {
    var all := Chars("0123456789abcdefABCDEF");
    if IsDigit(c) {
      assert all[c - 0x30] == c;
    } else if 0x61 <= c <= 0x66 {
      assert all[c - 0x57] == c;
    } else if 0x41 <= c <= 0x46 {
      assert all[c - 0x31] == c;
    }
  }

  /** The marks of the language by their tokens. */
  lemma MarksExact(c: CodePoint)
    ensures IsPunctuation(c) <==> c in Chars("(),[]")
    ensures forall k :: 0 <= k < 5 ==>
              && IsPunctuation(Chars("(),[]")[k])
              && PunctuationKind(Chars("(),[]")[k]) == [OpenParen, CloseParen, Comma, OpenBracket, CloseBracket][k]
  {
    assert Chars("(),[]") == [0x28, 0x29, 0x2C, 0x5B, 0x5D];
  }

  predicate IsQuote(c: CodePoint) {
    c == DOUBLE_QUOTE || c == SINGLE_QUOTE
  }

  /** The rest of a string literal whose opening quote is at `start`. */
  function ScanString(source: Text, start: nat, pos: nat): (r: Scanned)
    requires start < pos <= |source| && IsQuote(source[start])
    ensures r.Scanned? ==> pos < r.end <= |source|
    ensures r.ScanError? ==> start <= r.offset < |source|
    decreases |source| - pos
  {
    var quote := source[start];
    if pos == |source| then ScanError(UnclosedString, start)
    else if source[pos] == quote then Scanned([], pos + 1)
    else if source[pos] == RETURN || source[pos] == NEWLINE then ScanError(SpansLines, pos)
    else if source[pos] != BACKSLASH then Prefixed(source[pos], ScanString(source, start, pos + 1))
    else if pos + 1 == |source| then ScanError(EndsWithEscape, pos)
    else if source[pos + 1] == 0x75 then
      if pos + 6 <= |source| && forall k :: pos + 2 <= k < pos + 6 ==> IsHex(source[k])
      then Prefixed(HexValue(source[pos + 2..pos + 6]), ScanString(source, start, pos + 6))
      else ScanError(InvalidUnicodeEscape, pos)
    else
      match EscapeValue(source[pos + 1], quote)
      case None => ScanError(UnsupportedEscape, pos)
      case Some(c) => Prefixed(c, ScanString(source, start, pos + 2))
  }

  function Prefixed(c: CodePoint, s: Scanned): Scanned {
    match s
    case Scanned(value, end) => Scanned([c] + value, end)
    case ScanError(_, _) => s
  }

  function DigitsEnd(source: Text, pos: nat): (end: nat)
    requires pos <= |source|
    ensures pos <= end <= |source|
    decreases |source| - pos
  {
    if pos < |source| && IsDigit(source[pos]) then DigitsEnd(source, pos + 1) else pos
  }

  function IdentifierEnd(source: Text, pos: nat): (end: nat)
    requires pos <= |source|
    ensures pos <= end <= |source|
    decreases |source| - pos
  {
    if pos < |source| && IsIdentifierPart(source[pos]) then IdentifierEnd(source, pos + 1) else pos
  }

  lemma DigitsEndBounds(source: Text, pos: nat)
    requires pos <= |source|
    ensures forall k :: pos <= k < DigitsEnd(source, pos) ==> IsDigit(source[k])
    ensures DigitsEnd(source, pos) < |source| ==> !IsDigit(source[DigitsEnd(source, pos)])
    decreases |source| - pos
  {
  }

  lemma IdentifierEndBounds(source: Text, pos: nat)
    requires pos <= |source|
    ensures forall k :: pos <= k < IdentifierEnd(source, pos) ==> IsIdentifierPart(source[k])
    ensures IdentifierEnd(source, pos) < |source| ==> !IsIdentifierPart(source[IdentifierEnd(source, pos)])
    decreases |source| - pos
  {
  }

  /** The lexeme that starts at a character that is not blank. */
  function LexemeAt(source: Text, pos: nat): (r: Read)
    requires pos < |source| && !IsSpace(source[pos])
    ensures r.Read? ==> r.lexeme.start == pos < r.lexeme.end <= |source| && r.lexeme.kind != Eof
    ensures r.ReadError? ==> pos <= r.offset < |source|
  {
    var c := source[pos];
    if IsPunctuation(c) then Read(Lexeme(PunctuationKind(c), [c], pos, pos + 1))
    else if IsQuote(c) then
      match ScanString(source, pos, pos + 1)
      case ScanError(kind, offset) => ReadError(kind, offset)
      case Scanned(value, end) => Read(Lexeme(StringToken, value, pos, end))
    else if IsDigit(c) then
      var end := DigitsEnd(source, pos + 1);
      Read(Lexeme(IntegerToken, source[pos..end], pos, end))
    else if IsIdentifierStart(c) then
      var end := IdentifierEnd(source, pos + 1);
      Read(Lexeme(IdentifierToken, source[pos..end], pos, end))
    else ReadError(UnexpectedCharacter, pos)
  }

  /** All lexemes from `pos` on, when `count` were read before. */
  function LexFrom(source: Text, pos: nat, count: nat): (r: Lexed)
    requires pos <= |source|
    ensures r.LexError? ==> r.offset < |source|
    decreases |source| - pos
  {
    if pos == |source| then Lexed([])
    else if IsSpace(source[pos]) then LexFrom(source, pos + 1, count)
    else
      match LexemeAt(source, pos)
      case ReadError(kind, offset) => LexError(kind, offset)
      case Read(lexeme) =>
        if count + 1 > MAX_EXPRESSION_TOKENS then LexError(TooManyTokens, pos)
        else Before([lexeme], LexFrom(source, lexeme.end, count + 1))
  }

  /** Lexemes lie inside the source, and none of them is an `Eof`. */
  predicate Inside(source: Text, lexemes: seq<Lexeme>) {
    forall i :: 0 <= i < |lexemes| ==> lexemes[i].start <= |source| && lexemes[i].kind != Eof
  }

  lemma {:induction false} LexemesInside(source: Text, pos: nat, count: nat)
    requires pos <= |source| && LexFrom(source, pos, count).Lexed?
    ensures Inside(source, LexFrom(source, pos, count).lexemes)
    decreases |source| - pos
  {
    if pos < |source| {
      if IsSpace(source[pos]) {
        LexemesInside(source, pos + 1, count);
      } else {
        LexemesInside(source, LexemeAt(source, pos).lexeme.end, count + 1);
      }
    }
  }

  function Before(lexemes: seq<Lexeme>, rest: Lexed): (r: Lexed)
    ensures r.LexError? ==> r == rest
  {
    match rest
    case Lexed(more) => Lexed(lexemes + more)
    case LexError(_, _) => rest
  }

  /** A lexeme as the token at the position its offset has. */
  function Place(source: Text, origin: Position, lexeme: Lexeme): Token
    requires lexeme.start <= |source|
  {
    Token(lexeme.kind, lexeme.value, PositionAt(source, origin, lexeme.start))
  }

  function PlaceAll(source: Text, origin: Position, lexemes: seq<Lexeme>): (r: seq<Token>)
    requires Inside(source, lexemes)
    ensures |r| == |lexemes|
    ensures forall i :: 0 <= i < |r| ==> r[i] == Place(source, origin, lexemes[i])
  {
    seq(|lexemes|, i requires 0 <= i < |lexemes| => Place(source, origin, lexemes[i]))
  }

  /** The token sequence of a source: its placed lexemes and one final `Eof`. */
  function Tokens(source: Text, origin: Position): (r: Result<seq<Token>>)
    ensures r.Ok? ==> Terminated(r.value)
  {
    match LexFrom(source, 0, 0)
    case LexError(kind, offset) => Err(ScriptError(kind, PositionAt(source, origin, offset)))
    case Lexed(lexemes) =>
      LexemesInside(source, 0, 0);
      Ok(PlaceAll(source, origin, lexemes) + [Token(Eof, [], PositionAt(source, origin, |source|))])
  }

  /** `Eof` ends the sequence and occurs nowhere else. */
  predicate Terminated(tokens: seq<Token>) {
    && tokens != []
    && tokens[|tokens| - 1].kind == Eof
    && forall i :: 0 <= i < |tokens| - 1 ==> tokens[i].kind != Eof
  }

  lemma ScanStringError(source: Text, start: nat, pos: nat)
    requires start < pos <= |source| && IsQuote(source[start])
    requires ScanString(source, start, pos).ScanError?
    ensures ScanString(source, start, pos).offset == start || pos <= ScanString(source, start, pos).offset
    ensures forall k :: pos <= k < ScanString(source, start, pos).offset ==> source[k] != NEWLINE
    decreases |source| - pos
  {
  }

  lemma ScannedOnOneLine(source: Text, start: nat, pos: nat)
    requires start < pos <= |source| && IsQuote(source[start])
    requires ScanString(source, start, pos).Scanned?
    ensures forall k :: pos <= k < ScanString(source, start, pos).end ==> source[k] != NEWLINE
    decreases |source| - pos
  {
  }

  /** No lexeme crosses a line, and an error is reported on the line of its lexeme. */
  lemma LexemeStaysOnLine(source: Text, pos: nat)
    requires pos < |source| && !IsSpace(source[pos])
    ensures var r := LexemeAt(source, pos);
            forall k :: pos <= k < (if r.Read? then r.lexeme.end else r.offset) ==> source[k] != NEWLINE
  {
    if IsQuote(source[pos]) {
      if ScanString(source, pos, pos + 1).ScanError? {
        ScanStringError(source, pos, pos + 1);
      } else {
        ScannedOnOneLine(source, pos, pos + 1);
      }
    } else if IsDigit(source[pos]) {
      DigitsEndBounds(source, pos + 1);
    } else if IsIdentifierStart(source[pos]) {
      IdentifierEndBounds(source, pos + 1);
    }
  }

  /** A lexeme moves the column by its length, and an error in it is on the same line. */
  lemma LexemeMovesColumn(source: Text, origin: Position, pos: nat)
    requires pos < |source| && !IsSpace(source[pos])
    ensures var r := LexemeAt(source, pos);
            var reached := if r.Read? then r.lexeme.end else r.offset;
            var here := PositionAt(source, origin, pos);
            PositionAt(source, origin, reached) == Position(here.line, here.column + (reached - pos))
  {
    var r := LexemeAt(source, pos);
    LexemeStaysOnLine(source, pos);
    PositionSkip(source, origin, pos, (if r.Read? then r.lexeme.end else r.offset) - pos);
  }

  /** The string loop: decodes escapes and tracks the position it has reached. */
  method DecodeString(source: Text, start: nat, at: Position)
    returns (r: Result<Text>, end: nat, reached: Position)
    requires start < |source| && IsQuote(source[start])
    ensures match ScanString(source, start, start + 1)
            case Scanned(value, stop) =>
              && r == Ok(value) && end == stop
              && reached == Position(at.line, at.column + (stop - start))
            case ScanError(kind, offset) =>
              r == Err(ScriptError(kind, Position(at.line, at.column + (offset - start))))
  {
    var quote := source[start];
    var position := start + 1;
    var column := at.column + 1;
    var result: Text := [];
    end, reached := start, at;
    while position < |source|
      invariant start < position <= |source|
      invariant column == at.column + (position - start)
      invariant match ScanString(source, start, position)
                case Scanned(value, stop) => ScanString(source, start, start + 1) == Scanned(result + value, stop)
                case ScanError(_, _) => ScanString(source, start, start + 1) == ScanString(source, start, position)
    {
      var c := source[position];
      if c == quote {
        assert result + [] == result;
        return Ok(result), position + 1, Position(at.line, column + 1);
      }
      if c == RETURN || c == NEWLINE {
        return Err(ScriptError(SpansLines, Position(at.line, column))), end, reached;
      }
      if c != BACKSLASH {
        assert forall rest: Text :: result + ([c] + rest) == (result + [c]) + rest;
        result := result + [c];
        position := position + 1;
        column := column + 1;
        continue;
      }
      if position + 1 >= |source| {
        return Err(ScriptError(EndsWithEscape, Position(at.line, column))), end, reached;
      }
      var escaped := source[position + 1];
      if escaped == 0x75 {
        if position + 6 > |source| || exists k :: position + 2 <= k < position + 6 && !IsHex(source[k]) {
          return Err(ScriptError(InvalidUnicodeEscape, Position(at.line, column))), end, reached;
        }
        var value := HexValue(source[position + 2..position + 6]);
        assert forall rest: Text :: result + ([value] + rest) == (result + [value]) + rest;
        result := result + [value];
        position := position + 6;
        column := column + 6;
        continue;
      }
      var replacement := EscapeValue(escaped, quote);
      if replacement == None {
        return Err(ScriptError(UnsupportedEscape, Position(at.line, column))), end, reached;
      }
      assert forall rest: Text :: result + ([replacement.value] + rest) == (result + [replacement.value]) + rest;
      result := result + [replacement.value];
      position := position + 2;
      column := column + 2;
    }
    r := Err(ScriptError(UnclosedString, at));
  }

  /** One step of the lexer loop at a character that is not blank. */
  method ReadToken(source: Text, position: nat, here: Position)
    returns (r: Result<Token>, next: nat, reached: Position)
    requires position < |source| && !IsSpace(source[position])
    ensures match LexemeAt(source, position)
            case Read(lexeme) =>
              && r == Ok(Token(lexeme.kind, lexeme.value, here)) && next == lexeme.end
              && reached == Position(here.line, here.column + (next - position))
            case ReadError(kind, offset) =>
              r == Err(ScriptError(kind, Position(here.line, here.column + (offset - position))))
  {
    var c := source[position];
    if IsPunctuation(c) {
      next := position + 1;
      r := Ok(Token(PunctuationKind(c), [c], here));
      reached := Position(here.line, here.column + 1);
    } else if IsQuote(c) {
      var value: Result<Text>;
      value, next, reached := DecodeString(source, position, here);
      if value.Err? {
        return Err(value.error), next, reached;
      }
      r := Ok(Token(StringToken, value.value, here));
    } else if IsDigit(c) {
      next := position + 1;
      while next < |source| && IsDigit(source[next])
        invariant position < next <= |source|
        invariant DigitsEnd(source, position + 1) == DigitsEnd(source, next)
      {
        next := next + 1;
      }
      r := Ok(Token(IntegerToken, source[position..next], here));
      reached := Position(here.line, here.column + (next - position));
    } else if IsIdentifierStart(c) {
      next := IdentifierEnd(source, position + 1);
      r := Ok(Token(IdentifierToken, source[position..next], here));
      reached := Position(here.line, here.column + (next - position));
    } else {
      r, next, reached := Err(ScriptError(UnexpectedCharacter, here)), position, here;
    }
  }

  /** The lexer loop. */
  method Tokenize(source: Text, origin: Position) returns (r: Result<seq<Token>>)
    ensures r == Tokens(source, origin)
  {
    hide LexFrom, LexemeAt, PositionAt, Place, PlaceAll, Inside, Before, IsSpace, Terminated;
    var tokens: seq<Token> := [];
    ghost var lexemes: seq<Lexeme> := [];
    var position := 0;
    var here := origin;
    ghost var all := LexFrom(source, 0, 0);
    LexStarts(source, origin);
    while position < |source|
      invariant position <= |source|
      invariant here == PositionAt(source, origin, position)
      invariant Inside(source, lexemes) && |tokens| == |lexemes| && tokens == PlaceAll(source, origin, lexemes)
      invariant all == Before(lexemes, LexFrom(source, position, |tokens|))
      decreases |source| - position
    {
      var c := source[position];
      LexStep(source, position, |tokens|);
      if IsSpace(c) {
        PositionNext(source, origin, position);
        here := if c == NEWLINE then Position(here.line + 1, 1) else Position(here.line, here.column + 1);
        position := position + 1;
        continue;
      }
      var token, next, reached := ReadToken(source, position, here);
      LexemeMovesColumn(source, origin, position);
      if token.Err? {
        ErrorStays(lexemes, LexemeAt(source, position).kind, LexemeAt(source, position).offset);
        return Err(token.error);
      }
      if |tokens| + 1 > MAX_EXPRESSION_TOKENS {
        ErrorStays(lexemes, TooManyTokens, position);
        return Err(ScriptError(TooManyTokens, here));
      }
      ghost var lexeme := LexemeAt(source, position).lexeme;
      BeforeTwice(lexemes, lexeme, LexFrom(source, next, |tokens| + 1));
      PlaceMore(source, origin, lexemes, lexeme, here);
      tokens := tokens + [token.value];
      lexemes := lexemes + [lexeme];
      position, here := next, reached;
    }
    LexEnds(source, lexemes, |tokens|);
    tokens := tokens + [Token(Eof, [], here)];
    r := Ok(tokens);
  }

  lemma LexStarts(source: Text, origin: Position)
    ensures PositionAt(source, origin, 0) == origin && Inside(source, []) && PlaceAll(source, origin, []) == []
    ensures LexFrom(source, 0, 0) == Before([], LexFrom(source, 0, 0))
  {
    hide LexFrom;
    var all := LexFrom(source, 0, 0);
    assert all.Lexed? ==> [] + all.lexemes == all.lexemes;
  }

  /** What the lexer does at one character. */
  lemma LexStep(source: Text, pos: nat, count: nat)
    requires pos < |source|
    ensures IsSpace(source[pos]) ==> LexFrom(source, pos, count) == LexFrom(source, pos + 1, count)
    ensures !IsSpace(source[pos]) ==>
              match LexemeAt(source, pos)
              case ReadError(kind, offset) => LexFrom(source, pos, count) == LexError(kind, offset)
              case Read(lexeme) =>
                if count + 1 > MAX_EXPRESSION_TOKENS then LexFrom(source, pos, count) == LexError(TooManyTokens, pos)
                else LexFrom(source, pos, count) == Before([lexeme], LexFrom(source, lexeme.end, count + 1))
  {
    hide LexemeAt, IsSpace;
  }

  lemma LexEnds(source: Text, lexemes: seq<Lexeme>, count: nat)
    ensures Before(lexemes, LexFrom(source, |source|, count)) == Lexed(lexemes)
  {
    assert lexemes + [] == lexemes;
  }

  lemma ErrorStays(lexemes: seq<Lexeme>, kind: ErrorKind, offset: nat)
    ensures Before(lexemes, LexError(kind, offset)) == LexError(kind, offset)
  {
  }

  lemma PlaceMore(source: Text, origin: Position, lexemes: seq<Lexeme>, lexeme: Lexeme, here: Position)
    requires Inside(source, lexemes) && lexeme.start <= |source| && lexeme.kind != Eof
    requires here == PositionAt(source, origin, lexeme.start)
    ensures Inside(source, lexemes + [lexeme])
    ensures PlaceAll(source, origin, lexemes + [lexeme])
         == PlaceAll(source, origin, lexemes) + [Token(lexeme.kind, lexeme.value, here)]
  {
    hide PositionAt;
  }

  lemma BeforeTwice(lexemes: seq<Lexeme>, lexeme: Lexeme, rest: Lexed)
    ensures Before(lexemes, Before([lexeme], rest)) == Before(lexemes + [lexeme], rest)
  {
    if rest.Lexed? {
      assert lexemes + ([lexeme] + rest.lexemes) == (lexemes + [lexeme]) + rest.lexemes;
    }
  }
}
