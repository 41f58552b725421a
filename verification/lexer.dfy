/** The lexer (CompilerCore/Lexer/Lexer.swift): turns source text into a
    token stream, tracking the line and column of every token.

    The character sets the lexer consults (`CharacterSet.numberSet`,
    `CharacterSet.identifierSet`) and the `Double` parser are defined
    outside the modelled files; they are the `CharClasses` parameter. The loops of
    the source are recursive functions over a lexer state that pairs the
    character scanner with the current position. */
module Lexer {
  import opened Results
  import opened Tokens
  import Scanners

  /** Character classes and the floating-point reader the lexer depends on. */
  datatype CharClasses = CharClasses(
    isNumber: char -> bool,
    isIdentifier: char -> bool,
    parsesAsFloat: string -> bool)

  datatype LexError =
    | UnexpectedEndOfSource
    | InvalidNumericToken(text: string, mark: Mark)
    | UnexpectedCharacterEncountered(character: char, mark: Mark)

  /** The characters with the Unicode White_Space property
      (Swift's `Character.isWhitespace`). */
  predicate IsWhitespace(c: char)
  {
    c == ' ' || ('\t' <= c <= '\r') || c == '\U{85}' || c == '\U{A0}'
    || c == '\U{1680}' || ('\U{2000}' <= c <= '\U{200A}')
    || c == '\U{2028}' || c == '\U{2029}' || c == '\U{202F}'
    || c == '\U{205F}' || c == '\U{3000}'
  }

  /** Swift's `Character.isNewline`. */
  predicate IsNewline(c: char)
  {
    ('\n' <= c <= '\r') || c == '\U{85}' || c == '\U{2028}' || c == '\U{2029}'
  }

  /** What the lexer skips between tokens (whitespace, newlines included). */
  predicate IsSpace(c: char)
  {
    IsWhitespace(c) || IsNewline(c)
  }

  predicate NotNewline(c: char)
  {
    !IsNewline(c)
  }

  predicate NotQuote(c: char)
  {
    [c] != StringSuffix
  }

  /** The characters a numeric literal is read from: digits of the number
      set and the decimal point. */
  function NumberPart(cc: CharClasses): char -> bool
  {
    c => cc.isNumber(c) || c == '.'
  }

  const CommentPrefix: string := "//"

  // ---------------------------------------------------------------------
  // Source positions

  /** Zero-based line and column. */
  datatype Position = Position(line: nat, offset: nat)

  const Start: Position := Position(0, 0)

  /** Only a line feed starts a new line; every other character, including
      the other newline characters, moves one column on. */
  function Handle(p: Position, c: char): Position
  {
    if c == '\n' then Position(p.line + 1, 0) else Position(p.line, p.offset + 1)
  }

  function HandleAll(p: Position, s: string): Position
    decreases |s|
  {
    if s == [] then p else Handle(HandleAll(p, s[..|s| - 1]), s[|s| - 1])
  }

  /** The mark of the character at index `i`. */
  function MarkAt(input: string, i: nat): Mark
    requires i <= |input|
  {
    var p := HandleAll(Start, input[..i]);
    At(p.line, p.offset)
  }

  lemma {:induction false} HandleAllAppend(p: Position, a: string, b: string)
    ensures HandleAll(p, a + b) == HandleAll(HandleAll(p, a), b)
    decreases |b|
  {
    if b == [] {
      assert a + b == a;
    } else {
      var b' := b[..|b| - 1];
      assert (a + b)[..|a + b| - 1] == a + b';
      assert (a + b)[|a + b| - 1] == b[|b| - 1];
      HandleAllAppend(p, a, b');
    }
  }

  /** The line after a text is the number of line feeds in it. */
  lemma {:induction false} LinesCounted(a: string)
    ensures HandleAll(Start, a).line == multiset(a)['\n']
    decreases |a|
  {
    if a != [] {
      var a' := a[..|a| - 1];
      assert a == a' + [a[|a| - 1]];
      LinesCounted(a');
    }
  }

  /** A text without line feeds stays on the first line, one column per
      character. */
  lemma {:induction false} ColumnsCounted(b: string)
    requires forall k :: 0 <= k < |b| ==> b[k] != '\n'
    ensures HandleAll(Start, b) == Position(0, |b|)
    decreases |b|
  {
    if b != [] {
      ColumnsCounted(b[..|b| - 1]);
    }
  }

  /** The position after a text: its line is the number of line feeds in it,
      and its column is the number of characters after the last line feed. */
  lemma PositionCounts(a: string, b: string)
    requires forall k :: 0 <= k < |b| ==> b[k] != '\n'
    ensures HandleAll(Start, a + "\n" + b) == Position(multiset(a)['\n'] + 1, |b|)
  {
    LinesCounted(a);
    HandleAllAppend(Start, a, "\n");
    assert (a + "\n")[..|a|] == a;
    HandleAllAppend(Start, a + "\n", b);
    AfterLineFeed(Position(multiset(a)['\n'] + 1, 0), b);
  }

  /** From the start of a line, a text without line feeds moves one column
      per character. */
  lemma {:induction false} AfterLineFeed(p: Position, b: string)
    requires p.offset == 0
    requires forall k :: 0 <= k < |b| ==> b[k] != '\n'
    ensures HandleAll(p, b) == Position(p.line, |b|)
    decreases |b|
  {
    if b != [] {
      AfterLineFeed(p, b[..|b| - 1]);
    }
  }

  // ---------------------------------------------------------------------
  // Lexer state and character consumption

  datatype LexState = LexState(sc: Scanners.Scanner<char>, at: Position)

  /** The tracked position is that of the scanner's index. */
  predicate Tracked(st: LexState)
  {
    st.at == HandleAll(Start, st.sc.input[..st.sc.index])
  }

  function Init(input: string): (st: LexState)
    ensures Tracked(st) && st.sc.input == input && st.sc.index == 0
  {
    LexState(Scanners.Init(input), Start)
  }

  /** advance(by:): the next `n` characters are accounted for in the
      position; the character at the old index is returned. Too few
      characters left is the thrown `unexpectedEndOfSource`. */
  function Advance(st: LexState, n: nat): (r: Outcome<(char, LexState), LexError>)
    ensures n > 0 ==> !r.Abort?
    ensures n > 0 ==> (r.Ok? <==> st.sc.index + n <= |st.sc.input|)
    ensures r.Fail? ==> r.error == UnexpectedEndOfSource
    ensures r.Ok? ==> r.value.1.sc.input == st.sc.input && r.value.1.sc.index == st.sc.index + n
    ensures r.Ok? ==> st.sc.index < |st.sc.input| && r.value.0 == st.sc.input[st.sc.index]
    ensures r.Ok? && Tracked(st) ==> Tracked(r.value.1)
  {
    match Scanners.PeekCollection(st.sc, n)
    case None => Fail(UnexpectedEndOfSource)
    case Some(text) =>
      match Scanners.Advance(st.sc, n)
      case None => Abort
      case Some((c, sc)) =>
        var i := st.sc.index;
        assert st.sc.input[..i + n] == st.sc.input[..i] + text;
        HandleAllAppend(Start, st.sc.input[..i], text);
        Ok((c, LexState(sc, HandleAll(st.at, text))))
  }

  /** The end of the longest run of characters satisfying `p` from `i`. */
  function Run(input: string, i: nat, p: char -> bool): (r: nat)
    requires i <= |input|
    ensures i <= r <= |input|
    ensures forall k :: i <= k < r ==> p(input[k])
    ensures r < |input| ==> !p(input[r])
    decreases |input| - i
  {
    if i < |input| && p(input[i]) then Run(input, i + 1, p) else i
  }

  /** The `while let c = peek(), p(c) { advance() }` loops: consume the
      longest run satisfying `p`, returning its text. */
  function ConsumeWhile(st: LexState, p: char -> bool): (r: (string, LexState))
    requires Tracked(st)
    ensures Tracked(r.1) && r.1.sc.input == st.sc.input
    ensures r.1.sc.index == Run(st.sc.input, st.sc.index, p)
    ensures r.0 == st.sc.input[st.sc.index..r.1.sc.index]
    decreases |st.sc.input| - st.sc.index
  {
    var c := Scanners.Peek(st.sc, 0);
    if c.Some? && p(c.value) then
      var next := Advance(st, 1).value;
      var (text, end) := ConsumeWhile(next.1, p);
      assert [next.0] + text == st.sc.input[st.sc.index..end.sc.index];
      ([next.0] + text, end)
    else
      ([], st)
  }

  // ---------------------------------------------------------------------
  // Integer literals

  const IntMin: int := -0x8000_0000_0000_0000
  const IntMax: int := 0x7FFF_FFFF_FFFF_FFFF

  predicate IsDigit(c: char)
  {
    '0' <= c <= '9'
  }

  predicate AllDigits(s: string)
  {
    forall k :: 0 <= k < |s| ==> IsDigit(s[k])
  }

  function DigitsValue(s: string): nat
    requires AllDigits(s)
  {
    if s == [] then 0
    else DigitsValue(s[..|s| - 1]) * 10 + (s[|s| - 1] as int - '0' as int)
  }

  /** Swift's `Int(String)`: an optional sign, then at least one decimal
      digit and nothing else, in the 64-bit range. */
  function ParseInt(s: string): (r: Option<int>)
    ensures r.Some? ==> IntMin <= r.value <= IntMax
    ensures r.Some? ==> exists k :: 0 <= k < |s| && IsDigit(s[k])
    ensures s != [] && AllDigits(s) ==>
      r == if DigitsValue(s) <= IntMax then Some(DigitsValue(s)) else None
    ensures |s| > 1 && s[0] == '+' && AllDigits(s[1..]) ==>
      r == if DigitsValue(s[1..]) <= IntMax then Some(DigitsValue(s[1..])) else None
    ensures |s| > 1 && s[0] == '-' && AllDigits(s[1..]) ==>
      r == if DigitsValue(s[1..]) <= -IntMin then Some(-(DigitsValue(s[1..]) as int)) else None
    ensures (exists k :: 0 <= k < |s| && !IsDigit(s[k]) && (k > 0 || (s[0] != '+' && s[0] != '-'))) ==> r.None?
    ensures |s| <= 1 && (s == [] || !IsDigit(s[0])) ==> r.None?
  {
    var signed := |s| > 0 && (s[0] == '+' || s[0] == '-');
    var digits := if signed then s[1..] else s;
    if digits == [] || !AllDigits(digits) then None
    else
      assert IsDigit(s[|s| - 1]);
      var magnitude: int := DigitsValue(digits);
      var v := if signed && s[0] == '-' then -magnitude else magnitude;
      if IntMin <= v <= IntMax then Some(v) else None
  }

  /** The decimal spelling of a natural number. */
  function Decimal(n: nat): (r: string)
    ensures r != [] && AllDigits(r)
  {
    if n < 10 then ['0' + n as char]
    else Decimal(n / 10) + ['0' + (n % 10) as char]
  }

  lemma {:induction false} DecimalValue(n: nat)
    ensures DigitsValue(Decimal(n)) == n
  {
    if n >= 10 {
      DecimalValue(n / 10);
      var r := Decimal(n);
      assert r[..|r| - 1] == Decimal(n / 10);
    }
  }

  /** Round trip: every non-negative `Int` is read back from its spelling. */
  lemma ParseDecimal(n: nat)
    requires n <= IntMax
    ensures ParseInt(Decimal(n)) == Some(n)
  {
    DecimalValue(n);
  }

  // ---------------------------------------------------------------------
  // Consumers

  /** consumeComment(): skip to the next newline character and past it.
      Running out of input before a newline is an error. */
  function ConsumeComment(st: LexState): (r: Outcome<LexState, LexError>)
    requires Tracked(st)
    ensures !r.Abort?
    ensures var e := Run(st.sc.input, st.sc.index, NotNewline);
      && (r.Ok? <==> e < |st.sc.input|)
      && (r.Ok? ==> Tracked(r.value) && r.value.sc.input == st.sc.input && r.value.sc.index == e + 1)
      && (r.Fail? ==> r.error == UnexpectedEndOfSource)
  {
    var (_, st1) := ConsumeWhile(st, NotNewline);
    var adv :- Advance(st1, 1);
    Ok(adv.1)
  }

  /** consumeString(), called after the opening quote: the text up to the
      closing quote, which is consumed too. */
  function ConsumeString(st: LexState, mark: Mark): (r: Outcome<(Token, LexState), LexError>)
    requires Tracked(st)
    ensures !r.Abort?
    ensures var e := Run(st.sc.input, st.sc.index, NotQuote);
      && (r.Ok? <==> e < |st.sc.input|)
      && (r.Ok? ==>
            && st.sc.input[e] == '"'
            && r.value.0 == StringLit(st.sc.input[st.sc.index..e], mark)
            && Tracked(r.value.1) && r.value.1.sc.input == st.sc.input
            && r.value.1.sc.index == e + 1)
      && (r.Fail? ==> r.error == UnexpectedEndOfSource)
  {
    var (text, st1) := ConsumeWhile(st, NotQuote);
    var adv :- Advance(st1, 1);
    Ok((StringLit(text, mark), adv.1))
  }

  /** consumeNumber(): the longest run of number characters and points,
      read as an `Int` if possible, else as a `Double`, else an error. */
  function ConsumeNumber(cc: CharClasses, st: LexState, mark: Mark): (r: Outcome<(Token, LexState), LexError>)
    requires Tracked(st)
    ensures !r.Abort?
    ensures var e := Run(st.sc.input, st.sc.index, NumberPart(cc));
      var text := st.sc.input[st.sc.index..e];
      && (r.Ok? ==> Tracked(r.value.1) && r.value.1.sc.input == st.sc.input && r.value.1.sc.index == e)
      && (ParseInt(text).Some? ==> r.Ok? && r.value.0 == IntegerLit(ParseInt(text).value, text, mark))
      && (ParseInt(text).None? && cc.parsesAsFloat(text) ==> r.Ok? && r.value.0 == FloatLit(text, mark))
      && (ParseInt(text).None? && !cc.parsesAsFloat(text) ==> r == Fail(InvalidNumericToken(text, mark)))
  {
    var (text, st1) := ConsumeWhile(st, NumberPart(cc));
    match ParseInt(text)
    case Some(v) => Ok((IntegerLit(v, text, mark), st1))
    case None =>
      if cc.parsesAsFloat(text) then Ok((FloatLit(text, mark), st1))
      else Fail(InvalidNumericToken(text, mark))
  }

  /** consumeIdentifier(): the longest run of identifier characters. */
  function ConsumeIdentifier(cc: CharClasses, st: LexState, mark: Mark): (r: (Token, LexState))
    requires Tracked(st)
    ensures var e := Run(st.sc.input, st.sc.index, cc.isIdentifier);
      && r.0 == Identifier(st.sc.input[st.sc.index..e], mark)
      && Tracked(r.1) && r.1.sc.input == st.sc.input && r.1.sc.index == e
  {
    var (text, st1) := ConsumeWhile(st, cc.isIdentifier);
    (Identifier(text, mark), st1)
  }

  // ---------------------------------------------------------------------
  // The analysis loop

  /** The kinds of token the lexer produces: it never produces keywords or
      symbols. */
  predicate IsLexical(t: Token)
  {
    t.StringLit? || t.IntegerLit? || t.FloatLit? || t.Identifier?
  }

  /** A token together with the index of its first character. */
  datatype Lexeme = Lexeme(token: Token, start: nat)

  function End(l: Lexeme): nat
  {
    l.start + Length(l.token)
  }

  /** The token's spelling is exactly the input text at its place, and its
      mark is the position of its first character. */
  predicate Placed(input: string, l: Lexeme)
  {
    End(l) <= |input| && input[l.start..End(l)] == Spelling(l.token)
    && l.token.mark == MarkAt(input, l.start)
  }

  /** Every lexeme is placed, lexical and ends by `bound`; lexemes appear in
      input order without overlapping. */
  predicate AllPlaced(input: string, ls: seq<Lexeme>, bound: nat)
  {
    && (forall i :: 0 <= i < |ls| ==> Placed(input, ls[i]) && IsLexical(ls[i].token) && End(ls[i]) <= bound)
    && (forall i, j :: 0 <= i < j < |ls| ==> End(ls[i]) <= ls[j].start)
  }

  /** The first index at or after `i` that is not skippable space. */
  function TokenStart(input: string, i: nat): nat
    requires i <= |input|
  {
    Run(input, i, IsSpace)
  }

  /** One pass of the `while scanner.available` loop: skip space, then read
      a comment (no token), a string, a number or an identifier. Any other
      character is an error, reported with its mark; space that runs to the
      end of the input fails when `advance` finds nothing to read. */
  function Iteration(cc: CharClasses, st: LexState): (r: Outcome<(Option<Token>, LexState), LexError>)
    requires Tracked(st) && Scanners.Available(st.sc)
    ensures !r.Abort?
    ensures r.Ok? ==> Tracked(r.value.1) && r.value.1.sc.input == st.sc.input
                      && r.value.1.sc.index > st.sc.index
    ensures var input := st.sc.input;
      var s := TokenStart(input, st.sc.index);
      && (r.Ok? && r.value.0.Some? ==>
            Placed(input, Lexeme(r.value.0.value, s)) && IsLexical(r.value.0.value)
            && r.value.1.sc.index == s + Length(r.value.0.value))
      && (r.Ok? && r.value.0.None? ==> s + 2 <= |input| && input[s..s + 2] == CommentPrefix)
      && (s == |input| ==> r == Fail(UnexpectedEndOfSource))
      && (s < |input| && !IsQuoteOrComment(input, s) && !cc.isNumber(input[s]) && !cc.isIdentifier(input[s]) ==>
            r == Fail(UnexpectedCharacterEncountered(input[s], MarkAt(input, s))))
  {
    var (_, st1) := ConsumeWhile(st, IsSpace);
    ReadToken(cc, st1)
  }

  /** The body of the loop after the space is skipped: the branches are
      tried in the order comment, string, number, identifier. */
  function ReadToken(cc: CharClasses, st: LexState): (r: Outcome<(Option<Token>, LexState), LexError>)
    requires Tracked(st)
    ensures !r.Abort?
    ensures r.Ok? ==> Tracked(r.value.1) && r.value.1.sc.input == st.sc.input
                      && r.value.1.sc.index > st.sc.index
    ensures var input := st.sc.input;
      var s := st.sc.index;
      && (r.Ok? && r.value.0.Some? ==>
            Placed(input, Lexeme(r.value.0.value, s)) && IsLexical(r.value.0.value)
            && r.value.1.sc.index == s + Length(r.value.0.value))
      && (r.Ok? && r.value.0.None? ==> s + 2 <= |input| && input[s..s + 2] == CommentPrefix)
      && (s == |input| ==> r == Fail(UnexpectedEndOfSource))
      && (s < |input| && !IsQuoteOrComment(input, s) && !cc.isNumber(input[s]) && !cc.isIdentifier(input[s]) ==>
            r == Fail(UnexpectedCharacterEncountered(input[s], MarkAt(input, s))))
  {
    var mark := Mark.At(st.at.line, st.at.offset);
    var peek := Scanners.Peek(st.sc, 0);
    if Scanners.PeekCollection(st.sc, |CommentPrefix|) == Some(CommentPrefix) then
      ReadComment(st)
    else if Scanners.PeekCollection(st.sc, |StringPrefix|) == Some(StringPrefix) then
      ReadString(st, mark)
    else ReadWord(cc, st, mark)
  }

  /** The remaining branches: a number, an identifier, or a character no
      token starts with, which is taken and reported at `mark`. */
  function ReadWord(cc: CharClasses, st: LexState, mark: Mark): (r: Outcome<(Option<Token>, LexState), LexError>)
    requires Tracked(st)
    requires mark == MarkAt(st.sc.input, st.sc.index)
    ensures !r.Abort?
    ensures r.Ok? ==> Tracked(r.value.1) && r.value.1.sc.input == st.sc.input
                      && r.value.1.sc.index > st.sc.index
    ensures var input := st.sc.input;
      var s := st.sc.index;
      && (r.Ok? ==>
            r.value.0.Some? && Placed(input, Lexeme(r.value.0.value, s)) && IsLexical(r.value.0.value)
            && r.value.1.sc.index == s + Length(r.value.0.value))
      && (s == |input| ==> r == Fail(UnexpectedEndOfSource))
      && (s < |input| && !cc.isNumber(input[s]) && !cc.isIdentifier(input[s]) ==>
            r == Fail(UnexpectedCharacterEncountered(input[s], MarkAt(input, s))))
  {
    var peek := Scanners.Peek(st.sc, 0);
    if peek.Some? && cc.isNumber(peek.value) then ReadNumber(cc, st, mark)
    else if peek.Some? && cc.isIdentifier(peek.value) then ReadIdentifier(cc, st, mark)
    else
      var adv :- Advance(st, 1);
      Fail(UnexpectedCharacterEncountered(adv.0, mark))
  }

  /** The number branch, for a first character that starts a number. */
  function ReadNumber(cc: CharClasses, st: LexState, mark: Mark): (r: Outcome<(Option<Token>, LexState), LexError>)
    requires Tracked(st) && st.sc.index < |st.sc.input| && cc.isNumber(st.sc.input[st.sc.index])
    requires mark == MarkAt(st.sc.input, st.sc.index)
    ensures !r.Abort?
    ensures r.Ok? ==>
      && r.value.0.Some? && Placed(st.sc.input, Lexeme(r.value.0.value, st.sc.index)) && IsLexical(r.value.0.value)
      && Tracked(r.value.1) && r.value.1.sc.input == st.sc.input
      && r.value.1.sc.index == st.sc.index + Length(r.value.0.value) > st.sc.index
  {
    var res :- ConsumeNumber(cc, st, mark);
    Ok((Some(res.0), res.1))
  }

  /** The identifier branch, for a first character that starts an
      identifier. */
  function ReadIdentifier(cc: CharClasses, st: LexState, mark: Mark): (r: Outcome<(Option<Token>, LexState), LexError>)
    requires Tracked(st) && st.sc.index < |st.sc.input| && cc.isIdentifier(st.sc.input[st.sc.index])
    requires mark == MarkAt(st.sc.input, st.sc.index)
    ensures r.Ok?
    ensures
      && r.value.0.Some? && Placed(st.sc.input, Lexeme(r.value.0.value, st.sc.index)) && IsLexical(r.value.0.value)
      && Tracked(r.value.1) && r.value.1.sc.input == st.sc.input
      && r.value.1.sc.index == st.sc.index + Length(r.value.0.value) > st.sc.index
  {
    var res := ConsumeIdentifier(cc, st, mark);
    Ok((Some(res.0), res.1))
  }

  /** The comment branch: `//` and everything up to and including the next
      newline character. */
  function ReadComment(st: LexState): (r: Outcome<(Option<Token>, LexState), LexError>)
    requires Tracked(st)
    requires Scanners.PeekCollection(st.sc, |CommentPrefix|) == Some(CommentPrefix)
    ensures !r.Abort?
    ensures r.Ok? ==> r.value.0.None? && Tracked(r.value.1) && r.value.1.sc.input == st.sc.input
                      && r.value.1.sc.index > st.sc.index
  {
    var adv := Advance(st, |CommentPrefix|).value;
    var st2 :- ConsumeComment(adv.1);
    Ok((None, st2))
  }

  /** The string branch: the opening quote, the text and the closing quote. */
  function ReadString(st: LexState, mark: Mark): (r: Outcome<(Option<Token>, LexState), LexError>)
    requires Tracked(st)
    requires Scanners.PeekCollection(st.sc, |StringPrefix|) == Some(StringPrefix)
    requires mark == MarkAt(st.sc.input, st.sc.index)
    ensures !r.Abort?
    ensures r.Ok? ==>
      && r.value.0.Some? && r.value.0.value.StringLit?
      && Placed(st.sc.input, Lexeme(r.value.0.value, st.sc.index))
      && Tracked(r.value.1) && r.value.1.sc.input == st.sc.input
      && r.value.1.sc.index == st.sc.index + Length(r.value.0.value)
  {
    var input := st.sc.input;
    var s := st.sc.index;
    assert input[s..s + 1] == StringPrefix;
    var adv := Advance(st, |StringPrefix|).value;
    var res :- ConsumeString(adv.1, mark);
    QuotedSpan(input, s, res.1.sc.index - 1);
    Ok((Some(res.0), res.1))
  }

  lemma QuotedSpan(input: string, s: nat, e: nat)
    requires s < e < |input| && input[s..s + 1] == StringPrefix && input[e] == '"'
    ensures input[s..e + 1] == StringPrefix + input[s + 1..e] + StringSuffix
  {
  }

  /** The character at `s` opens a comment or a string. */
  predicate IsQuoteOrComment(input: string, s: nat)
    requires s < |input|
  {
    input[s] == '"' || (s + 2 <= |input| && input[s..s + 2] == CommentPrefix)
  }

  /** The loop of performAnalysis(), collecting each token with its start. */
  function Scan(cc: CharClasses, st: LexState, acc: seq<Lexeme>): (r: Outcome<seq<Lexeme>, LexError>)
    requires Tracked(st)
    requires AllPlaced(st.sc.input, acc, st.sc.index)
    ensures !r.Abort?
    ensures r.Ok? ==> AllPlaced(st.sc.input, r.value, |st.sc.input|) && acc <= r.value
    decreases |st.sc.input| - st.sc.index
  {
    if !Scanners.Available(st.sc) then Ok(acc)
    else
      var step :- Iteration(cc, st);
      var s := TokenStart(st.sc.input, st.sc.index);
      var acc' := if step.0.Some? then acc + [Lexeme(step.0.value, s)] else acc;
      if step.0.Some? then
        AllPlacedAppend(st.sc.input, acc, Lexeme(step.0.value, s), step.1.sc.index);
        Scan(cc, step.1, acc')
      else
        AllPlacedWeaken(st.sc.input, acc, st.sc.index, step.1.sc.index);
        Scan(cc, step.1, acc')
  }

  lemma AllPlacedAppend(input: string, ls: seq<Lexeme>, l: Lexeme, bound: nat)
    requires AllPlaced(input, ls, l.start)
    requires Placed(input, l) && IsLexical(l.token) && End(l) <= bound
    ensures AllPlaced(input, ls + [l], bound)
  {
  }

  lemma AllPlacedWeaken(input: string, ls: seq<Lexeme>, b1: nat, b2: nat)
    requires AllPlaced(input, ls, b1) && b1 <= b2
    ensures AllPlaced(input, ls, b2)
  {
  }

  /** performAnalysis(): the token stream of a whole source text. */
  function PerformAnalysis(cc: CharClasses, input: string): (r: Outcome<seq<Token>, LexError>)
    ensures !r.Abort?
    ensures input == [] ==> r == Ok([])
    ensures r.Ok? ==> forall i :: 0 <= i < |r.value| ==> IsLexical(r.value[i]) && r.value[i].mark.At?
  {
    var lexemes :- Scan(cc, Init(input), []);
    Ok(seq(|lexemes|, i requires 0 <= i < |lexemes| => lexemes[i].token))
  }

  /** Every token of a successful analysis is spelled exactly by the source
      text at its start, carries the line and column of that start, and the
      tokens follow one another through the input without overlapping. */
  lemma AnalysisPlacesTokens(cc: CharClasses, input: string)
    requires PerformAnalysis(cc, input).Ok?
    ensures var ls := Scan(cc, Init(input), []).value;
      && PerformAnalysis(cc, input).value == seq(|ls|, i requires 0 <= i < |ls| => ls[i].token)
      && AllPlaced(input, ls, |input|)
  {
  }

  /** Source that ends in space after its last token fails: the loop goes
      round once more, skips the space and finds nothing to read. */
  lemma TrailingSpaceFails(cc: CharClasses, st: LexState)
    requires Tracked(st) && Scanners.Available(st.sc)
    requires forall k :: st.sc.index <= k < |st.sc.input| ==> IsSpace(st.sc.input[k])
    ensures Iteration(cc, st) == Fail(UnexpectedEndOfSource)
  {
    assert TokenStart(st.sc.input, st.sc.index) == |st.sc.input|;
  }

  // ---------------------------------------------------------------------
  // The loop as evidently intended: space that runs to the end of the
  // input ends the analysis instead of failing it.

  /** The loop of performAnalysis() with the end of the input checked again
      after the space is skipped. */
  function ScanCorrected(cc: CharClasses, st: LexState, acc: seq<Lexeme>): (r: Outcome<seq<Lexeme>, LexError>)
    requires Tracked(st)
    requires AllPlaced(st.sc.input, acc, st.sc.index)
    ensures !r.Abort?
    ensures r.Ok? ==> AllPlaced(st.sc.input, r.value, |st.sc.input|) && acc <= r.value
    ensures (forall k :: st.sc.index <= k < |st.sc.input| ==> IsSpace(st.sc.input[k])) ==> r == Ok(acc)
    decreases |st.sc.input| - st.sc.index
  {
    assert (forall k :: st.sc.index <= k < |st.sc.input| ==> IsSpace(st.sc.input[k]))
      ==> TokenStart(st.sc.input, st.sc.index) == |st.sc.input|;
    if !Scanners.Available(st.sc) || TokenStart(st.sc.input, st.sc.index) == |st.sc.input| then
      AllPlacedWeaken(st.sc.input, acc, st.sc.index, |st.sc.input|);
      Ok(acc)
    else
      var step :- Iteration(cc, st);
      var s := TokenStart(st.sc.input, st.sc.index);
      var acc' := if step.0.Some? then acc + [Lexeme(step.0.value, s)] else acc;
      if step.0.Some? then
        AllPlacedAppend(st.sc.input, acc, Lexeme(step.0.value, s), step.1.sc.index);
        ScanCorrected(cc, step.1, acc')
      else
        AllPlacedWeaken(st.sc.input, acc, st.sc.index, step.1.sc.index);
        ScanCorrected(cc, step.1, acc')
  }

  /** performAnalysis() with the corrected loop. */
  function PerformAnalysisCorrected(cc: CharClasses, input: string): (r: Outcome<seq<Token>, LexError>)
    ensures !r.Abort?
    ensures (forall k :: 0 <= k < |input| ==> IsSpace(input[k])) ==> r == Ok([])
    ensures r.Ok? ==> forall i :: 0 <= i < |r.value| ==> IsLexical(r.value[i]) && r.value[i].mark.At?
  {
    assert (forall k :: 0 <= k < |input| ==> IsSpace(input[k])) ==> TokenStart(input, 0) == |input|;
    var lexemes :- ScanCorrected(cc, Init(input), []);
    Ok(seq(|lexemes|, i requires 0 <= i < |lexemes| => lexemes[i].token))
  }

  /** The correction only changes what the source gets wrong: wherever the
      loops differ, the loop as written failed at the end of the input, and
      wherever the loop as written succeeds, the corrected one gives the same
      tokens. */
  lemma {:induction false} CorrectionOnlyAtEnd(cc: CharClasses, st: LexState, acc: seq<Lexeme>)
    requires Tracked(st)
    requires AllPlaced(st.sc.input, acc, st.sc.index)
    ensures ScanCorrected(cc, st, acc) != Scan(cc, st, acc) ==> Scan(cc, st, acc) == Fail(UnexpectedEndOfSource)
    ensures Scan(cc, st, acc).Ok? ==> ScanCorrected(cc, st, acc) == Scan(cc, st, acc)
    decreases |st.sc.input| - st.sc.index
  {
    if Scanners.Available(st.sc) {
      var s := TokenStart(st.sc.input, st.sc.index);
      if s == |st.sc.input| {
        assert Iteration(cc, st) == Fail(UnexpectedEndOfSource);
      } else if Iteration(cc, st).Ok? {
        var step := Iteration(cc, st).value;
        var acc' := if step.0.Some? then acc + [Lexeme(step.0.value, s)] else acc;
        if step.0.Some? {
          AllPlacedAppend(st.sc.input, acc, Lexeme(step.0.value, s), step.1.sc.index);
        } else {
          AllPlacedWeaken(st.sc.input, acc, st.sc.index, step.1.sc.index);
        }
        CorrectionOnlyAtEnd(cc, step.1, acc');
        assert Scan(cc, st, acc) == Scan(cc, step.1, acc');
        assert ScanCorrected(cc, st, acc) == ScanCorrected(cc, step.1, acc');
      }
    }
  }

  /** `x` followed by a line feed: the loop as written fails after reading
      `x`, the corrected one reads the identifier `x` at line 0, column 0. */
  lemma TrailingLineFeed(cc: CharClasses)
    requires !cc.isNumber('x') && cc.isIdentifier('x') && !cc.isIdentifier('\n')
    ensures PerformAnalysis(cc, "x\n") == Fail(UnexpectedEndOfSource)
    ensures PerformAnalysisCorrected(cc, "x\n") == Ok([Identifier("x", At(0, 0))])
  {
    var input := "x\n";
    var st := Init(input);
    var x := Identifier("x", At(0, 0));
    FirstIteration(cc);
    var st1 := Iteration(cc, st).value.1;
    var acc := [Lexeme(x, 0)];
    assert [] + [Lexeme(x, TokenStart(input, 0))] == acc;
    assert TokenStart(input, 1) == 2;
    TrailingSpaceFails(cc, st1);
    assert Scan(cc, st, []) == Scan(cc, st1, acc);
    assert ScanCorrected(cc, st1, acc) == Ok(acc);
    assert ScanCorrected(cc, st, []) == ScanCorrected(cc, st1, acc);
    assert seq(|acc|, i requires 0 <= i < |acc| => acc[i].token) == [x];
  }

  /** The first pass over `x` and a line feed reads the identifier `x`. */
  lemma FirstIteration(cc: CharClasses)
    requires !cc.isNumber('x') && cc.isIdentifier('x') && !cc.isIdentifier('\n')
    ensures var r := Iteration(cc, Init("x\n"));
      && TokenStart("x\n", 0) == 0
      && r.Ok? && r.value.0 == Some(Identifier("x", At(0, 0)))
      && r.value.1.sc == Scanners.Cursor("x\n", 1) && Tracked(r.value.1)
  {
    var input := "x\n";
    var st := Init(input);
    assert Run(input, 0, IsSpace) == 0;
    assert ConsumeWhile(st, IsSpace).1 == st;
    assert Scanners.PeekCollection(st.sc, |CommentPrefix|) != Some(CommentPrefix);
    assert Scanners.PeekCollection(st.sc, |StringPrefix|) != Some(StringPrefix);
    assert Run(input, 0, cc.isIdentifier) == 1;
    assert input[0..1] == "x";
    assert Iteration(cc, st) == ReadIdentifier(cc, st, At(0, 0));
  }
}
