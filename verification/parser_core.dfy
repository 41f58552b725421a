/** The parser's view of the token stream
    (CompilerCore/Parser/ParserScannerExtensions.swift): lookahead tests,
    the throwing `consume`, the current location and the current token, plus
    the state every sub-parser threads through: the token scanner and the
    symbol table of the syntax tree being built.

    A parser returns `Ok(Step(value, state))`, `Fail(Fault(error, state))`
    with the state at the moment of the throw (so what was consumed before
    an error is observable), or `Abort` for a `fatalError` or a trap. */
module ParserCore {
  import opened Results
  import opened Tokens
  import opened Scanners
  import opened SymbolTables
  import opened Nodes
  import Keywords

  datatype Reason =
    | Expected(token: Token)
    | UnexpectedTokenEncountered(token: Token)
    | UnknownCompilerNamespace(name: string)
    | UnexpectedEndOfTokenStream

  /** The errors the parsers throw: the located parser error, the parameter
      parser's `expectedIdentifier`, and the bare `unexpectedTokenEncountered`
      the variable parser throws. */
  datatype ParseError =
    | ParserError(location: Mark, reason: Reason)
    | ExpectedIdentifier
    | UnexpectedToken(token: Token)

  datatype PState = PState(sc: Scanner<Token>, table: SymbolTable<Node>)

  datatype Step<T> = Step(value: T, at: PState)

  datatype Fault = Fault(error: ParseError, at: PState)

  type PResult<T> = Outcome<Step<T>, Fault>

  /** The state has moved forward over the same tokens, and the symbol table
      is as it was. */
  predicate Moved(from: PState, to: PState, n: nat)
  {
    to.sc.input == from.sc.input && to.sc.index == from.sc.index + n && to.table == from.table
  }

  /** The token `i` places ahead exists and matches `expected[i]`. */
  predicate MatchAt(sc: Scanner<Token>, expected: seq<Token>, weak: bool, i: nat)
    requires i < |expected|
  {
    sc.index + i < |sc.input| && Matches(sc.input[sc.index + i], expected[i], weak)
  }

  /** The number of leading tokens that match `expected` from offset `k`
      on, as the `while` loop of `test` counts them. */
  function MatchCount(sc: Scanner<Token>, expected: seq<Token>, weak: bool, k: nat): (r: nat)
    requires k <= |expected|
    ensures k <= r <= |expected|
    ensures forall i :: k <= i < r ==> MatchAt(sc, expected, weak, i)
    ensures r < |expected| ==> !MatchAt(sc, expected, weak, r)
    decreases |expected| - k
  {
    if k < |expected| && MatchAt(sc, expected, weak, k) then
      MatchCount(sc, expected, weak, k + 1)
    else k
  }

  /** test(weakIdentifier:expected:): every expected token matches the token
      at the same distance ahead, and that many tokens remain. The scanner
      does not move. */
  function Test(sc: Scanner<Token>, expected: seq<Token>, weak: bool): (r: bool)
    ensures r <==> sc.index + |expected| <= |sc.input|
                   && forall i :: 0 <= i < |expected| ==> Matches(sc.input[sc.index + i], expected[i], weak)
  {
    var n := MatchCount(sc, expected, weak, 0);
    assert n == |expected| ==>
      && sc.index + |expected| <= |sc.input|
      && forall i :: 0 <= i < |expected| ==> Matches(sc.input[sc.index + i], expected[i], weak)
    by {
      if n == |expected| {
        if expected != [] {
          assert MatchAt(sc, expected, weak, |expected| - 1);
        }
        forall i | 0 <= i < |expected|
          ensures Matches(sc.input[sc.index + i], expected[i], weak)
        {
          assert MatchAt(sc, expected, weak, i);
        }
      }
    }
    assert n < |expected| ==> !MatchAt(sc, expected, weak, n);
    n == |expected|
  }

  /** location: the mark of the next token, else of the last token of the
      whole stream, else unknown. */
  function Location(sc: Scanner<Token>): (m: Mark)
    ensures sc.index < |sc.input| ==> m == sc.input[sc.index].mark
    ensures sc.index == |sc.input| > 0 ==> m == sc.input[|sc.input| - 1].mark
    ensures sc.input == [] ==> m == Unknown
  {
    match Peek(sc, 0)
    case Some(t) => t.mark
    case None => if |sc.input| > 0 then sc.input[|sc.input| - 1].mark else Unknown
  }

  /** token: the next token, which must exist. */
  function CurrentToken(sc: Scanner<Token>): (r: Option<Token>)
    ensures r.Some? <==> Available(sc)
    ensures r.Some? ==> r.value == sc.input[sc.index]
  {
    Peek(sc, 0)
  }

  /** Scanner.advance(by:) on the parser state; `None` is the trap. */
  function Next(st: PState, n: nat): (r: Option<(Token, PState)>)
    ensures r.Some? <==> st.sc.index < |st.sc.input| && st.sc.index + n <= |st.sc.input|
    ensures r.Some? ==> r.value.0 == st.sc.input[st.sc.index] && Moved(st, r.value.1, n)
  {
    match Advance(st.sc, n)
    case None => None
    case Some((t, sc)) => Some((t, st.(sc := sc)))
  }

  /** consume(expected:): advance once per expected token, throwing
      `expected(token:)` for the first one that does not match the token
      just consumed. Running out of tokens part-way returns the shorter
      matched prefix; running out before the first is an error. */
  function Consume(st: PState, expected: seq<Token>): (r: PResult<seq<Token>>)
    ensures !r.Abort?
    ensures r.Ok? ==>
      var k := |r.value.value|;
      && k <= |expected| && Moved(st, r.value.at, k)
      && r.value.value == st.sc.input[st.sc.index..st.sc.index + k]
      && (forall i :: 0 <= i < k ==> Matches(expected[i], st.sc.input[st.sc.index + i], false))
      && (k < |expected| ==> st.sc.index + k == |st.sc.input|)
      && (expected != [] ==> k > 0)
    ensures r.Fail? && !Available(st.sc) ==>
      expected != [] && r.error == Fault(ParserError(Location(st.sc), Expected(expected[0])), st)
    ensures r.Fail? && Available(st.sc) ==>
      var j := r.error.at.sc.index - st.sc.index - 1;
      && 0 <= j < |expected| && Moved(st, r.error.at, j + 1)
      && (forall i :: 0 <= i < j ==> Matches(expected[i], st.sc.input[st.sc.index + i], false))
      && !Matches(expected[j], st.sc.input[st.sc.index + j], false)
      && r.error.error == ParserError(Location(r.error.at.sc), Expected(expected[j]))
    ensures !Available(st.sc) && expected == [] ==> r == Ok(Step([], st))
  {
    if !Available(st.sc) then
      if expected != [] then Fail(Fault(ParserError(Location(st.sc), Expected(expected[0])), st))
      else Ok(Step([], st))
    else ConsumeLoop(st, expected, 0)
  }

  /** The `while available` loop of `consume`, with `k` tokens matched. */
  function ConsumeLoop(st: PState, expected: seq<Token>, k: nat): (r: PResult<seq<Token>>)
    requires k <= |expected| && st.sc.index + k <= |st.sc.input|
    requires forall i :: 0 <= i < k ==> Matches(expected[i], st.sc.input[st.sc.index + i], false)
    requires k == 0 ==> Available(st.sc)
    ensures !r.Abort?
    ensures r.Ok? ==>
      var n := |r.value.value|;
      && k <= n <= |expected| && Moved(st, r.value.at, n)
      && r.value.value == st.sc.input[st.sc.index..st.sc.index + n]
      && (forall i :: 0 <= i < n ==> Matches(expected[i], st.sc.input[st.sc.index + i], false))
      && (n < |expected| ==> st.sc.index + n == |st.sc.input|)
      && (expected != [] ==> n > 0)
    ensures r.Fail? ==>
      var j := r.error.at.sc.index - st.sc.index - 1;
      && k <= j < |expected| && Moved(st, r.error.at, j + 1)
      && (forall i :: 0 <= i < j ==> Matches(expected[i], st.sc.input[st.sc.index + i], false))
      && !Matches(expected[j], st.sc.input[st.sc.index + j], false)
      && r.error.error == ParserError(Location(r.error.at.sc), Expected(expected[j]))
    decreases |expected| - k, 1
  {
    if k < |expected| && st.sc.index + k < |st.sc.input| then ConsumeItem(st, expected, k)
    else Ok(Step(st.sc.input[st.sc.index..st.sc.index + k], st.(sc := Cursor(st.sc.input, st.sc.index + k))))
  }

  /** One turn of the loop: the next token is taken; a mismatch throws,
      located after it. */
  function ConsumeItem(st: PState, expected: seq<Token>, k: nat): (r: PResult<seq<Token>>)
    requires k < |expected| && st.sc.index + k < |st.sc.input|
    requires forall i :: 0 <= i < k ==> Matches(expected[i], st.sc.input[st.sc.index + i], false)
    ensures !r.Abort?
    ensures r.Ok? ==>
      var n := |r.value.value|;
      && k < n <= |expected| && Moved(st, r.value.at, n)
      && r.value.value == st.sc.input[st.sc.index..st.sc.index + n]
      && (forall i :: 0 <= i < n ==> Matches(expected[i], st.sc.input[st.sc.index + i], false))
      && (n < |expected| ==> st.sc.index + n == |st.sc.input|)
    ensures r.Fail? ==>
      var j := r.error.at.sc.index - st.sc.index - 1;
      && k <= j < |expected| && Moved(st, r.error.at, j + 1)
      && (forall i :: 0 <= i < j ==> Matches(expected[i], st.sc.input[st.sc.index + i], false))
      && !Matches(expected[j], st.sc.input[st.sc.index + j], false)
      && r.error.error == ParserError(Location(r.error.at.sc), Expected(expected[j]))
    decreases |expected| - k, 0
  {
    var after := st.(sc := Cursor(st.sc.input, st.sc.index + k + 1));
    if !Matches(expected[k], st.sc.input[st.sc.index + k], false) then
      Fail(Fault(ParserError(Location(after.sc), Expected(expected[k])), after))
    else ConsumeLoop(st, expected, k + 1)
  }

  /** `test` with all expected tokens present succeeds exactly when
      `consume` takes them all; it then returns exactly those tokens. */
  lemma ConsumeAgreesWithTest(st: PState, expected: seq<Token>)
    requires expected != []
    ensures Test(st.sc, expected, false) <==>
      (Consume(st, expected).Ok? && |Consume(st, expected).value.value| == |expected|)
  {
    var sc := st.sc;
    if Test(sc, expected, false) {
      forall i | 0 <= i < |expected|
        ensures Matches(expected[i], sc.input[sc.index + i], false)
      {
        MatchesSymmetric(sc.input[sc.index + i], expected[i]);
      }
      ConsumeAll(st, expected, 0);
    }
  }

  lemma MatchesSymmetric(a: Token, b: Token)
    ensures Matches(a, b, false) == Matches(b, a, false)
  {
  }

  lemma {:induction false} ConsumeAll(st: PState, expected: seq<Token>, k: nat)
    requires k <= |expected| && st.sc.index + |expected| <= |st.sc.input|
    requires forall i :: 0 <= i < |expected| ==> Matches(expected[i], st.sc.input[st.sc.index + i], false)
    requires k == 0 ==> Available(st.sc)
    ensures ConsumeLoop(st, expected, k).Ok?
    ensures |ConsumeLoop(st, expected, k).value.value| == |expected|
    decreases |expected| - k
  {
    if k < |expected| {
      ConsumeAll(st, expected, k + 1);
    }
  }

  /** The parsers' common error: the next token is consumed and reported as
      unexpected, at the location it had before it was consumed. Reading a
      token past the end traps. */
  function Unexpected<T>(st: PState): (r: PResult<T>)
    ensures !r.Ok?
    ensures !Available(st.sc) <==> r.Abort?
    ensures r.Fail? ==> r.error == Fault(ParserError(st.sc.input[st.sc.index].mark,
                                         UnexpectedTokenEncountered(st.sc.input[st.sc.index])),
                                         st.(sc := Cursor(st.sc.input, st.sc.index + 1)))
  {
    var location := Location(st.sc);
    match Next(st, 1)
    case None => Abort
    case Some((t, st1)) => Fail(Fault(ParserError(location, UnexpectedTokenEncountered(t)), st1))
  }

  // ---------------------------------------------------------------------
  // Sub-parser dispatch

  /** The parsers the code block, call and variable parsers try in turn
      (`Parser.scopedParsers`, `Parser.returnParsers`, which are defined
      outside the modelled files). `None` means no parser's `test` held; otherwise
      the first parser whose `test` held was run. */
  type Dispatch = PState -> Option<PResult<Node>>

  /** A successful sub-parse keeps to the same tokens and never moves back. */
  ghost predicate Monotone(d: Dispatch)
  {
    forall st :: d(st).Some? && d(st).value.Ok? ==>
      d(st).value.value.at.sc.input == st.sc.input && d(st).value.value.at.sc.index >= st.sc.index
  }

  /** A successful sub-parse consumes at least one token. */
  ghost predicate Productive(d: Dispatch)
  {
    forall st :: d(st).Some? && d(st).value.Ok? ==>
      d(st).value.value.at.sc.input == st.sc.input && d(st).value.value.at.sc.index > st.sc.index
  }

  /** A successful sub-parse keeps the scope depth and changes nothing but
      the innermost scope. */
  ghost predicate Confined(d: Dispatch)
  {
    forall st :: d(st).Some? && d(st).value.Ok? ==>
      var t := d(st).value.value.at.table;
      && |t.scopes| == |st.table.scopes|
      && (|t.scopes| > 0 ==> t.scopes[..|t.scopes| - 1] == st.table.scopes[..|t.scopes| - 1])
  }

  // ---------------------------------------------------------------------
  // Consuming a single symbol

  /** The token is the symbol `s`, wherever it was written. */
  predicate IsSymbol(t: Token, s: SymbolKind)
  {
    t.SymbolTok? && t.symbol == s
  }

  /** Consuming one expected symbol that is there takes exactly that
      token. */
  lemma ConsumeSymbol(st: PState, s: SymbolKind)
    requires Available(st.sc) && IsSymbol(st.sc.input[st.sc.index], s)
    ensures Consume(st, [Sym(s)]) == Ok(Step([st.sc.input[st.sc.index]], st.(sc := Cursor(st.sc.input, st.sc.index + 1))))
  {
    assert st.sc.input[st.sc.index..st.sc.index + 1] == [st.sc.input[st.sc.index]];
  }

  /** Consuming one symbol: it is taken when it is next; at the end the
      error is at the current position and nothing is consumed; otherwise
      the wrong token is consumed and the error is located after it. */
  lemma ConsumeOne(st: PState, s: SymbolKind)
    ensures Available(st.sc) && IsSymbol(st.sc.input[st.sc.index], s) ==>
      Consume(st, [Sym(s)]) == Ok(Step([st.sc.input[st.sc.index]], st.(sc := Cursor(st.sc.input, st.sc.index + 1))))
    ensures !Available(st.sc) ==>
      Consume(st, [Sym(s)]) == Fail(Fault(ParserError(Location(st.sc), Expected(Sym(s))), st))
    ensures Available(st.sc) && !IsSymbol(st.sc.input[st.sc.index], s) ==>
      var after := st.(sc := Cursor(st.sc.input, st.sc.index + 1));
      Consume(st, [Sym(s)]) == Fail(Fault(ParserError(Location(after.sc), Expected(Sym(s))), after))
  {
    if Available(st.sc) {
      MatchesTemplate(st.sc.input[st.sc.index], s, Keywords.Let, false);
      if IsSymbol(st.sc.input[st.sc.index], s) {
        ConsumeSymbol(st, s);
      } else {
        var after := st.(sc := Cursor(st.sc.input, st.sc.index + 1));
        assert ConsumeItem(st, [Sym(s)], 0) == Fail(Fault(ParserError(Location(after.sc), Expected(Sym(s))), after));
      }
    }
  }

}
