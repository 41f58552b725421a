/** The code block parser (CompilerCore/Parser/CodeBlockParser.swift):
    `{ statement* }`, read inside a fresh scope of the symbol table. Each
    statement is read by the first of the scoped parsers whose test holds,
    given here as a dispatcher. */
module CodeBlockParser {
  import opened Results
  import opened Tokens
  import opened Scanners
  import opened SymbolTables
  import opened Nodes
  import opened ParserCore

  /** CodeBlockParser.test(for:): the next token is `{`. */
  function CodeBlockTest(sc: Scanner<Token>): (r: bool)
    ensures r <==> Available(sc) && IsSymbol(sc.input[sc.index], LeftBrace)
  {
    match CurrentToken(sc)
    case Some(t) => IsSymbol(t, LeftBrace)
    case None => false
  }

  /** The error thrown when no scoped parser applies: the current token is
      reported at its own mark and nothing is consumed. */
  function NoParser<T>(st: PState): (r: PResult<T>)
    requires Available(st.sc)
    ensures r == Fail(Fault(ParserError(st.sc.input[st.sc.index].mark,
                                        UnexpectedTokenEncountered(st.sc.input[st.sc.index])), st))
  {
    Fail(Fault(ParserError(Location(st.sc), UnexpectedTokenEncountered(CurrentToken(st.sc).value)), st))
  }

  /** CodeBlockParser.parse(from:ast:). */
  function ParseCodeBlock(st: PState, d: Dispatch): (r: PResult<Node>)
    requires Productive(d)
    ensures !Available(st.sc) ==>
      r == Fail(Fault(ParserError(Location(st.sc), Expected(Sym(LeftBrace))), st))
    ensures Available(st.sc) && !IsSymbol(st.sc.input[st.sc.index], LeftBrace) ==>
      var after := st.(sc := Cursor(st.sc.input, st.sc.index + 1));
      r == Fail(Fault(ParserError(Location(after.sc), Expected(Sym(LeftBrace))), after))
    ensures CodeBlockTest(st.sc) && |st.table.scopes| == 0 ==> r.Abort?
    ensures r.Ok? ==>
      && r.value.value.kind == CodeBlockNode(Unknown)
      && r.value.at.sc.input == st.sc.input && r.value.at.sc.index >= st.sc.index + 2
      && IsSymbol(st.sc.input[st.sc.index], LeftBrace)
      && IsSymbol(st.sc.input[r.value.at.sc.index - 1], RightBrace)
  {
    ConsumeOne(st, LeftBrace);
    var open :- Consume(st, [Sym(LeftBrace)]);
    match Enter(open.at.table)
    case None => Abort
    case Some(entered) => BlockLoop(open.at.(table := entered), d, [])
  }

  /** The `nextExpression` loop with `statements` read so far. */
  function BlockLoop(st: PState, d: Dispatch, statements: seq<Node>): (r: PResult<Node>)
    requires Productive(d)
    ensures Available(st.sc) && !IsSymbol(st.sc.input[st.sc.index], RightBrace) && d(st).None? ==>
      r == NoParser(st)
    ensures Available(st.sc) && IsSymbol(st.sc.input[st.sc.index], RightBrace) ==>
      r == Finish(st, statements)
    ensures !Available(st.sc) ==> r == Finish(st, statements)
    ensures r.Ok? ==>
      && r.value.value.kind == CodeBlockNode(Unknown) && statements <= r.value.value.children
      && r.value.at.sc.input == st.sc.input && r.value.at.sc.index > st.sc.index
      && IsSymbol(st.sc.input[r.value.at.sc.index - 1], RightBrace)
    decreases |st.sc.input| - st.sc.index
  {
    if !Available(st.sc) || IsSymbol(st.sc.input[st.sc.index], RightBrace) then Finish(st, statements)
    else match d(st)
      case None => NoParser(st)
      case Some(res) =>
        var s :- res;
        BlockLoop(s.at, d, statements + [s.value])
  }

  /** After the loop: leave the scope, then take the `}`. */
  function Finish(st: PState, statements: seq<Node>): (r: PResult<Node>)
    ensures !r.Abort?
    ensures !Available(st.sc) ==>
      r == Fail(Fault(ParserError(Location(st.sc), Expected(Sym(RightBrace))), st.(table := Leave(st.table))))
    ensures Available(st.sc) && IsSymbol(st.sc.input[st.sc.index], RightBrace) ==>
      r == Ok(Step(NewCodeBlock(statements, Unknown),
                   PState(Cursor(st.sc.input, st.sc.index + 1), Leave(st.table))))
  {
    var close :- Consume(st.(table := Leave(st.table)), [Sym(RightBrace)]);
    Ok(Step(NewCodeBlock(statements, Unknown), close.at))
  }

  // ---------------------------------------------------------------------
  // Scope balance

  /** `t` has the scopes of `base` with the innermost one possibly changed. */
  predicate SameOuter(t: SymbolTable<Node>, base: SymbolTable<Node>)
  {
    && |t.scopes| == |base.scopes| > 0
    && t.scopes[..|t.scopes| - 1] == base.scopes[..|base.scopes| - 1]
  }

  /** With statements that only touch the innermost scope, the loop ends
      with the block's scope popped: the table below it is exactly as it was
      when the block was entered. */
  lemma {:induction false} BlockLoopBalanced(st: PState, d: Dispatch, statements: seq<Node>, base: SymbolTable<Node>)
    requires Productive(d) && Confined(d)
    requires SameOuter(st.table, base)
    ensures BlockLoop(st, d, statements).Ok? ==>
      BlockLoop(st, d, statements).value.at.table.scopes == base.scopes[..|base.scopes| - 1]
    decreases |st.sc.input| - st.sc.index
  {
    if !Available(st.sc) || IsSymbol(st.sc.input[st.sc.index], RightBrace) {
    } else if d(st).Some? && d(st).value.Ok? {
      var s := d(st).value.value;
      BlockLoopBalanced(s.at, d, statements + [s.value], base);
    }
  }

  /** Net scope balance: a block read with confined statements leaves the
      symbol table exactly as it found it. */
  lemma CodeBlockRestoresTable(st: PState, d: Dispatch)
    requires Productive(d) && Confined(d)
    ensures ParseCodeBlock(st, d).Ok? ==> ParseCodeBlock(st, d).value.at.table == st.table
  {
    var c := Consume(st, [Sym(LeftBrace)]);
    if c.Ok? && |st.table.scopes| > 0 {
      var entered := Enter(st.table).value;
      BlockLoopBalanced(c.value.at.(table := entered), d, [], entered);
      assert entered.scopes[..|entered.scopes| - 1] == st.table.scopes;
    }
  }

  /** A statement no scoped parser accepts is an error thrown inside the
      block's scope: the scope is not left, so the table is one scope deeper
      than before the block. */
  lemma NoParserLeavesScopeOpen(st: PState, d: Dispatch)
    requires Productive(d)
    requires var i := st.sc.index;
      && i + 2 <= |st.sc.input| && IsSymbol(st.sc.input[i], LeftBrace)
      && !IsSymbol(st.sc.input[i + 1], RightBrace) && |st.table.scopes| > 0
    requires d(st.(sc := Cursor(st.sc.input, st.sc.index + 1), table := Enter(st.table).value)).None?
    ensures var r := ParseCodeBlock(st, d);
      && r.Fail? && r.error.error.ParserError? && r.error.error.reason == UnexpectedTokenEncountered(st.sc.input[st.sc.index + 1])
      && |r.error.at.table.scopes| == |st.table.scopes| + 1
  {
    var entered := st.(sc := Cursor(st.sc.input, st.sc.index + 1), table := Enter(st.table).value);
    assert Consume(st, [Sym(LeftBrace)]) == Ok(Step([st.sc.input[st.sc.index]], st.(sc := entered.sc))) by {
      assert st.sc.input[st.sc.index..st.sc.index + 1] == [st.sc.input[st.sc.index]];
    }
  }

  /** A stream that ends inside the block is reported as a missing `}`,
      after the block's scope has been left. */
  lemma EndOfStreamInBlock(st: PState, d: Dispatch)
    requires Productive(d)
    requires st.sc.index + 1 == |st.sc.input| && IsSymbol(st.sc.input[st.sc.index], LeftBrace)
    requires |st.table.scopes| > 0
    ensures var r := ParseCodeBlock(st, d);
      && r.Fail? && r.error.error == ParserError(st.sc.input[st.sc.index].mark, Expected(Sym(RightBrace)))
      && r.error.at.table == st.table
  {
    var after := st.(sc := Cursor(st.sc.input, st.sc.index + 1));
    assert Consume(st, [Sym(LeftBrace)]) == Ok(Step([st.sc.input[st.sc.index]], after)) by {
      assert st.sc.input[st.sc.index..st.sc.index + 1] == [st.sc.input[st.sc.index]];
    }
    LeaveUndoesEnter(st.table);
  }
}
