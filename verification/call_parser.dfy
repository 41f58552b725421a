/** The call parser (CompilerCore/Parser/CallParser.swift):
    `callee ( argument, ... )`, each argument read by the first scoped
    parser whose test holds.

    The identifier parser the call parser starts with is defined outside
    the modelled files. It is taken to read one identifier token and to bind
    the identifier node to whatever the symbol table finds under that
    name. */
module CallParser {
  import opened Results
  import opened Tokens
  import opened Scanners
  import opened SymbolTables
  import opened Nodes
  import opened ParserCore
  import opened CodeBlockParser
  import Keywords

  /** The identifier parser: one identifier, bound through the table. */
  function ParseIdentifier(st: PState): (r: PResult<Node>)
    requires Available(st.sc) && st.sc.input[st.sc.index].Identifier?
    ensures r.Abort? <==> |st.table.scopes| == 0
    ensures r.Ok? ==>
      var t := st.sc.input[st.sc.index];
      && Moved(st, r.value.at, 1)
      && r.value.value == NewIdentifier(t.text, Find(st.table, t.text), t.mark)
  {
    var t := st.sc.input[st.sc.index];
    if |st.table.scopes| == 0 then Abort
    else Ok(Step(NewIdentifier(t.text, Find(st.table, t.text), t.mark), st.(sc := Cursor(st.sc.input, st.sc.index + 1))))
  }

  /** CallParser.test(for:): an identifier followed by `(`. */
  function CallTest(sc: Scanner<Token>): (r: bool)
    ensures r <==> sc.index + 1 < |sc.input| && sc.input[sc.index].Identifier?
                   && IsSymbol(sc.input[sc.index + 1], LeftParen)
  {
    match (Peek(sc, 0), Peek(sc, 1))
    case (Some(a), Some(b)) => a.Identifier? && IsSymbol(b, LeftParen)
    case _ => false
  }

  /** CallParser.parse(from:ast:). Starting anywhere but at an identifier
      is the parser being out of sync with itself, which is fatal. */
  function ParseCall(st: PState, d: Dispatch): (r: PResult<Node>)
    requires Monotone(d)
    ensures !(Available(st.sc) && st.sc.input[st.sc.index].Identifier?) ==> r.Abort?
    ensures r.Ok? ==>
      var t := st.sc.input[st.sc.index];
      var n := r.value.value;
      && |st.table.scopes| > 0
      && n.kind == CallNode(NewIdentifier(t.text, Find(st.table, t.text), t.mark), t.mark)
      && r.value.at.sc.input == st.sc.input && r.value.at.sc.index >= st.sc.index + 3
      && IsSymbol(st.sc.input[st.sc.index + 1], LeftParen)
      && IsSymbol(st.sc.input[r.value.at.sc.index - 1], RightParen)
  {
    if !(Available(st.sc) && st.sc.input[st.sc.index].Identifier?) then Abort
    else
      var id :- ParseIdentifier(st);
      Arguments(id.at, d, id.value)
  }

  /** `( argument, ... )` after the callee. */
  function Arguments(st: PState, d: Dispatch, callee: Node): (r: PResult<Node>)
    requires Monotone(d) && callee.kind.IdentifierNode?
    ensures r.Ok? ==>
      && r.value.value.kind == CallNode(callee, callee.kind.mark)
      && r.value.at.sc.input == st.sc.input && r.value.at.sc.index >= st.sc.index + 2
      && IsSymbol(st.sc.input[st.sc.index], LeftParen)
      && IsSymbol(st.sc.input[r.value.at.sc.index - 1], RightParen)
  {
    var open :- Consume(st, [Sym(LeftParen)]);
    MatchesTemplate(st.sc.input[st.sc.index], LeftParen, Keywords.Let, false);
    assert Matches([Sym(LeftParen)][0], st.sc.input[st.sc.index + 0], false);
    ArgumentLoop(open.at, d, callee, [])
  }

  /** The `nextArgument` loop with `arguments` read so far. */
  function ArgumentLoop(st: PState, d: Dispatch, callee: Node, arguments: seq<Node>): (r: PResult<Node>)
    requires Monotone(d) && callee.kind.IdentifierNode?
    ensures !Available(st.sc) ==> r == CloseCall(st, callee, arguments)
    ensures Available(st.sc) && IsSymbol(st.sc.input[st.sc.index], RightParen) ==>
      r == CloseCall(st, callee, arguments)
    ensures Available(st.sc) && !IsSymbol(st.sc.input[st.sc.index], RightParen) && d(st).None? ==>
      r == NoParser(st)
    ensures r.Ok? ==>
      && r.value.value.kind == CallNode(callee, callee.kind.mark) && arguments <= r.value.value.children
      && r.value.at.sc.input == st.sc.input && r.value.at.sc.index > st.sc.index
      && IsSymbol(st.sc.input[r.value.at.sc.index - 1], RightParen)
    decreases |st.sc.input| - st.sc.index, 1
  {
    if !Available(st.sc) || IsSymbol(st.sc.input[st.sc.index], RightParen) then CloseCall(st, callee, arguments)
    else match d(st)
      case None => NoParser(st)
      case Some(res) =>
        var s :- res;
        AfterArgument(s.at, d, callee, arguments + [s.value], st.sc.index)
  }

  /** After an argument: a comma continues the list, and anything else
      must be the `)`. `from` is where the argument started. */
  function AfterArgument(st: PState, d: Dispatch, callee: Node, arguments: seq<Node>, from: nat): (r: PResult<Node>)
    requires Monotone(d) && callee.kind.IdentifierNode? && from <= st.sc.index
    ensures r.Ok? ==>
      && r.value.value.kind == CallNode(callee, callee.kind.mark) && arguments <= r.value.value.children
      && r.value.at.sc.input == st.sc.input && r.value.at.sc.index > st.sc.index
      && IsSymbol(st.sc.input[r.value.at.sc.index - 1], RightParen)
    decreases |st.sc.input| - from, 0
  {
    if Available(st.sc) && IsSymbol(st.sc.input[st.sc.index], Comma) then
      ArgumentLoop(st.(sc := Cursor(st.sc.input, st.sc.index + 1)), d, callee, arguments)
    else CloseCall(st, callee, arguments)
  }

  /** After the loop: the `)` is required; the call node carries the
      callee's mark. */
  function CloseCall(st: PState, callee: Node, arguments: seq<Node>): (r: PResult<Node>)
    requires callee.kind.IdentifierNode?
    ensures !r.Abort?
    ensures r.Ok? <==> Available(st.sc) && IsSymbol(st.sc.input[st.sc.index], RightParen)
    ensures r.Ok? ==> r == Ok(Step(NewCall(callee, arguments, callee.kind.mark), st.(sc := Cursor(st.sc.input, st.sc.index + 1))))
    ensures !Available(st.sc) ==>
      r == Fail(Fault(ParserError(Location(st.sc), Expected(Sym(RightParen))), st))
    ensures Available(st.sc) && !IsSymbol(st.sc.input[st.sc.index], RightParen) ==>
      var after := st.(sc := Cursor(st.sc.input, st.sc.index + 1));
      r == Fail(Fault(ParserError(Location(after.sc), Expected(Sym(RightParen))), after))
  {
    assert Available(st.sc) ==> st.sc.input[st.sc.index..st.sc.index + 1] == [st.sc.input[st.sc.index]];
    var close :- Consume(st, [Sym(RightParen)]);
    Ok(Step(NewCall(callee, arguments, callee.kind.mark), close.at))
  }

  // ---------------------------------------------------------------------
  // Properties, with identifiers as the only kind of argument

  /** A dispatcher with a single scoped parser, the identifier parser. */
  function IdentifierArguments(st: PState): Option<PResult<Node>>
  {
    if Available(st.sc) && st.sc.input[st.sc.index].Identifier? then Some(ParseIdentifier(st)) else None
  }

  lemma IdentifierArgumentsMonotone()
    ensures Monotone(IdentifierArguments)
  {
  }

  /** After the callee and the `(`, the call is the argument loop started
      with no arguments. */
  lemma CallPrefix(st: PState, d: Dispatch)
    requires Monotone(d) && |st.table.scopes| > 0
    requires st.sc.index + 1 < |st.sc.input| && st.sc.input[st.sc.index].Identifier?
    requires IsSymbol(st.sc.input[st.sc.index + 1], LeftParen)
    ensures var t := st.sc.input[st.sc.index];
      ParseCall(st, d)
        == ArgumentLoop(st.(sc := Cursor(st.sc.input, st.sc.index + 2)), d, NewIdentifier(t.text, Find(st.table, t.text), t.mark), [])
  {
    var open := st.(sc := Cursor(st.sc.input, st.sc.index + 1));
    ConsumeSymbol(open, LeftParen);
  }

  /** `a , )`: an argument followed by a comma and the `)` closes the call,
      so a trailing comma is accepted. */
  lemma TrailingComma(st: PState, d: Dispatch, callee: Node, arguments: seq<Node>, s: Step<Node>)
    requires Monotone(d) && callee.kind.IdentifierNode?
    requires Available(st.sc) && !IsSymbol(st.sc.input[st.sc.index], RightParen) && d(st) == Some(Ok(s))
    requires s.at.sc.index + 1 < |s.at.sc.input|
    requires IsSymbol(s.at.sc.input[s.at.sc.index], Comma) && IsSymbol(s.at.sc.input[s.at.sc.index + 1], RightParen)
    ensures ArgumentLoop(st, d, callee, arguments)
      == Ok(Step(NewCall(callee, arguments + [s.value], callee.kind.mark), s.at.(sc := Cursor(s.at.sc.input, s.at.sc.index + 2))))
  {
    var args := arguments + [s.value];
    var next := s.at.(sc := Cursor(s.at.sc.input, s.at.sc.index + 1));
    assert next.(sc := Cursor(next.sc.input, next.sc.index + 1)) == s.at.(sc := Cursor(s.at.sc.input, s.at.sc.index + 2));
    assert ArgumentLoop(next, d, callee, args) == CloseCall(next, callee, args);
    assert ArgumentLoop(st, d, callee, arguments) == AfterArgument(s.at, d, callee, args, st.sc.index);
  }

  /** `a b`: an argument followed by anything but a comma ends the list, so
      the `)` is expected where `b` stands, and `b` is consumed. */
  lemma MissingComma(st: PState, d: Dispatch, callee: Node, arguments: seq<Node>, s: Step<Node>)
    requires Monotone(d) && callee.kind.IdentifierNode?
    requires Available(st.sc) && !IsSymbol(st.sc.input[st.sc.index], RightParen) && d(st) == Some(Ok(s))
    requires Available(s.at.sc)
    requires !IsSymbol(s.at.sc.input[s.at.sc.index], Comma) && !IsSymbol(s.at.sc.input[s.at.sc.index], RightParen)
    ensures var after := s.at.(sc := Cursor(s.at.sc.input, s.at.sc.index + 1));
      ArgumentLoop(st, d, callee, arguments)
        == Fail(Fault(ParserError(Location(after.sc), Expected(Sym(RightParen))), after))
  {
  }
}
