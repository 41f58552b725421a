/** The constant parser (CompilerCore/Parser/ConstantParser.swift):
    `let < Type > name`, producing a constant declaration expression located
    at the `let`. The parser trusts its test: the first two tokens are
    skipped without being looked at. */
module ConstantParser {
  import opened Results
  import opened Tokens
  import opened Scanners
  import opened Expressions
  import opened ParserCore
  import opened TypeParser
  import opened CodeBlockParser
  import Keywords
  import Types

  /** ConstantParser.test(scanner:): `let` followed by `<`. */
  function ConstantTest(sc: Scanner<Token>): (r: bool)
    ensures r <==> sc.index + 1 < |sc.input| && sc.input[sc.index].KeywordTok?
                   && sc.input[sc.index].keyword == Keywords.Let && IsSymbol(sc.input[sc.index + 1], LeftAngle)
  {
    var loc := ParserCore.Location(sc);
    var expected := [KeywordTok(Keywords.Let, loc), SymbolTok(LeftAngle, loc)];
    assert Test(sc, expected, false) ==>
      Matches(sc.input[sc.index + 0], expected[0], false) && Matches(sc.input[sc.index + 1], expected[1], false);
    Test(sc, expected, false)
  }

  /** ConstantParser.parse(scanner:owner:). The two tokens of the prologue
      are skipped unchecked; the constant is located at the first of them. */
  function ParseConstant(st: PState): (r: PResult<Expression>)
    ensures st.sc.index + 2 >= |st.sc.input| ==> r.Abort?
    ensures st.sc.index + 2 < |st.sc.input| ==>
      r == Declaration(st.(sc := Cursor(st.sc.input, st.sc.index + 2)), st.sc.input[st.sc.index].mark)
  {
    var loc := ParserCore.Location(st.sc);
    if Next(st, 2).None? then Abort
    else Declaration(Next(st, 2).value.1, loc)
  }

  /** `Type > name` after the skipped prologue, for a constant located at
      `loc`. */
  function Declaration(st: PState, loc: Mark): (r: PResult<Expression>)
    ensures r.Ok? ==>
      && r.value.at.sc.index >= st.sc.index + 3 && Moved(st, r.value.at, r.value.at.sc.index - st.sc.index)
      && r.value.value.ConstantDeclaration? && r.value.value.location == loc
      && r.value.value.declType.TypeExpr? && r.value.value.declType.location == Unknown
    ensures r.Fail? ==>
      && r.error.at.sc.input == st.sc.input && r.error.at.table == st.table
      && st.sc.index + 1 <= r.error.at.sc.index
      && r.error.error.ParserError? && r.error.error.reason.Expected?
      && (r.error.error.reason.token.Identifier? || r.error.error.reason.token == Sym(RightAngle))
  {
    var ty :- TypeThenClose(st);
    NameOf(ty.at, ty.value, loc)
  }

  /** `Type >`: the type expression and the `>` that ends it. */
  function TypeThenClose(st: PState): (r: PResult<Expression>)
    ensures r.Ok? ==>
      var i := st.sc.index;
      var k := r.value.at.sc.index - i;
      && k >= 2 && Moved(st, r.value.at, k)
      && IsSymbol(st.sc.input[i + k - 1], RightAngle)
      && r.value.value.TypeExpr? && r.value.value.location == Unknown
      && Types.Resolve(st.sc.input[i..i + k - 1]) == Ok(r.value.value.ty)
    ensures r.Fail? ==>
      && r.error.at.sc.input == st.sc.input && r.error.at.table == st.table
      && st.sc.index + 1 <= r.error.at.sc.index
      && r.error.error.ParserError? && r.error.error.reason == Expected(Sym(RightAngle))
  {
    var ty :- ParseTypeExpr(st);
    ConsumeOne(ty.at, RightAngle);
    var close :- Consume(ty.at, [Sym(RightAngle)]);
    Ok(Step(ty.value, close.at))
  }

  /** The name after the `>`: an identifier is taken; anything else, or the
      end of the stream, is reported as a missing identifier without
      consuming it. */
  function NameOf(at: PState, ty: Expression, loc: Mark): (r: PResult<Expression>)
    ensures !r.Abort?
    ensures r.Ok? <==> Available(at.sc) && at.sc.input[at.sc.index].Identifier?
    ensures r.Ok? ==>
      && r.value.value == ConstantDeclaration(at.sc.input[at.sc.index].text, ty, loc)
      && Moved(at, r.value.at, 1)
    ensures r.Fail? ==>
      var here := ParserCore.Location(at.sc);
      r == Fail(Fault(ParserError(here, Expected(Identifier("foo", here))), at))
  {
    match CurrentToken(at.sc)
    case Some(Identifier(name, _)) =>
      Ok(Step(ConstantDeclaration(name, ty, loc), at.(sc := Cursor(at.sc.input, at.sc.index + 1))))
    case _ =>
      var here := ParserCore.Location(at.sc);
      Fail(Fault(ParserError(here, Expected(Identifier("foo", here))), at))
  }

  // ---------------------------------------------------------------------
  // Properties

  /** Round trip: `let < T > name` is read as the constant `name` of type
      `T`, located at the `let`, consuming exactly those tokens. */
  lemma ConstantSpelled(st: PState, t: Types.Type, name: string, m: Mark)
    requires var i := st.sc.index;
      var n := |Types.TypeTokens(t)|;
      && i + 4 + n <= |st.sc.input|
      && st.sc.input[i + 2..i + 2 + n] == Types.TypeTokens(t)
      && IsSymbol(st.sc.input[i + 2 + n], RightAngle)
      && st.sc.input[i + 3 + n] == Identifier(name, m)
    ensures ParseConstant(st)
      == Ok(Step(ConstantDeclaration(name, TypeExpr(t, Unknown), st.sc.input[st.sc.index].mark),
                 st.(sc := Cursor(st.sc.input, st.sc.index + 4 + |Types.TypeTokens(t)|))))
  {
    var i := st.sc.index;
    var n := |Types.TypeTokens(t)|;
    var e := i + 3 + n;
    var closed := st.(sc := Cursor(st.sc.input, e));
    var done := st.(sc := Cursor(st.sc.input, i + 4 + n));
    TypeThenCloseSpelled(st, i + 2, e, t, n);
    NamedAfterType(st.(sc := Cursor(st.sc.input, i + 2)), TypeExpr(t, Unknown), closed, done, name, m, st.sc.input[i].mark);
    assert ParseConstant(st) == Declaration(st.(sc := Cursor(st.sc.input, i + 2)), st.sc.input[i].mark);
  }

  /** Once the type and its `>` are read, an identifier completes the
      declaration, and is the last token it consumes. */
  lemma NamedAfterType(st: PState, ty: Expression, closed: PState, done: PState, name: string, m: Mark, loc: Mark)
    requires TypeThenClose(st) == Ok(Step(ty, closed))
    requires closed.sc.index < |closed.sc.input| && closed.sc.input[closed.sc.index] == Identifier(name, m)
    requires done == closed.(sc := Cursor(closed.sc.input, closed.sc.index + 1))
    ensures Declaration(st, loc) == Ok(Step(ConstantDeclaration(name, ty, loc), done))
  {
  }

  /** Once the type and its `>` are read, anything but an identifier, or
      the end of the stream, is reported as a missing identifier at the
      current position, and nothing more is consumed. */
  lemma UnnamedAfterType(st: PState, h: Step<Expression>, loc: Mark)
    requires TypeThenClose(st) == Ok(h)
    requires !(Available(h.at.sc) && h.at.sc.input[h.at.sc.index].Identifier?)
    ensures var here := ParserCore.Location(h.at.sc);
      Declaration(st, loc) == Fail(Fault(ParserError(here, Expected(Identifier("foo", here))), h.at))
  {
  }

  /** A declaration that is read consists of a type's tokens, `>` and the
      identifier that names it, which is the last token consumed. */
  lemma DeclarationTokens(st: PState, loc: Mark)
    requires Declaration(st, loc).Ok?
    ensures var r := Declaration(st, loc).value;
      var i := st.sc.index;
      var e := r.at.sc.index;
      && st.sc.input[e - 1].Identifier? && r.value.name == st.sc.input[e - 1].text
      && IsSymbol(st.sc.input[e - 2], RightAngle)
      && Types.Resolve(st.sc.input[i..e - 2]) == Ok(r.value.declType.ty)
  {
    var ty := TypeThenClose(st).value;
    var j := ty.at.sc.index;
    assert Declaration(st, loc) == NameOf(ty.at, ty.value, loc);
    assert Declaration(st, loc).value.at.sc.index - 2 == j - 1;
  }

  /** `T >` at position `j` is read as the type expression for `T`, ending
      at `e`. */
  lemma TypeThenCloseSpelled(st: PState, j: nat, e: nat, t: Types.Type, n: nat)
    requires n == |Types.TypeTokens(t)| && e == j + 1 + n && e <= |st.sc.input|
    requires st.sc.input[j..j + n] == Types.TypeTokens(t)
    requires IsSymbol(st.sc.input[j + n], RightAngle)
    ensures TypeThenClose(st.(sc := Cursor(st.sc.input, j)))
      == Ok(Step(TypeExpr(t, Unknown), st.(sc := Cursor(st.sc.input, e))))
  {
    ParseTypeExprAt(st, j, t, n);
    ConsumeSymbol(st.(sc := Cursor(st.sc.input, j + n)), RightAngle);
  }

  /** The prologue is not checked: `func < Int > x` is read as a constant
      just as `let < Int > x` is. */
  lemma PrologueUnchecked(m: Mark, table: SymbolTables.SymbolTable<Nodes.Node>)
    ensures var input := [KeywordTok(Keywords.Func, m), Sym(LeftAngle), Identifier("Int", Unknown), Sym(RightAngle), Identifier("x", Unknown)];
      ParseConstant(PState(Cursor(input, 0), table)) == Ok(Step(ConstantDeclaration("x", TypeExpr(Types.Int, Unknown), m), PState(Cursor(input, 5), table)))
  {
    var input := [KeywordTok(Keywords.Func, m), Sym(LeftAngle), Identifier("Int", Unknown), Sym(RightAngle), Identifier("x", Unknown)];
    assert input[2..3] == Types.TypeTokens(Types.Int);
    ConstantSpelled(PState(Cursor(input, 0), table), Types.Int, "x", Unknown);
  }

  /** `let < Int > 5`: the literal where the name belongs is reported as a
      missing identifier, at the literal's mark, and is not consumed. */
  lemma MissingName(m: Mark, table: SymbolTables.SymbolTable<Nodes.Node>)
    ensures var input := [Kw(Keywords.Let), Sym(LeftAngle), Identifier("Int", Unknown), Sym(RightAngle), IntegerLit(5, "5", m)];
      ParseConstant(PState(Cursor(input, 0), table))
        == Fail(Fault(ParserError(m, Expected(Identifier("foo", m))), PState(Cursor(input, 4), table)))
  {
    var input := [Kw(Keywords.Let), Sym(LeftAngle), Identifier("Int", Unknown), Sym(RightAngle), IntegerLit(5, "5", m)];
    var st := PState(Cursor(input, 0), table);
    assert input[2..3] == Types.TypeTokens(Types.Int);
    TypeThenCloseSpelled(st, 2, 4, Types.Int, 1);
    UnnamedAfterType(st.(sc := Cursor(input, 2)), Step(TypeExpr(Types.Int, Unknown), st.(sc := Cursor(input, 4))), m);
    assert ParseConstant(st) == Declaration(st.(sc := Cursor(input, 2)), m);
  }
}
