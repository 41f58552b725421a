/** The literal parsers: strings (CompilerCore/Parser/StringParser.swift)
    and booleans (CompilerCore/Parser/BoolParser.swift). Each takes exactly
    one token and yields the literal with that token's mark. */
module LiteralParsers {
  import opened Results
  import opened Tokens
  import opened Scanners
  import opened Expressions
  import opened ParserCore
  import Keywords

  /** StringParser.test(scanner:): the next token is a string literal; the
      template's text does not take part in matching. */
  function StringTest(sc: Scanner<Token>): (r: bool)
    ensures r <==> Available(sc) && sc.input[sc.index].StringLit?
  {
    assert Test(sc, [StringLit("foo", ParserCore.Location(sc))], false)
           <==> Available(sc) && sc.input[sc.index].StringLit?;
    Test(sc, [StringLit("foo", ParserCore.Location(sc))], false)
  }

  /** StringParser.parse(scanner:owner:). */
  function ParseString(st: PState): (r: PResult<Expression>)
    ensures r.Ok? <==> StringTest(st.sc)
    ensures r.Ok? ==>
      var t := st.sc.input[st.sc.index];
      && r.value.value == StringExpr(t.text, t.mark)
      && Moved(st, r.value.at, 1)
    ensures !r.Ok? ==> r == Unexpected(st)
  {
    match CurrentToken(st.sc)
    case Some(StringLit(text, location)) =>
      Ok(Step(StringExpr(text, location), st.(sc := Cursor(st.sc.input, st.sc.index + 1))))
    case _ => Unexpected(st)
  }

  /** BoolParser.test(scanner:): the next token is `true` or `false`. */
  function BoolTest(sc: Scanner<Token>): (r: bool)
    ensures r <==> Available(sc) && sc.input[sc.index].KeywordTok?
                   && sc.input[sc.index].keyword in {Keywords.True, Keywords.False}
  {
    Test(sc, [KeywordTok(Keywords.True, ParserCore.Location(sc))], false)
    || Test(sc, [KeywordTok(Keywords.False, ParserCore.Location(sc))], false)
  }

  /** BoolParser.parse(scanner:owner:). */
  function ParseBool(st: PState): (r: PResult<Expression>)
    ensures r.Ok? <==> BoolTest(st.sc)
    ensures r.Ok? ==>
      var t := st.sc.input[st.sc.index];
      && r.value.value == BoolExpr(t.keyword == Keywords.True, t.mark)
      && Moved(st, r.value.at, 1)
    ensures !r.Ok? ==> r == Unexpected(st)
  {
    match CurrentToken(st.sc)
    case Some(KeywordTok(k, location)) =>
      if k == Keywords.True then
        Ok(Step(BoolExpr(true, location), st.(sc := Cursor(st.sc.input, st.sc.index + 1))))
      else if k == Keywords.False then
        Ok(Step(BoolExpr(false, location), st.(sc := Cursor(st.sc.input, st.sc.index + 1))))
      else Unexpected(st)
    case _ => Unexpected(st)
  }

  /** Reading a literal back: a string or boolean token placed anywhere in a
      stream is read as the literal it spells. */
  lemma LiteralsReadBack(input: seq<Token>, i: nat, table: SymbolTables.SymbolTable<Nodes.Node>)
    requires i < |input|
    ensures input[i].StringLit? ==>
      ParseString(PState(Cursor(input, i), table)) == Ok(Step(StringExpr(input[i].text, input[i].mark), PState(Cursor(input, i + 1), table)))
    ensures input[i] == KeywordTok(Keywords.True, input[i].mark) ==>
      ParseBool(PState(Cursor(input, i), table)) == Ok(Step(BoolExpr(true, input[i].mark), PState(Cursor(input, i + 1), table)))
    ensures input[i] == KeywordTok(Keywords.False, input[i].mark) ==>
      ParseBool(PState(Cursor(input, i), table)) == Ok(Step(BoolExpr(false, input[i].mark), PState(Cursor(input, i + 1), table)))
  {
  }
}
