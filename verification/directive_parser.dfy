/** The directive parser (CompilerCore/Parser/DirectiveParser.swift):
    `@ pragma ( namespace , "value" )`. The only namespace known is
    `linker`, which yields a linker flag located at the `@`. The parser
    trusts its test: the first three tokens are skipped without being looked
    at. */
module DirectiveParser {
  import opened Results
  import opened Tokens
  import opened Scanners
  import opened Expressions
  import opened ParserCore
  import opened CodeBlockParser

  /** DirectiveParser.test(scanner:): `@`, the identifier `pragma`, `(`. */
  function DirectiveTest(sc: Scanner<Token>): (r: bool)
    ensures r <==> sc.index + 2 < |sc.input| && IsSymbol(sc.input[sc.index], AtSign)
                   && sc.input[sc.index + 1] == Identifier("pragma", sc.input[sc.index + 1].mark)
                   && IsSymbol(sc.input[sc.index + 2], LeftParen)
  {
    var loc := ParserCore.Location(sc);
    var expected := [SymbolTok(AtSign, loc), Identifier("pragma", loc), SymbolTok(LeftParen, loc)];
    assert Test(sc, expected, false) ==>
      && Matches(sc.input[sc.index + 0], expected[0], false)
      && Matches(sc.input[sc.index + 1], expected[1], false)
      && Matches(sc.input[sc.index + 2], expected[2], false);
    Test(sc, expected, false)
  }

  /** The namespace the compiler knows. */
  const Linker := "linker"

  /** The seven tokens of a well-formed directive start at `i`. */
  predicate WellFormed(input: seq<Token>, i: nat)
  {
    && i + 7 <= |input|
    && input[i + 3].Identifier?
    && IsSymbol(input[i + 4], Comma)
    && input[i + 5].StringLit?
    && IsSymbol(input[i + 6], RightParen)
  }

  /** DirectiveParser.parse(scanner:owner:). Each guard that fails throws an
      unexpected-token error for the token it takes with `advance()`; after
      a consumed comma or closing parenthesis turns out wrong, that is the
      token after it. */
  function ParseDirective(st: PState): (r: PResult<Expression>)
    ensures r.Ok? <==> WellFormed(st.sc.input, st.sc.index) && st.sc.input[st.sc.index + 3].text == Linker
    ensures r.Ok? ==>
      && r.value.value == LinkerFlag(st.sc.input[st.sc.index + 5].text, st.sc.input[st.sc.index].mark)
      && Moved(st, r.value.at, 7)
    ensures WellFormed(st.sc.input, st.sc.index) && st.sc.input[st.sc.index + 3].text != Linker ==>
      r == Fail(Fault(ParserError(st.sc.input[st.sc.index].mark, UnknownCompilerNamespace(st.sc.input[st.sc.index + 3].text)),
                      st.(sc := Cursor(st.sc.input, st.sc.index + 7))))
  {
    var loc := ParserCore.Location(st.sc);
    if Next(st, 3).None? then Abort
    else
      var atNamespace := Next(st, 3).value.1;
      match CurrentToken(atNamespace.sc)
      case Some(Identifier(ns, _)) =>
        Arguments(atNamespace.(sc := Cursor(atNamespace.sc.input, atNamespace.sc.index + 1)), ns, loc)
      case _ => Unexpected(atNamespace)
  }

  /** `, "value" )` after the namespace `ns`, and the namespace lookup. */
  function Arguments(st: PState, ns: string, loc: Mark): (r: PResult<Expression>)
    ensures r.Ok? <==>
      && st.sc.index + 3 <= |st.sc.input| && IsSymbol(st.sc.input[st.sc.index], Comma)
      && st.sc.input[st.sc.index + 1].StringLit? && IsSymbol(st.sc.input[st.sc.index + 2], RightParen)
      && ns == Linker
    ensures r.Ok? ==>
      && r.value.value == LinkerFlag(st.sc.input[st.sc.index + 1].text, loc) && Moved(st, r.value.at, 3)
    ensures st.sc.index + 3 <= |st.sc.input| && IsSymbol(st.sc.input[st.sc.index], Comma)
            && st.sc.input[st.sc.index + 1].StringLit? && IsSymbol(st.sc.input[st.sc.index + 2], RightParen)
            && ns != Linker ==>
      r == Fail(Fault(ParserError(loc, UnknownCompilerNamespace(ns)), st.(sc := Cursor(st.sc.input, st.sc.index + 3))))
  {
    if !Available(st.sc) then Abort
    else
      var afterComma := st.(sc := Cursor(st.sc.input, st.sc.index + 1));
      if !IsSymbol(st.sc.input[st.sc.index], Comma) then Unexpected(afterComma)
      else match CurrentToken(afterComma.sc)
        case Some(StringLit(value, _)) =>
          var atClose := afterComma.(sc := Cursor(st.sc.input, st.sc.index + 2));
          if !Available(atClose.sc) then Abort
          else
            var closed := atClose.(sc := Cursor(st.sc.input, st.sc.index + 3));
            if !IsSymbol(st.sc.input[st.sc.index + 2], RightParen) then Unexpected(closed)
            else if ns == Linker then Ok(Step(LinkerFlag(value, loc), closed))
            else Fail(Fault(ParserError(loc, UnknownCompilerNamespace(ns)), closed))
        case _ => Unexpected(afterComma)
  }

  // ---------------------------------------------------------------------
  // Properties

  /** A namespace that is not an identifier is reported at its own mark and
      consumed. */
  lemma NamespaceNotIdentifier(st: PState)
    requires st.sc.index + 4 <= |st.sc.input| && !st.sc.input[st.sc.index + 3].Identifier?
    ensures ParseDirective(st)
      == Fail(Fault(ParserError(st.sc.input[st.sc.index + 3].mark, UnexpectedTokenEncountered(st.sc.input[st.sc.index + 3])),
                    st.(sc := Cursor(st.sc.input, st.sc.index + 4))))
  {
  }

  /** A token where the comma belongs is consumed without complaint, and
      the error names the token AFTER it, located at that token. */
  lemma MissingCommaNamesNextToken(st: PState)
    requires st.sc.index + 6 <= |st.sc.input| && st.sc.input[st.sc.index + 3].Identifier?
    requires !IsSymbol(st.sc.input[st.sc.index + 4], Comma)
    ensures ParseDirective(st)
      == Fail(Fault(ParserError(st.sc.input[st.sc.index + 5].mark, UnexpectedTokenEncountered(st.sc.input[st.sc.index + 5])),
                    st.(sc := Cursor(st.sc.input, st.sc.index + 6))))
  {
    var atNamespace := Next(st, 3).value.1;
    assert atNamespace.sc.index == st.sc.index + 3;
  }

  /** Nothing after a wrong token in the comma's place: the second
      `advance()` traps. */
  lemma MissingCommaAtEnd(st: PState)
    requires st.sc.index + 5 == |st.sc.input| && st.sc.input[st.sc.index + 3].Identifier?
    requires !IsSymbol(st.sc.input[st.sc.index + 4], Comma)
    ensures ParseDirective(st).Abort?
  {
    var atNamespace := Next(st, 3).value.1;
    assert atNamespace.sc.index == st.sc.index + 3;
  }

  /** `@pragma(linker, "-lc")`: the linker flag `-lc` at the `@`'s mark. */
  lemma LinkerPragma(m: Mark, table: SymbolTables.SymbolTable<Nodes.Node>)
    ensures var input := [SymbolTok(AtSign, m), Identifier("pragma", Unknown), Sym(LeftParen), Identifier("linker", Unknown),
                          Sym(Comma), StringLit("-lc", Unknown), Sym(RightParen)];
      ParseDirective(PState(Cursor(input, 0), table)) == Ok(Step(LinkerFlag("-lc", m), PState(Cursor(input, 7), table)))
  {
  }
}
