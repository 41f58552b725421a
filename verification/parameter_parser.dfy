/** The parameter parser (CompilerCore/Parser/ParameterParser.swift):
    `name : Type`. */
module ParameterParser {
  import opened Results
  import opened Tokens
  import opened Scanners
  import opened Types
  import opened Nodes
  import opened ParserCore
  import opened TypeParser

  /** ParameterParser.parse(from:ast:). The name token is taken before it is
      inspected, so a non-identifier is consumed before the throw. */
  function ParseParameter(st: PState): (r: PResult<Node>)
    ensures !Available(st.sc) ==> r.Abort?
    ensures Available(st.sc) && !st.sc.input[st.sc.index].Identifier? ==>
      r == Fail(Fault(ExpectedIdentifier, st.(sc := Cursor(st.sc.input, st.sc.index + 1))))
    ensures Available(st.sc) && st.sc.input[st.sc.index].Identifier?
            && st.sc.index + 1 < |st.sc.input| && !IsSymbol(st.sc.input[st.sc.index + 1], Colon) ==>
      var after := st.(sc := Cursor(st.sc.input, st.sc.index + 2));
      r == Fail(Fault(ParserError(Location(after.sc), Expected(Sym(Colon))), after))
    ensures r.Ok? ==>
      var i := st.sc.index;
      var k := r.value.at.sc.index - i;
      var p := r.value.value;
      && k > 2 && Moved(st, r.value.at, k)
      && st.sc.input[i].Identifier? && st.sc.input[i + 1] == SymbolTok(Colon, st.sc.input[i + 1].mark)
      && p.kind.ParameterNode? && p.kind.name == st.sc.input[i].text && p.kind.mark == st.sc.input[i].mark
      && Resolve(st.sc.input[i + 2..i + k]) == Ok(ValueType(p))
  {
    match Next(st, 1)
    case None => Abort
    case Some((tok, st1)) =>
      if !tok.Identifier? then Fail(Fault(ExpectedIdentifier, st1))
      else Typed(st1, tok)
  }

  /** `: Type` after the identifier `name`. */
  function Typed(st: PState, name: Token): (r: PResult<Node>)
    requires name.Identifier?
    ensures !Available(st.sc) ==> r == Fail(Fault(ParserError(Location(st.sc), Expected(Sym(Colon))), st))
    ensures Available(st.sc) && !IsSymbol(st.sc.input[st.sc.index], Colon) ==>
      var after := st.(sc := Cursor(st.sc.input, st.sc.index + 1));
      r == Fail(Fault(ParserError(Location(after.sc), Expected(Sym(Colon))), after))
    ensures r.Ok? ==>
      var i := st.sc.index;
      var k := r.value.at.sc.index - i;
      var p := r.value.value;
      && k > 1 && Moved(st, r.value.at, k)
      && st.sc.input[i] == SymbolTok(Colon, st.sc.input[i].mark)
      && p.kind.ParameterNode? && p.kind.name == name.text && p.kind.mark == name.mark
      && Resolve(st.sc.input[i + 1..i + k]) == Ok(ValueType(p))
  {
    ConsumeOne(st, Colon);
    var colon :- Consume(st, [Sym(Colon)]);
    var ty :- ParseType(colon.at);
    Ok(Step(NewParameter(name.text, ty.value, name.mark), ty.at))
  }

  /** Round trip: `name : T` followed by anything but `*` is read as a
      parameter called `name`, with the name's mark and type `T`, consuming
      exactly the name, the colon and the type's tokens. */
  lemma ParseParameterSpelled(st: PState, name: string, m: Mark, cm: Mark, t: Type)
    requires var i := st.sc.index;
      var n := |TypeTokens(t)|;
      && i + 2 + n <= |st.sc.input|
      && st.sc.input[i] == Identifier(name, m) && st.sc.input[i + 1] == SymbolTok(Colon, cm)
      && st.sc.input[i + 2..i + 2 + n] == TypeTokens(t)
      && (i + 2 + n < |st.sc.input| ==> !IsStar(st.sc.input[i + 2 + n]))
    ensures var r := ParseParameter(st);
      && r.Ok? && r.value.value == NewParameter(name, NewType(t, Unknown), m)
      && r.value.at == st.(sc := Cursor(st.sc.input, st.sc.index + 2 + |TypeTokens(t)|))
  {
    var st1 := st.(sc := Cursor(st.sc.input, st.sc.index + 1));
    TypedSpelled(st, st.sc.index + 1, st.sc.index + 2, Identifier(name, m), t, |TypeTokens(t)|);
    AfterName(st);
    assert ParseParameter(st) == Typed(st1, Identifier(name, m));
  }

  /** An identifier is taken as the name, and the rest is `: Type`. */
  lemma AfterName(st: PState)
    requires Available(st.sc) && st.sc.input[st.sc.index].Identifier?
    ensures ParseParameter(st) == Typed(st.(sc := Cursor(st.sc.input, st.sc.index + 1)), st.sc.input[st.sc.index])
  {
    assert Next(st, 1) == Some((st.sc.input[st.sc.index], st.(sc := Cursor(st.sc.input, st.sc.index + 1))));
  }

  /** `: T` at position `j`, the type starting at `k`, completes a
      parameter of type `T`. */
  lemma TypedSpelled(st: PState, j: nat, k: nat, name: Token, t: Type, n: nat)
    requires name.Identifier? && k == j + 1 && n == |TypeTokens(t)| && k + n <= |st.sc.input|
    requires IsSymbol(st.sc.input[j], Colon)
    requires st.sc.input[k..k + n] == TypeTokens(t)
    requires k + n < |st.sc.input| ==> !IsStar(st.sc.input[k + n])
    ensures var r := Typed(st.(sc := Cursor(st.sc.input, j)), name);
      && r.Ok? && r.value.value == NewParameter(name.text, NewType(t, Unknown), name.mark)
      && r.value.at == st.(sc := Cursor(st.sc.input, k + n))
  {
    ParseTypeAt(st, k, t, n);
    ConsumeSymbol(st.(sc := Cursor(st.sc.input, j)), Colon);
  }

  /** A colon that is missing because the stream ends right after the name
      is reported as expected, at the name's mark. */
  lemma MissingColonAtEnd(name: string, m: Mark, table: SymbolTables.SymbolTable<Node>)
    ensures ParseParameter(PState(Cursor([Identifier(name, m)], 0), table))
            == Fail(Fault(ParserError(m, Expected(Sym(Colon))), PState(Cursor([Identifier(name, m)], 1), table)))
  {
  }
}
