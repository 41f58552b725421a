/** Semantic analysis: the errors it throws (Error/SemaError.swift), the
    symbol table it defines names in, and the driver (Sema/Sema.swift).

    The semantic symbol table is defined outside the modelled files. It is
    taken to be the parser's scope stack holding, for each name, the
    expression it stands for, whether that was only a declaration, and
    where it was defined; `defineSymbol` is taken to throw when the name is
    already visible, except that a declared name may be defined once. */
module Sema {
  import opened Results
  import opened Tokens
  import opened Types
  import opened SymbolTables
  import opened Expressions

  /** SemaError: the reasons semantic analysis gives. */
  datatype SemaError =
    | ExpectedFunctionForCall
    | IncorrectArgumentCount(expectedCount: int, gotCount: int)
    | ArgumentTypeMismatch(expected: Type, got: Type, at: int)
    | IllegalStorageType(got: Type)
    | TypeMismatch(expected: Type, got: Type)
    | ExpectedFunctionDeclarationDefinition(offending: Expression)
    | ExpectedParameterDeclaration(offending: Expression)
    | ExpectedConstantDeclarationDefinition(offending: Expression)
    | ExpectedCallExpression(offending: Expression)
    | UnknownIdentifier(name: string)
    | ExpectedFunctionIdentifier(offending: Expression)
    | ExpectedUnboundIdentifier(offending: Expression)

  /** What the analysis throws: a semantic error at a location, or the
      symbol table refusing to define a name again. */
  datatype Issue = SemaIssue(location: Mark, reason: SemaError) | Redefinition(name: string, location: Mark)

  /** What a name stands for during semantic analysis. */
  datatype SemaSymbol = SemaSymbol(expression: Expression, isDeclaration: bool, location: Mark)

  type Table = SymbolTable<SemaSymbol>

  /** A rule's result, with the table as the rule leaves it; a throw also
      carries the table as it stood at the throw, since Swift does not roll
      back the mutations made before it. */
  datatype Analysed = Analysed(expressions: seq<Expression>, table: Table)
  datatype Failure = Failure(issue: Issue, table: Table)
  type SemaResult = Outcome<Analysed, Failure>

  /** The table accepts a definition of a name currently bound to `found`. */
  predicate Admits(found: Option<SemaSymbol>, isDeclaration: bool)
  {
    found.None? || (found.value.isDeclaration && !isDeclaration)
  }

  /** Every symbol of `scope` called `name` now stands for `s`. */
  function Rebind(scope: seq<Symbol<SemaSymbol>>, name: string, s: SemaSymbol): (r: seq<Symbol<SemaSymbol>>)
    ensures |r| == |scope|
    ensures forall other :: other != name ==> FindIn(r, other) == FindIn(scope, other)
    ensures FindIn(scope, name).Some? ==> FindIn(r, name) == Some(s)
  {
    if scope == [] then []
    else
      var head := if scope[0].name == name then Symbol(scope[0].name, scope[0].fullName, s) else scope[0];
      var r := [head] + Rebind(scope[1..], name, s);
      assert r[1..] == Rebind(scope[1..], name, s);
      r
  }

  /** defineSymbol(name:expression:isDeclaration:location:). */
  function DefineSymbol(t: Table, name: string, e: Expression, isDeclaration: bool, loc: Mark): (r: Outcome<Table, Issue>)
    ensures r.Abort? <==> |t.scopes| == 0
    ensures r.Ok? <==> |t.scopes| > 0 && Admits(Find(t, name), isDeclaration)
    ensures r.Fail? ==> r.error == Redefinition(name, loc)
    ensures r.Ok? ==>
      && |r.value.scopes| == |t.scopes|
      && r.value.scopes[..|t.scopes| - 1] == t.scopes[..|t.scopes| - 1]
      && Find(r.value, name) == Some(SemaSymbol(e, isDeclaration, loc))
      && forall other :: other != name ==> Find(r.value, other) == Find(t, other)
  {
    if |t.scopes| == 0 then Abort
    else
      var s := SemaSymbol(e, isDeclaration, loc);
      var found := Find(t, name);
      if found.None? then Ok(SymbolTables.Define(t, name, s).value)
      else if found.value.isDeclaration && !isDeclaration then
        var scope := Rebind(SymbolTables.Innermost(t), name, s);
        var r := SymbolTable(t.scopes[..|t.scopes| - 1] + [scope]);
        assert SymbolTables.Innermost(r) == scope;
        Ok(r)
      else Fail(Redefinition(name, loc))
  }

  // ---------------------------------------------------------------------
  // The driver

  /** analyse(expression:): a block is rebuilt from its analysed items at
      the same location; every other expression is handed back as it is.
      No rule is applied, so the whole walk is the identity. */
  function Analyse(e: Expression): (r: seq<Expression>)
    ensures r == [e]
    decreases e, 1
  {
    match e
    case Block(items, loc) => [Block(AnalyseAll(items), loc)]
    case _ => [e]
  }

  /** analyse(expressions:): the analyses of the items, concatenated in
      order. */
  function AnalyseAll(es: seq<Expression>): (r: seq<Expression>)
    ensures r == es
    decreases es, 0
  {
    if es == [] then [] else Analyse(es[0]) + AnalyseAll(es[1..])
  }

  /** performAnalysis(): the syntax tree's expressions are replaced by their
      analysis, which leaves them as they were. */
  function PerformAnalysis(expressions: seq<Expression>): (r: seq<Expression>)
    ensures r == expressions
  {
    AnalyseAll(expressions)
  }

  // ---------------------------------------------------------------------
  // Properties of the table

  /** A name declared once may be defined once; after that it is refused,
      whether as a declaration or a definition. */
  lemma DeclareDefineRedefine(t: Table, name: string, d: Expression, e: Expression, loc: Mark, isDeclaration: bool)
    requires |t.scopes| > 0 && Find(t, name).None?
    ensures var declared := DefineSymbol(t, name, d, true, loc);
      && declared.Ok?
      && var defined := DefineSymbol(declared.value, name, e, false, loc);
      && defined.Ok? && Find(defined.value, name) == Some(SemaSymbol(e, false, loc))
      && DefineSymbol(defined.value, name, e, isDeclaration, loc) == Fail(Redefinition(name, loc))
  {
  }

  /** A declaration cannot be repeated. */
  lemma DeclareTwice(t: Table, name: string, d: Expression, loc: Mark)
    requires |t.scopes| > 0 && Find(t, name).None?
    ensures var declared := DefineSymbol(t, name, d, true, loc);
      declared.Ok? && DefineSymbol(declared.value, name, d, true, loc) == Fail(Redefinition(name, loc))
  {
  }
}
