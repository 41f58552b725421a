/** Checking functions (Sema/FunctionSema.swift): a function declaration,
    or a definition of one with a body. */
module FunctionSema {
  import opened Results
  import opened Tokens
  import opened SymbolTables
  import opened Expressions
  import opened Sema

  /** The two shapes the rule accepts. */
  predicate IsFunction(e: Expression)
  {
    e.FunctionDeclaration? || (e.Definition? && e.declaration.FunctionDeclaration?)
  }

  /** FunctionSema.performSemanticAnalysis(on:for:). */
  function Perform(e: Expression, t: Table): (r: SemaResult)
    ensures !IsFunction(e) ==>
      r == Fail(Failure(SemaIssue(Expressions.Location(e), ExpectedFunctionDeclarationDefinition(e)), t))
    ensures e.FunctionDeclaration? ==> r == OnFunction(e, None, t)
    ensures e.Definition? && e.declaration.FunctionDeclaration? ==> r == OnFunction(e.declaration, Some(e.body), t)
  {
    match e
    case FunctionDeclaration(_, _, _, _) => OnFunction(e, None, t)
    case Definition(d, body) =>
      if d.FunctionDeclaration? then OnFunction(d, Some(body), t)
      else Fail(Failure(SemaIssue(Expressions.Location(e), ExpectedFunctionDeclarationDefinition(e)), t))
    case _ => Fail(Failure(SemaIssue(Expressions.Location(e), ExpectedFunctionDeclarationDefinition(e)), t))
  }

  /** performSemanticAnalysis(onFunction:withBody:for:). The name is defined
      in the current scope (as a declaration when there is no body), then
      the parameters and the body are analysed inside one scope of their
      own, which is left again, so the table ends as the single definition
      left it. The analysed body list is wrapped in a new block. */
  function OnFunction(d: Expression, body: Option<Expression>, t: Table): (r: SemaResult)
    ensures !d.FunctionDeclaration? ==>
      r == Fail(Failure(SemaIssue(Expressions.Location(d), ExpectedFunctionDeclarationDefinition(d)), t))
    ensures d.FunctionDeclaration? ==> (r.Abort? <==> |t.scopes| == 0)
    ensures r.Ok? <==> d.FunctionDeclaration? && |t.scopes| > 0 && Admits(Find(t, d.name), body.None?)
    ensures r.Fail? ==> r.error.table == t
    ensures r.Fail? && d.FunctionDeclaration? ==> r.error.issue == Redefinition(d.name, d.location)
    ensures r.Ok? ==>
      && |r.value.table.scopes| == |t.scopes|
      && r.value.table.scopes[..|t.scopes| - 1] == t.scopes[..|t.scopes| - 1]
      && Find(r.value.table, d.name) == Some(SemaSymbol(d, body.None?, d.location))
      && forall other :: other != d.name ==> Find(r.value.table, other) == Find(t, other)
    ensures r.Ok? && body.None? ==> r.value.expressions == [d]
    ensures r.Ok? && body.Some? ==> r.value.expressions == [Definition(d, Block([body.value], d.location))]
  {
    match d
    case FunctionDeclaration(name, returnType, parameters, loc) =>
      (match DefineSymbol(t, name, d, body.None?, loc)
      case Abort => Abort
      case Fail(issue) => Fail(Failure(issue, t))
      case Ok(defined) =>
        if body.None? then Ok(Analysed([FunctionDeclaration(name, returnType, parameters, loc)], defined))
        else
          (match Enter(defined)
          case None => Abort
          case Some(inner) =>
            var updatedParameters := AnalyseAll(parameters);
            var updatedBody := Analyse(body.value);
            LeaveUndoesEnter(defined);
            Ok(Analysed([Definition(FunctionDeclaration(name, returnType, updatedParameters, loc), Block(updatedBody, loc))],
                        Leave(inner)))))
    case _ => Fail(Failure(SemaIssue(Expressions.Location(d), ExpectedFunctionDeclarationDefinition(d)), t))
  }

  // ---------------------------------------------------------------------
  // Properties

  /** A function may be declared and then defined; the name then stands
      for the definition's declaration, and a second definition is
      refused. */
  lemma DeclareThenDefine(name: string, rt: Expression, ps: seq<Expression>, loc: Mark, body: Expression, t: Table)
    requires |t.scopes| > 0 && Find(t, name).None?
    ensures var f := FunctionDeclaration(name, rt, ps, loc);
      var declared := Perform(f, t);
      && declared.Ok? && declared.value.expressions == [f]
      && var defined := Perform(Definition(f, body), declared.value.table);
      && defined.Ok?
      && defined.value.expressions == [Definition(f, Block([body], loc))]
      && Find(defined.value.table, name) == Some(SemaSymbol(f, false, loc))
      && Perform(Definition(f, body), defined.value.table) == Fail(Failure(Redefinition(name, loc), defined.value.table))
  {
  }

  /** A block body comes back as a block holding that block. */
  lemma BlockBodyNested(f: Expression, items: seq<Expression>, bloc: Mark, t: Table)
    requires f.FunctionDeclaration? && |t.scopes| > 0 && Find(t, f.name).None?
    ensures Perform(Definition(f, Block(items, bloc)), t).Ok?
    ensures Perform(Definition(f, Block(items, bloc)), t).value.expressions
      == [Definition(f, Block([Block(items, bloc)], f.location))]
  {
  }
}
