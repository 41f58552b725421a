/** Binding identifiers (Sema/IdentifierSema.swift): an identifier becomes
    a bound identifier holding the expression its name stands for. */
module IdentifierSema {
  import opened Results
  import opened Tokens
  import opened SymbolTables
  import opened Expressions
  import opened Types
  import opened Sema
  import ParameterSema

  /** IdentifierSema.performSemanticAnalysis(on:for:). The table is only
      read. */
  function Perform(e: Expression, t: Table): (r: SemaResult)
    ensures !e.IdentifierExpr? ==> r == Fail(Failure(SemaIssue(Expressions.Location(e), ExpectedUnboundIdentifier(e)), t))
    ensures e.IdentifierExpr? ==> (r.Abort? <==> |t.scopes| == 0)
    ensures r.Ok? <==> e.IdentifierExpr? && |t.scopes| > 0 && Find(t, e.name).Some?
    ensures r.Ok? ==> r.value == Analysed([BoundIdentifier(Find(t, e.name).value.expression, e.location)], t)
    ensures r.Fail? ==> r.error.table == t
    ensures r.Fail? && e.IdentifierExpr? ==> r.error.issue == SemaIssue(e.location, UnknownIdentifier(e.name))
  {
    match e
    case IdentifierExpr(name, loc) =>
      if |t.scopes| == 0 then Abort
      else (match Find(t, name)
        case None => Fail(Failure(SemaIssue(loc, UnknownIdentifier(name)), t))
        case Some(symbol) => Ok(Analysed([BoundIdentifier(symbol.expression, loc)], t)))
    case _ => Fail(Failure(SemaIssue(Expressions.Location(e), ExpectedUnboundIdentifier(e)), t))
  }

  /** A parameter accepted by the parameter rule is what its name binds to
      afterwards: the bound identifier stands for the parameter itself and
      has the parameter's type. */
  lemma ParameterThenIdentifier(p: Expression, t: Table, loc: Mark)
    requires p.ParameterDeclaration? && IsValidStorageType(ExprType(p.declType))
    requires |t.scopes| > 0 && Find(t, p.name).None?
    ensures var declared := ParameterSema.Perform(p, t);
      && declared.Ok?
      && var bound := Perform(IdentifierExpr(p.name, loc), declared.value.table);
      && bound == Ok(Analysed([BoundIdentifier(p, loc)], declared.value.table))
      && ExprType(bound.value.expressions[0]) == ExprType(p.declType)
  {
  }

  /** Before the parameter rule has run, the same name is unknown. */
  lemma IdentifierBeforeDeclaration(name: string, t: Table, loc: Mark)
    requires |t.scopes| > 0 && Find(t, name).None?
    ensures Perform(IdentifierExpr(name, loc), t) == Fail(Failure(SemaIssue(loc, UnknownIdentifier(name)), t))
  {
  }
}
