/** Checking parameters (Sema/ParameterSema.swift): a parameter must have a
    type a value can be stored in, and its name is declared. */
module ParameterSema {
  import opened Results
  import opened Tokens
  import opened Types
  import opened SymbolTables
  import opened Expressions
  import opened Sema

  /** ParameterSema.performSemanticAnalysis(on:for:). The storage check
      comes before the definition, so a rejected type leaves the table as
      it was. */
  function Perform(e: Expression, t: Table): (r: SemaResult)
    ensures r.Ok? <==>
      && e.ParameterDeclaration? && IsValidStorageType(ExprType(e.declType))
      && |t.scopes| > 0 && Find(t, e.name).None?
    ensures r.Ok? ==>
      && r.value.expressions == [e]
      && |r.value.table.scopes| == |t.scopes|
      && Find(r.value.table, e.name) == Some(SemaSymbol(e, true, e.location))
      && forall other :: other != e.name ==> Find(r.value.table, other) == Find(t, other)
    ensures r.Fail? ==> r.error.table == t
    ensures !e.ParameterDeclaration? ==>
      r == Fail(Failure(SemaIssue(Expressions.Location(e), ExpectedParameterDeclaration(e)), t))
    ensures e.ParameterDeclaration? && !IsValidStorageType(ExprType(e.declType)) ==>
      r == Fail(Failure(SemaIssue(e.location, IllegalStorageType(ExprType(e.declType))), t))
    ensures e.ParameterDeclaration? && IsValidStorageType(ExprType(e.declType)) && |t.scopes| > 0 && Find(t, e.name).Some? ==>
      r == Fail(Failure(Redefinition(e.name, e.location), t))
  {
    match e
    case ParameterDeclaration(name, ty, loc) =>
      if !IsValidStorageType(ExprType(ty)) then
        Fail(Failure(SemaIssue(Expressions.Location(e), IllegalStorageType(ExprType(ty))), t))
      else (match DefineSymbol(t, name, e, true, loc)
        case Abort => Abort
        case Fail(issue) => Fail(Failure(issue, t))
        case Ok(defined) => Ok(Analysed([e], defined)))
    case _ => Fail(Failure(SemaIssue(Expressions.Location(e), ExpectedParameterDeclaration(e)), t))
  }
}
