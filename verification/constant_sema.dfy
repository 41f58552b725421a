/** Checking constants (Sema/ConstantSema.swift): a constant declaration,
    or a definition of one with a value. Only a constant with a value has
    its type checked, and the value itself is not analysed. */
module ConstantSema {
  import opened Results
  import opened Tokens
  import opened Types
  import opened SymbolTables
  import opened Expressions
  import opened Sema

  /** The two shapes the rule accepts. */
  predicate IsConstant(e: Expression)
  {
    e.ConstantDeclaration? || (e.Definition? && e.declaration.ConstantDeclaration?)
  }

  /** The type checks a constant with value `v` must pass: a storage type,
      and the same representation as the value's type (so `String` and
      `Int8*` agree). */
  predicate TypeChecks(d: Expression, v: Expression)
    requires d.ConstantDeclaration?
  {
    IsValidStorageType(ExprType(d.declType)) && Resolved(ExprType(d.declType)) == Resolved(ExprType(v))
  }

  /** ConstantSema.performSemanticAnalysis(on:for:). */
  function Perform(e: Expression, t: Table): (r: SemaResult)
    ensures !IsConstant(e) ==>
      r == Fail(Failure(SemaIssue(Expressions.Location(e), ExpectedConstantDeclarationDefinition(e)), t))
    ensures e.ConstantDeclaration? ==> r == OnConstant(e, None, t)
    ensures e.Definition? && e.declaration.ConstantDeclaration? ==> r == OnConstant(e.declaration, Some(e.body), t)
  {
    match e
    case ConstantDeclaration(_, _, _) => OnConstant(e, None, t)
    case Definition(d, value) =>
      if d.ConstantDeclaration? then OnConstant(d, Some(value), t)
      else Fail(Failure(SemaIssue(Expressions.Location(e), ExpectedConstantDeclarationDefinition(e)), t))
    case _ => Fail(Failure(SemaIssue(Expressions.Location(e), ExpectedConstantDeclarationDefinition(e)), t))
  }

  /** performSemanticAnalysis(onConstant:withInitialValue:for:). The storage
      check comes first, reported at the type; then the representation
      check, reported at the value; only then is the name defined. */
  function OnConstant(d: Expression, value: Option<Expression>, t: Table): (r: SemaResult)
    ensures !d.ConstantDeclaration? ==>
      r == Fail(Failure(SemaIssue(Expressions.Location(d), ExpectedConstantDeclarationDefinition(d)), t))
    ensures r.Ok? <==>
      && d.ConstantDeclaration? && (value.Some? ==> TypeChecks(d, value.value))
      && |t.scopes| > 0 && Admits(Find(t, d.name), value.None?)
    ensures r.Fail? ==> r.error.table == t
    ensures d.ConstantDeclaration? && value.Some? && !IsValidStorageType(ExprType(d.declType)) ==>
      r == Fail(Failure(SemaIssue(Expressions.Location(d.declType), IllegalStorageType(ExprType(d.declType))), t))
    ensures d.ConstantDeclaration? && value.Some? && IsValidStorageType(ExprType(d.declType))
            && Resolved(ExprType(d.declType)) != Resolved(ExprType(value.value)) ==>
      r == Fail(Failure(SemaIssue(Expressions.Location(value.value), TypeMismatch(ExprType(d.declType), ExprType(value.value))), t))
    ensures r.Ok? ==>
      && |r.value.table.scopes| == |t.scopes|
      && Find(r.value.table, d.name) == Some(SemaSymbol(d, value.None?, d.location))
      && forall other :: other != d.name ==> Find(r.value.table, other) == Find(t, other)
    ensures r.Ok? && value.None? ==> r.value.expressions == [d]
    ensures r.Ok? && value.Some? ==> r.value.expressions == [Definition(d, value.value)]
  {
    match d
    case ConstantDeclaration(name, ty, loc) =>
      if value.Some? && !IsValidStorageType(ExprType(ty)) then
        Fail(Failure(SemaIssue(Expressions.Location(ty), IllegalStorageType(ExprType(ty))), t))
      else if value.Some? && Resolved(ExprType(ty)) != Resolved(ExprType(value.value)) then
        Fail(Failure(SemaIssue(Expressions.Location(value.value), TypeMismatch(ExprType(ty), ExprType(value.value))), t))
      else
        (match DefineSymbol(t, name, d, value.None?, loc)
        case Abort => Abort
        case Fail(issue) => Fail(Failure(issue, t))
        case Ok(defined) =>
          if value.None? then Ok(Analysed([d], defined)) else Ok(Analysed([Definition(d, value.value)], defined)))
    case _ => Fail(Failure(SemaIssue(Expressions.Location(d), ExpectedConstantDeclarationDefinition(d)), t))
  }

  // ---------------------------------------------------------------------
  // Properties

  /** A declaration without a value is not type-checked at all: even a
      constant of type `None` is declared. */
  lemma NoneDeclarationAccepted(name: string, tloc: Mark, loc: Mark, t: Table)
    requires |t.scopes| > 0 && Find(t, name).None?
    ensures var c := ConstantDeclaration(name, TypeExpr(NoneType, tloc), loc);
      Perform(c, t).Ok? && Perform(c, t).value.expressions == [c]
  {
  }

  /** The same constant of type `None` with a value is refused at its type,
      before the value is looked at. */
  lemma NoneDefinitionRefused(name: string, tloc: Mark, loc: Mark, v: Expression, t: Table)
    ensures var c := ConstantDeclaration(name, TypeExpr(NoneType, tloc), loc);
      Perform(Definition(c, v), t) == Fail(Failure(SemaIssue(tloc, IllegalStorageType(NoneType)), t))
  {
  }

  /** A `String` constant accepts a value of type `Int8*`, because the check
      compares representations. */
  lemma StringTakesInt8Pointer(name: string, loc: Mark, v: Expression, t: Table)
    requires ExprType(v) == Pointer(Int8) && |t.scopes| > 0 && Find(t, name).None?
    ensures var c := ConstantDeclaration(name, TypeExpr(StringType, loc), loc);
      Perform(Definition(c, v), t) == Ok(Analysed([Definition(c, v)], DefineSymbol(t, name, c, false, loc).value))
  {
  }

  /** An `Int` constant refuses a string literal, at the literal. */
  lemma IntRefusesString(name: string, loc: Mark, s: string, sloc: Mark, t: Table)
    ensures var c := ConstantDeclaration(name, TypeExpr(Int, loc), loc);
      Perform(Definition(c, StringExpr(s, sloc)), t)
        == Fail(Failure(SemaIssue(sloc, TypeMismatch(Int, StringType)), t))
  {
  }
}
