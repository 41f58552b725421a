/** Checking binary operations (Sema/BinaryOperationSema.swift): the sum of
    two integer literals is folded; any other operation must have operands
    of one storage type, compared as written. */
module BinaryOperationSema {
  import opened Results
  import opened Tokens
  import opened Types
  import opened Expressions
  import opened Sema

  /** The range of Swift's 64-bit `Int`, whose `+` traps on overflow. */
  const IntMin: int := -0x8000_0000_0000_0000
  const IntMax: int := 0x7fff_ffff_ffff_ffff

  /** `integer + integer`: the only operation that is folded. */
  predicate Folds(e: Expression)
  {
    e.BinaryOperation? && e.lhs.IntegerExpr? && e.op == Addition && e.rhs.IntegerExpr?
  }

  /** The three operand checks. `rhsReport` is the type named when the right
      operand is not a storage type. */
  function CheckOperands(e: Expression, rhsReport: Type): (r: Outcome<seq<Expression>, Issue>)
    requires e.BinaryOperation?
    ensures !r.Abort?
    ensures r.Ok? <==>
      IsValidStorageType(ExprType(e.lhs)) && IsValidStorageType(ExprType(e.rhs)) && ExprType(e.lhs) == ExprType(e.rhs)
    ensures r.Ok? ==> r.value == [e]
    ensures !IsValidStorageType(ExprType(e.lhs)) ==> r == Fail(SemaIssue(e.location, IllegalStorageType(ExprType(e.lhs))))
    ensures IsValidStorageType(ExprType(e.lhs)) && !IsValidStorageType(ExprType(e.rhs)) ==>
      r == Fail(SemaIssue(e.location, IllegalStorageType(rhsReport)))
    ensures IsValidStorageType(ExprType(e.lhs)) && IsValidStorageType(ExprType(e.rhs)) && ExprType(e.lhs) != ExprType(e.rhs) ==>
      r == Fail(SemaIssue(e.location, TypeMismatch(ExprType(e.lhs), ExprType(e.rhs))))
  {
    var lhs := ExprType(e.lhs);
    var rhs := ExprType(e.rhs);
    if !IsValidStorageType(lhs) then Fail(SemaIssue(e.location, IllegalStorageType(lhs)))
    else if !IsValidStorageType(rhs) then Fail(SemaIssue(e.location, IllegalStorageType(rhsReport)))
    else if lhs != rhs then Fail(SemaIssue(e.location, TypeMismatch(lhs, rhs)))
    else Ok([e])
  }

  /** The fold: the sum at the operation's location, or a trap when it does
      not fit in an `Int`. */
  function Fold(e: Expression): (r: Outcome<seq<Expression>, Issue>)
    requires Folds(e)
    ensures r.Abort? <==> !(IntMin <= e.lhs.number + e.rhs.number <= IntMax)
    ensures r.Ok? ==> r.value == [IntegerExpr(e.lhs.number + e.rhs.number, e.location)] && ExprType(r.value[0]) == ExprType(e)
    ensures !r.Fail?
  {
    var sum := e.lhs.number + e.rhs.number;
    if IntMin <= sum <= IntMax then Ok([IntegerExpr(sum, e.location)]) else Abort
  }

  /** BinaryOperationSema.performSemanticAnalysis(on:for:), as written: a
      right operand that is not a storage type is reported with the LEFT
      operand's type. */
  function Perform(e: Expression): (r: Outcome<seq<Expression>, Issue>)
    ensures Folds(e) ==> r == Fold(e)
    ensures e.BinaryOperation? && !Folds(e) ==> r == CheckOperands(e, ExprType(e.lhs))
    ensures !e.BinaryOperation? ==> r == Fail(SemaIssue(Expressions.Location(e), ExpectedParameterDeclaration(e)))
    ensures r.Fail? && e.BinaryOperation? && r.error.reason.IllegalStorageType? ==> r.error.reason.got == ExprType(e.lhs)
  {
    if Folds(e) then Fold(e)
    else if e.BinaryOperation? then CheckOperands(e, ExprType(e.lhs))
    else Fail(SemaIssue(Expressions.Location(e), ExpectedParameterDeclaration(e)))
  }

  /** The rule as evidently intended: the right operand's own type is
      reported, so a storage-type error always names a type that cannot be
      stored. */
  function PerformCorrected(e: Expression): (r: Outcome<seq<Expression>, Issue>)
    ensures Folds(e) ==> r == Fold(e)
    ensures e.BinaryOperation? && !Folds(e) ==> r == CheckOperands(e, ExprType(e.rhs))
    ensures !e.BinaryOperation? ==> r == Fail(SemaIssue(Expressions.Location(e), ExpectedParameterDeclaration(e)))
    ensures r.Fail? && r.error.SemaIssue? && r.error.reason.IllegalStorageType? ==> !IsValidStorageType(r.error.reason.got)
  {
    if Folds(e) then Fold(e)
    else if e.BinaryOperation? then CheckOperands(e, ExprType(e.rhs))
    else Fail(SemaIssue(Expressions.Location(e), ExpectedParameterDeclaration(e)))
  }

  // ---------------------------------------------------------------------
  // Properties

  /** `1 + x` with `x` an unbound identifier (type `None`): the rule refuses
      the right operand but names `Int`, a valid storage type. */
  lemma RightOperandReportedAsLeftType(m: Mark, x: string)
    ensures var e := BinaryOperation(IntegerExpr(1, m), Addition, IdentifierExpr(x, m), m);
      && Perform(e) == Fail(SemaIssue(m, IllegalStorageType(Int)))
      && IsValidStorageType(Int)
      && PerformCorrected(e) == Fail(SemaIssue(m, IllegalStorageType(NoneType)))
  {
  }

  /** The two versions differ exactly on a valid left operand with an
      invalid right one. */
  lemma CorrectionIsLocal(e: Expression)
    ensures Perform(e) != PerformCorrected(e) <==>
      && e.BinaryOperation? && !Folds(e)
      && IsValidStorageType(ExprType(e.lhs)) && !IsValidStorageType(ExprType(e.rhs))
  {
  }

  /** `1 + 2` folds to `3` at the operation's location; adding one to the
      largest `Int` traps. */
  lemma FoldExamples(m: Mark, n: Mark)
    ensures Perform(BinaryOperation(IntegerExpr(1, n), Addition, IntegerExpr(2, n), m)) == Ok([IntegerExpr(3, m)])
    ensures Perform(BinaryOperation(IntegerExpr(IntMax, n), Addition, IntegerExpr(1, n), m)).Abort?
  {
  }

  /** Operand types are compared as written: a string plus an `Int8*` is a
      mismatch here, although a `String` constant accepts an `Int8*` value. */
  lemma StringPlusInt8Pointer(s: string, v: Expression, m: Mark)
    requires ExprType(v) == Pointer(Int8)
    ensures Perform(BinaryOperation(StringExpr(s, m), Addition, v, m))
      == Fail(SemaIssue(m, TypeMismatch(StringType, Pointer(Int8))))
  {
  }
}
