/** Checking calls (Sema/CallSema.swift): the callee must refer to a
    function, the argument count must be its parameter count, and each
    argument must have its parameter's type. Types are compared as written,
    not by representation. */
module CallSema {
  import opened Results
  import opened Tokens
  import opened Types
  import opened Nodes
  import opened Sema

  /** The function node the callee identifier refers to, if it refers to
      one. */
  function Target(call: Node): (r: Option<Node>)
    requires call.kind.CallNode?
    ensures r.Some? ==> r.value.kind.FunctionNode?
  {
    var callee := call.kind.callee;
    if callee.kind.IdentifierNode? && callee.kind.reference.Some? && callee.kind.reference.value.kind.FunctionNode?
    then Some(callee.kind.reference.value)
    else None
  }

  /** Arguments and parameters pair up one to one with equal value types. */
  predicate Agrees(parameters: seq<Node>, arguments: seq<Node>)
  {
    |parameters| == |arguments| && forall i :: 0 <= i < |parameters| ==> ValueType(parameters[i]) == ValueType(arguments[i])
  }

  /** The first offset, from `from` on, whose argument type differs from its
      parameter type. */
  function FirstMismatch(parameters: seq<Node>, arguments: seq<Node>, from: nat): (r: Option<nat>)
    requires |parameters| == |arguments| && from <= |parameters|
    ensures r.None? <==> forall i :: from <= i < |parameters| ==> ValueType(parameters[i]) == ValueType(arguments[i])
    ensures r.Some? ==>
      && from <= r.value < |parameters| && ValueType(parameters[r.value]) != ValueType(arguments[r.value])
      && forall j :: from <= j < r.value ==> ValueType(parameters[j]) == ValueType(arguments[j])
    decreases |parameters| - from
  {
    if from == |parameters| then None
    else if ValueType(parameters[from]) != ValueType(arguments[from]) then Some(from)
    else FirstMismatch(parameters, arguments, from + 1)
  }

  /** CallNode.performSemanticAnalysis(). The arity is checked before any
      argument, and the first mismatching argument is the one reported. A
      call that passes comes back unchanged. */
  function Perform(call: Node): (r: Outcome<seq<Node>, Issue>)
    requires call.kind.CallNode?
    ensures !r.Abort?
    ensures r.Ok? <==> Target(call).Some? && Agrees(Target(call).value.kind.parameters, call.children)
    ensures r.Ok? ==> r.value == [call]
    ensures Target(call).None? ==> r == Fail(SemaIssue(call.location, ExpectedFunctionForCall))
    ensures Target(call).Some? && |Target(call).value.kind.parameters| != |call.children| ==>
      r == Fail(SemaIssue(call.location, IncorrectArgumentCount(|Target(call).value.kind.parameters|, |call.children|)))
    ensures Target(call).Some? && |Target(call).value.kind.parameters| == |call.children| && r.Fail? ==>
      var ps := Target(call).value.kind.parameters;
      && r.error.SemaIssue? && r.error.location == call.location && r.error.reason.ArgumentTypeMismatch?
      && var i := r.error.reason.at;
      && 0 <= i < |ps|
      && r.error.reason == ArgumentTypeMismatch(ValueType(ps[i]), ValueType(call.children[i]), i)
      && ValueType(ps[i]) != ValueType(call.children[i])
      && forall j :: 0 <= j < i ==> ValueType(ps[j]) == ValueType(call.children[j])
  {
    match Target(call)
    case None => Fail(SemaIssue(call.location, ExpectedFunctionForCall))
    case Some(target) =>
      var ps := target.kind.parameters;
      if |ps| != |call.children| then
        Fail(SemaIssue(call.location, IncorrectArgumentCount(|ps|, |call.children|)))
      else
        (match FirstMismatch(ps, call.children, 0)
        case None => Ok([call])
        case Some(i) => Fail(SemaIssue(call.location, ArgumentTypeMismatch(ValueType(ps[i]), ValueType(call.children[i]), i))))
  }

  // ---------------------------------------------------------------------
  // Properties

  /** `f(x)` where `f` takes one `Int` and `x` is an `Int8` parameter: the
      argument at offset 0 is reported with both types. */
  lemma MismatchAtOffsetZero(m: Mark)
    ensures var intType := NewType(Int, m);
      var f := NewFunction("f", intType, [NewParameter("n", intType, m)], m);
      var x := NewIdentifier("x", Some(NewParameter("x", NewType(Int8, m), m)), m);
      var call := NewCall(NewIdentifier("f", Some(f), m), [x], m);
      Perform(call) == Fail(SemaIssue(Unknown, ArgumentTypeMismatch(Int, Int8, 0)))
  {
  }

  /** A wrong count is reported even when no argument type would match. */
  lemma ArityFirst(f: Node, args: seq<Node>, m: Mark)
    requires f.kind.FunctionNode? && |f.kind.parameters| != |args|
    ensures Perform(NewCall(NewIdentifier(f.kind.name, Some(f), m), args, m))
      == Fail(SemaIssue(Unknown, IncorrectArgumentCount(|f.kind.parameters|, |args|)))
  {
  }

  /** An unbound callee, or one bound to something other than a function,
      is refused whatever the arguments. */
  lemma CalleeNotFunction(name: string, reference: Option<Node>, args: seq<Node>, m: Mark)
    requires reference.Some? ==> !reference.value.kind.FunctionNode?
    ensures Perform(NewCall(NewIdentifier(name, reference, m), args, m)) == Fail(SemaIssue(Unknown, ExpectedFunctionForCall))
  {
  }
}
