/** The scoped symbol table (CompilerCore/SymbolTable/SymbolTable.swift).

    The table is a stack of scopes. Entering a scope pushes a COPY of the
    innermost scope, so lookups only ever search the innermost scope. The
    table is generic in what a symbol names: the parser stores syntax-tree
    nodes, semantic analysis stores expressions. `Option.None` results below
    stand for the table's `fatalError`s. */
module SymbolTables {
  import opened Results

  datatype Symbol<V> = Symbol(name: string, fullName: string, node: V)

  datatype SymbolTable<V> = SymbolTable(scopes: seq<seq<Symbol<V>>>)

  /** A new table holds one empty scope. */
  function Empty<V>(): (t: SymbolTable<V>)
    ensures |t.scopes| == 1
    ensures forall name :: FindIn(t.scopes[0], name).None?
  {
    SymbolTable([[]])
  }

  function Innermost<V>(t: SymbolTable<V>): seq<Symbol<V>>
    requires |t.scopes| > 0
  {
    t.scopes[|t.scopes| - 1]
  }

  /** The node of the first symbol called `name` in `scope`. */
  function FindIn<V>(scope: seq<Symbol<V>>, name: string): (r: Option<V>)
    ensures r.None? <==> forall i :: 0 <= i < |scope| ==> scope[i].name != name
    ensures r.Some? ==> exists i :: IsFirst(scope, name, i) && scope[i].node == r.value
  {
    if scope == [] then None
    else if scope[0].name == name then Some(scope[0].node)
    else
      var r := FindIn(scope[1..], name);
      assert forall i :: IsFirst(scope[1..], name, i) ==> IsFirst(scope, name, i + 1);
      r
  }

  /** `i` is the position of the first symbol called `name`. */
  predicate IsFirst<V>(scope: seq<Symbol<V>>, name: string, i: int)
  {
    0 <= i < |scope| && scope[i].name == name && forall j :: 0 <= j < i ==> scope[j].name != name
  }

  /** find(symbolNamed:). Reading the innermost scope of an empty stack is
      fatal, hence the precondition. */
  function Find<V>(t: SymbolTable<V>, name: string): Option<V>
    requires |t.scopes| > 0
  {
    FindIn(Innermost(t), name)
  }

  /** enterScope(): push a copy of the innermost scope. Fatal on an empty
      stack. */
  function Enter<V>(t: SymbolTable<V>): (r: Option<SymbolTable<V>>)
    ensures r.Some? <==> |t.scopes| > 0
    ensures r.Some? ==> |r.value.scopes| == |t.scopes| + 1 && r.value.scopes[..|t.scopes|] == t.scopes
    ensures r.Some? ==> forall name :: Find(r.value, name) == Find(t, name)
  {
    if |t.scopes| == 0 then None
    else Some(SymbolTable(t.scopes + [Innermost(t)]))
  }

  /** leaveScope(): pop the innermost scope. Not guarded: on an empty stack
      `popLast` does nothing. */
  function Leave<V>(t: SymbolTable<V>): (r: SymbolTable<V>)
    ensures |t.scopes| > 0 ==> |r.scopes| == |t.scopes| - 1 && t.scopes[..|r.scopes|] == r.scopes
    ensures |t.scopes| == 0 ==> r == t
  {
    if |t.scopes| == 0 then t else SymbolTable(t.scopes[..|t.scopes| - 1])
  }

  /** defineSymbol(name:node:). Redefining a visible name is fatal, and so is
      defining into an empty stack. */
  function Define<V>(t: SymbolTable<V>, name: string, node: V): (r: Option<SymbolTable<V>>)
    ensures r.Some? <==> |t.scopes| > 0 && Find(t, name).None?
    ensures r.Some? ==> |r.value.scopes| == |t.scopes|
    ensures r.Some? ==> r.value.scopes[..|t.scopes| - 1] == t.scopes[..|t.scopes| - 1]
    ensures r.Some? ==> Find(r.value, name) == Some(node)
    ensures r.Some? ==> forall other :: other != name ==> Find(r.value, other) == Find(t, other)
  {
    if |t.scopes| == 0 || Find(t, name).Some? then None
    else
      var scope := Innermost(t) + [Symbol(name, name, node)];
      var r := SymbolTable(t.scopes[..|t.scopes| - 1] + [scope]);
      FindAppend(Innermost(t), Symbol(name, name, node));
      assert Innermost(r) == scope;
      Some(r)
  }

  /** Root symbols of an imported module are placed ahead of the root
      scope's own symbols (`add(rootSymbols:)`, which is defined outside
      the modelled files and called once, at AST.swift:75). An empty stack is
      treated as fatal, like every other access to a missing scope. */
  function AddRootSymbols<V>(t: SymbolTable<V>, symbols: seq<Symbol<V>>): (r: Option<SymbolTable<V>>)
    ensures r.Some? <==> |t.scopes| > 0
    ensures r.Some? ==> |r.value.scopes| == |t.scopes| && r.value.scopes[1..] == t.scopes[1..]
    ensures r.Some? ==> r.value.scopes[0] == symbols + t.scopes[0]
  {
    if |t.scopes| == 0 then None
    else Some(SymbolTable([symbols + t.scopes[0]] + t.scopes[1..]))
  }

  /** Appending a symbol only changes the lookup of its own name, and only
      if that name was not found before. */
  lemma {:induction false} FindAppend<V>(scope: seq<Symbol<V>>, s: Symbol<V>)
    ensures forall name :: FindIn(scope + [s], name)
              == if FindIn(scope, name).Some? then FindIn(scope, name)
                 else if s.name == name then Some(s.node) else None
  {
    if scope != [] {
      FindAppend(scope[1..], s);
      assert (scope + [s])[1..] == scope[1..] + [s];
    }
  }

  /** Leaving a scope right after entering it restores the table exactly:
      everything defined in between is discarded. */
  lemma LeaveUndoesEnter<V>(t: SymbolTable<V>)
    requires |t.scopes| > 0
    ensures Leave(Enter(t).value) == t
  {
    assert Enter(t).value.scopes[..|t.scopes|] == t.scopes;
  }

  /** A name defined in an inner scope is gone after leaving that scope. */
  lemma DefineInScopeThenLeave<V>(t: SymbolTable<V>, name: string, node: V)
    requires |t.scopes| > 0 && Find(t, name).None?
    ensures Define(Enter(t).value, name, node).Some?
    ensures Leave(Define(Enter(t).value, name, node).value) == t
  {
    var e := Enter(t).value;
    var d := Define(e, name, node).value;
    assert d.scopes[..|t.scopes|] == e.scopes[..|t.scopes|] == t.scopes;
  }

  /** No shadowing: a name visible outside a scope cannot be defined again
      inside it, because entering copies the outer bindings. */
  lemma NoShadowing<V>(t: SymbolTable<V>, name: string, node: V)
    requires |t.scopes| > 0 && Find(t, name).Some?
    ensures Define(Enter(t).value, name, node).None?
  {
  }

  /** Leaving the last scope is allowed, and then every later enter and
      define is fatal. */
  lemma LeaveLastScope<V>(t: SymbolTable<V>, name: string, node: V)
    requires |t.scopes| == 1
    ensures |Leave(t).scopes| == 0
    ensures Enter(Leave(t)).None? && Define(Leave(t), name, node).None?
  {
  }
}
