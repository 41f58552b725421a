/** The syntax tree container (CompilerCore/AST/AST.swift): the list of
    modules, the stack of nodes being visited, and the parser's symbol table.

    Nodes are values here. Where the source relies on the visited module and
    the listed module being the same object, `Add` writes the changed module
    back into `modules`; modules are identified by name, which `AddModules`
    keeps unique. `None` stands for the source's `fatalError`s and traps. */
module Ast {
  import opened Results
  import opened Tokens
  import opened Nodes
  import opened SymbolTables

  datatype Ast = Ast(modules: seq<Module>, visitStack: seq<Node>, table: SymbolTable<Node>)

  /** No two modules share a name. */
  predicate UniqueNames(ms: seq<Module>)
  {
    forall i, j :: 0 <= i < j < |ms| ==> ms[i].kind.name != ms[j].kind.name
  }

  predicate HasModuleNamed(ms: seq<Module>, name: string)
  {
    exists i :: 0 <= i < |ms| && ms[i].kind.name == name
  }

  /** init(mainModuleName:): one empty module, which is also the only node
      being visited, and an empty symbol table. */
  function Init(name: string): (a: Ast)
    ensures |a.modules| == 1 && a.modules[0].kind.name == name && a.modules[0].children == []
    ensures a.visitStack == [a.modules[0]]
    ensures |a.table.scopes| == 1 && a.table.scopes[0] == []
    ensures UniqueNames(a.modules)
  {
    var m := NewModule(name);
    Ast([m], [m], Empty())
  }

  /** visit(_:): the node becomes the current visitation point. */
  function Visit(a: Ast, n: Node): (r: Ast)
    ensures r.visitStack == a.visitStack + [n]
    ensures r.modules == a.modules && r.table == a.table
  {
    a.(visitStack := a.visitStack + [n])
  }

  /** leave(), as written: it succeeds only when exactly one node is being
      visited, popping it. Leaving a node visited on top of the main module
      is fatal, and leaving the main module empties the stack. */
  function Leave(a: Ast): (r: Option<(Node, Ast)>)
    ensures r.Some? <==> |a.visitStack| == 1
    ensures r.Some? ==> r.value.0 == a.visitStack[0] && r.value.1 == a.(visitStack := [])
  {
    if |a.visitStack| == 1 then Some((a.visitStack[0], a.(visitStack := []))) else None
  }

  /** leave() as its diagnostic describes it: popping a visited node is
      allowed, popping the main scope is fatal. */
  function LeaveVisited(a: Ast): (r: Option<(Node, Ast)>)
    ensures r.Some? <==> |a.visitStack| > 1
    ensures r.Some? ==> |r.value.1.visitStack| == |a.visitStack| - 1 > 0
    ensures r.Some? ==> a.visitStack == r.value.1.visitStack + [r.value.0]
  {
    if |a.visitStack| > 1 then
      var k := |a.visitStack| - 1;
      assert a.visitStack == a.visitStack[..k] + [a.visitStack[k]];
      Some((a.visitStack[k], a.(visitStack := a.visitStack[..k])))
    else None
  }

  /** The as-written `leave` cannot undo a `visit`: right after the tree is
      created, visiting any node and leaving it is fatal. */
  lemma LeaveAfterVisitIsFatal(name: string, n: Node)
    ensures Leave(Visit(Init(name), n)).None?
  {
  }

  /** With the guard as described, leaving undoes visiting exactly, and the
      main module can never be left. */
  lemma LeaveVisitedUndoesVisit(a: Ast, n: Node)
    requires |a.visitStack| > 0
    ensures LeaveVisited(Visit(a, n)) == Some((n, a))
    ensures forall name :: LeaveVisited(Init(name)).None?
  {
    var r := LeaveVisited(Visit(a, n)).value;
    assert r.1.visitStack == a.visitStack;
  }

  /** add(_:): a module goes through `AddModules`; any other node is
      appended to the children of the current visitation point, which must
      exist. */
  function Add(a: Ast, n: Node): (r: Option<Ast>)
    ensures n.kind.ModuleNode? ==> r == AddModules(a, [n], [])
    ensures !n.kind.ModuleNode? ==> (r.Some? <==> |a.visitStack| > 0)
    ensures !n.kind.ModuleNode? && r.Some? ==>
      var k := |a.visitStack| - 1;
      && |r.value.visitStack| == |a.visitStack|
      && r.value.visitStack[..k] == a.visitStack[..k]
      && r.value.visitStack[k] == AddChild(a.visitStack[k], n)
      && r.value.table == a.table
      && |r.value.modules| == |a.modules|
  {
    if n.kind.ModuleNode? then AddModules(a, [n], [])
    else if |a.visitStack| == 0 then None
    else
      var k := |a.visitStack| - 1;
      var top := AddChild(a.visitStack[k], n);
      Some(Ast(WriteBack(a.modules, top), a.visitStack[..k] + [top], a.table))
  }

  /** The visited node and the listed module of the same name are one object
      in the source, so a change to the one is a change to the other. */
  function WriteBack(ms: seq<Module>, n: Node): (r: seq<Module>)
    ensures |r| == |ms|
    ensures forall i :: 0 <= i < |ms| ==>
      r[i] == if n.kind.ModuleNode? && ms[i].kind.name == n.kind.name then n else ms[i]
  {
    if ms == [] then []
    else
      [if n.kind.ModuleNode? && ms[0].kind.name == n.kind.name then n else ms[0]]
      + WriteBack(ms[1..], n)
  }

  /** After `Init`, adding a node gives the main module that node as its
      last child, both on the visit stack and in the module list. */
  lemma AddToMainModule(name: string, n: Node)
    requires !n.kind.ModuleNode?
    ensures var r := Add(Init(name), n);
      && r.Some?
      && r.value.modules[0].children == [n]
      && r.value.visitStack == [r.value.modules[0]]
  {
  }

  /** add(modules:symbols:): the symbols are merged into the root scope, then
      each incoming module whose name is not yet present is inserted at its
      index in the incoming list. An empty scope stack or an insertion index
      past the end is fatal. */
  function AddModules(a: Ast, incoming: seq<Module>, symbols: seq<Symbol<Node>>): (r: Option<Ast>)
    ensures r.Some? ==> r.value.visitStack == a.visitStack
    ensures r.Some? ==> AddRootSymbols(a.table, symbols) == Some(r.value.table)
    ensures r.Some? && UniqueNames(a.modules) ==> UniqueNames(r.value.modules)
    ensures r.Some? ==> forall i :: 0 <= i < |incoming| ==> HasModuleNamed(r.value.modules, incoming[i].kind.name)
    ensures r.Some? ==> forall i :: 0 <= i < |a.modules| ==> a.modules[i] in r.value.modules
  {
    match AddRootSymbols(a.table, symbols)
    case None => None
    case Some(table) =>
      match InsertModules(a.modules, incoming, 0)
      case None => None
      case Some(ms) => Some(Ast(ms, a.visitStack, table))
  }

  /** The `enumerated().forEach` loop of add(modules:symbols:), starting at
      incoming index `index`. */
  function InsertModules(ms: seq<Module>, incoming: seq<Module>, index: nat): (r: Option<seq<Module>>)
    ensures r.Some? && UniqueNames(ms) ==> UniqueNames(r.value)
    ensures r.Some? ==> forall i :: 0 <= i < |incoming| ==> HasModuleNamed(r.value, incoming[i].kind.name)
    ensures r.Some? ==> forall i :: 0 <= i < |ms| ==> ms[i] in r.value
    ensures r.Some? ==> forall m :: m in r.value ==> m in ms || m in incoming
    ensures (forall i :: 0 <= i < |incoming| ==> HasModuleNamed(ms, incoming[i].kind.name)) ==> r == Some(ms)
    decreases |incoming|, 1
  {
    if incoming == [] then Some(ms)
    else if HasModuleNamed(ms, incoming[0].kind.name) then
      var r := InsertModules(ms, incoming[1..], index + 1);
      assert forall i :: 1 <= i < |incoming| ==> incoming[i] == incoming[1..][i - 1];
      r
    else InsertAbsent(ms, incoming, index)
  }

  /** One step of the loop for a module whose name is not yet present: it
      is inserted at `index`, which must not be past the end. */
  function InsertAbsent(ms: seq<Module>, incoming: seq<Module>, index: nat): (r: Option<seq<Module>>)
    requires incoming != [] && !HasModuleNamed(ms, incoming[0].kind.name)
    ensures r.Some? && UniqueNames(ms) ==> UniqueNames(r.value)
    ensures r.Some? ==> forall i :: 0 <= i < |incoming| ==> HasModuleNamed(r.value, incoming[i].kind.name)
    ensures r.Some? ==> forall i :: 0 <= i < |ms| ==> ms[i] in r.value
    ensures r.Some? ==> forall m :: m in r.value ==> m in ms || m in incoming
    decreases |incoming|, 0
  {
    if index > |ms| then None
    else
      var ms' := InsertModule(ms, incoming[0], index);
      var r := InsertModules(ms', incoming[1..], index + 1);
      if r.Some? then
        InsertedThenRest(ms, ms', incoming, r.value);
        r
      else r
  }

  /** What the rest of the loop keeps, with the first module inserted
      before it. */
  lemma InsertedThenRest(ms: seq<Module>, ms': seq<Module>, incoming: seq<Module>, rv: seq<Module>)
    requires incoming != [] && HasModuleNamed(ms', incoming[0].kind.name)
    requires forall i :: 0 <= i < |ms| ==> ms[i] in ms'
    requires forall x :: x in ms' ==> x in ms || x == incoming[0]
    requires forall i :: 0 <= i < |incoming[1..]| ==> HasModuleNamed(rv, incoming[1..][i].kind.name)
    requires forall i :: 0 <= i < |ms'| ==> ms'[i] in rv
    requires forall m :: m in rv ==> m in ms' || m in incoming[1..]
    ensures forall i :: 0 <= i < |incoming| ==> HasModuleNamed(rv, incoming[i].kind.name)
    ensures forall i :: 0 <= i < |ms| ==> ms[i] in rv
    ensures forall m :: m in rv ==> m in ms || m in incoming
  {
    HasModuleNamedKept(ms', rv, incoming[0].kind.name);
    forall i | 1 <= i < |incoming| ensures HasModuleNamed(rv, incoming[i].kind.name) {
      assert incoming[i] == incoming[1..][i - 1];
    }
    forall m | m in rv ensures m in ms || m in incoming {
      if m in incoming[1..] {
        var k :| 0 <= k < |incoming[1..]| && incoming[1..][k] == m;
        assert incoming[k + 1] == m;
      }
    }
  }

  lemma HasModuleNamedKept(a: seq<Module>, b: seq<Module>, name: string)
    requires HasModuleNamed(a, name)
    requires forall i :: 0 <= i < |a| ==> a[i] in b
    ensures HasModuleNamed(b, name)
  {
    var i :| 0 <= i < |a| && a[i].kind.name == name;
    var j :| 0 <= j < |b| && b[j] == a[i];
  }

  /** One insertion: the module lands at exactly the given index and the
      modules before and after it keep their order. */
  function InsertModule(ms: seq<Module>, m: Module, index: nat): (r: seq<Module>)
    requires index <= |ms|
    requires !HasModuleNamed(ms, m.kind.name)
    ensures |r| == |ms| + 1 && r[index] == m
    ensures r[..index] == ms[..index] && r[index + 1..] == ms[index..]
    ensures UniqueNames(ms) ==> UniqueNames(r)
    ensures HasModuleNamed(r, m.kind.name)
    ensures forall i :: 0 <= i < |ms| ==> ms[i] in r
    ensures forall x :: x in r ==> x in ms || x == m
  {
    var r := ms[..index] + [m] + ms[index..];
    assert forall i :: 0 <= i < |r| ==> r[i] == if i < index then ms[i] else if i == index then m else ms[i - 1];
    r
  }

  /** Adding modules that are all present already changes nothing but the
      root scope. */
  lemma AddPresentModules(a: Ast, incoming: seq<Module>)
    requires |a.table.scopes| > 0
    requires forall i :: 0 <= i < |incoming| ==> HasModuleNamed(a.modules, incoming[i].kind.name)
    ensures AddModules(a, incoming, []) == Some(a)
  {
    assert [] + a.table.scopes[0] == a.table.scopes[0];
    assert [a.table.scopes[0]] + a.table.scopes[1..] == a.table.scopes;
  }

  /** The insertion index is the incoming index, not the number of modules
      inserted so far: re-adding the main module ahead of a new one leaves a
      gap, and the insertion traps. */
  lemma InsertionPastTheEnd(name: string, other: string)
    requires name != other
    ensures AddModules(Init(name), [NewModule(name), NewModule(name), NewModule(other)], []).None?
    ensures AddModules(Init(name), [NewModule(name), NewModule(other)], []).Some?
  {
    var a := Init(name);
    var m, o := NewModule(name), NewModule(other);
    assert HasModuleNamed(a.modules, name);
    assert !HasModuleNamed(a.modules, other);
    assert [m, m, o][1..] == [m, o] && [m, o][1..] == [o] && [o][1..] == [];
    assert InsertModules(a.modules, [m, m, o], 0) == InsertModules(a.modules, [m, o], 1);
    assert InsertModules(a.modules, [m, o], 1) == InsertModules(a.modules, [o], 2);
    assert InsertModules(a.modules, [m, o], 0) == InsertModules(a.modules, [o], 1);
    assert InsertModules(a.modules, [o], 2) == InsertAbsent(a.modules, [o], 2) == None;
    assert InsertModules(a.modules, [o], 1) == InsertAbsent(a.modules, [o], 1);
    assert InsertModules(a.modules, [o], 1).Some?;
  }

  // ---------------------------------------------------------------------
  // Walking and traversal

  /** Node.walk: the node, then the walks of its children in order. */
  function Walk(n: Node): (r: seq<Node>)
    ensures |r| > 0 && r[0] == n
    decreases n, 1
  {
    [n] + WalkAll(n.children)
  }

  function WalkAll(ns: seq<Node>): seq<Node>
    decreases ns, 0
  {
    if ns == [] then [] else Walk(ns[0]) + WalkAll(ns[1..])
  }

  /** `x` is `n` or lies below it. */
  predicate Within(x: Node, n: Node)
    decreases n
  {
    x == n || exists i :: 0 <= i < |n.children| && Within(x, n.children[i])
  }

  /** The walk visits exactly the nodes of the tree. */
  lemma {:induction false} WalkVisitsTree(n: Node, x: Node)
    ensures x in Walk(n) <==> Within(x, n)
    decreases n, 1
  {
    WalkAllVisits(n.children, x);
  }

  lemma {:induction false} WalkAllVisits(ns: seq<Node>, x: Node)
    ensures x in WalkAll(ns) <==> exists i :: 0 <= i < |ns| && Within(x, ns[i])
    decreases ns, 0
  {
    if ns != [] {
      WalkVisitsTree(ns[0], x);
      WalkAllVisits(ns[1..], x);
      assert forall i :: 1 <= i < |ns| ==> ns[i] == ns[1..][i - 1];
      assert forall i :: 0 <= i < |ns| - 1 ==> ns[1..][i] == ns[i + 1];
    }
  }

  /** AbstractSyntaxTree.walk: the module walks, one after the other. */
  function WalkTree(a: Ast): (r: seq<Node>)
    ensures forall i :: 0 <= i < |a.modules| ==> a.modules[i] in r
    ensures |a.modules| > 0 ==> r[0] == a.modules[0]
  {
    WalkAllContains(a.modules);
    WalkAll(a.modules)
  }

  lemma WalkAllContains(ns: seq<Node>)
    ensures forall i :: 0 <= i < |ns| ==> ns[i] in WalkAll(ns)
  {
    forall i | 0 <= i < |ns|
      ensures ns[i] in WalkAll(ns)
    {
      WalkAllVisits(ns, ns[i]);
    }
  }

  /** The height of a tree, counting only children. */
  function Height(n: Node): (h: nat)
    ensures h >= 1
    ensures forall i :: 0 <= i < |n.children| ==> Height(n.children[i]) < h
    decreases n, 1
  {
    1 + MaxHeight(n.children)
  }

  function MaxHeight(ns: seq<Node>): (h: nat)
    ensures forall i :: 0 <= i < |ns| ==> Height(ns[i]) <= h
    decreases ns, 0
  {
    if ns == [] then 0
    else
      var a := Height(ns[0]);
      var b := MaxHeight(ns[1..]);
      assert forall i :: 1 <= i < |ns| ==> ns[i] == ns[1..][i - 1];
      if a < b then b else a
  }

  /** The replacement function never returns a node taller than the one it
      is given, which is what keeps the traversal finite. */
  ghost predicate NonGrowing(body: Node -> seq<Node>)
  {
    forall n, i :: 0 <= i < |body(n)| ==> Height(body(n)[i]) <= Height(n)
  }

  /** Node.traverse: `body` is applied to the node itself (the result is
      discarded), then each child is replaced by what `body` returns for it,
      each returned node traversed in turn. */
  function Traverse(n: Node, body: Node -> seq<Node>): (r: Node)
    requires NonGrowing(body)
    ensures r.kind == n.kind && r.location == n.location
    decreases Height(n), 2
  {
    Node(n.kind, n.location, TraverseChildren(n.children, body, Height(n)))
  }

  /** The new children: the traversed results of `body` on each child, in
      order. */
  function TraverseChildren(cs: seq<Node>, body: Node -> seq<Node>, bound: nat): (r: seq<Node>)
    requires NonGrowing(body)
    requires forall i :: 0 <= i < |cs| ==> Height(cs[i]) < bound
    decreases bound, 1, |cs|
  {
    if cs == [] then []
    else TraverseEach(body(cs[0]), body, bound) + TraverseChildren(cs[1..], body, bound)
  }

  function TraverseEach(ds: seq<Node>, body: Node -> seq<Node>, bound: nat): (r: seq<Node>)
    requires NonGrowing(body)
    requires forall i :: 0 <= i < |ds| ==> Height(ds[i]) < bound
    ensures |r| == |ds|
    ensures forall i :: 0 <= i < |ds| ==> r[i] == Traverse(ds[i], body)
    decreases bound, 0, |ds|
  {
    if ds == [] then [] else [Traverse(ds[0], body)] + TraverseEach(ds[1..], body, bound)
  }

  /** What `body` returns for each of `cs`, concatenated in order: the
      nodes that take the children's places. */
  function Replacements(cs: seq<Node>, body: Node -> seq<Node>): seq<Node>
  {
    if cs == [] then [] else body(cs[0]) + Replacements(cs[1..], body)
  }

  /** Each new child is the traversal of the node `body` put in its place:
      the children after a traversal are, position by position, the
      traversed replacements of the children before it. */
  lemma {:induction false} TraverseReplaces(n: Node, body: Node -> seq<Node>)
    requires NonGrowing(body)
    ensures var r := Traverse(n, body);
      && |r.children| == |Replacements(n.children, body)|
      && forall j :: 0 <= j < |r.children| ==> r.children[j] == Traverse(Replacements(n.children, body)[j], body)
  {
    TraverseChildrenReplaces(n.children, body, Height(n));
  }

  lemma {:induction false} TraverseChildrenReplaces(cs: seq<Node>, body: Node -> seq<Node>, bound: nat)
    requires NonGrowing(body)
    requires forall i :: 0 <= i < |cs| ==> Height(cs[i]) < bound
    ensures var r := TraverseChildren(cs, body, bound);
      && |r| == |Replacements(cs, body)|
      && forall j :: 0 <= j < |r| ==> r[j] == Traverse(Replacements(cs, body)[j], body)
    decreases |cs|
  {
    if cs != [] {
      TraverseChildrenReplaces(cs[1..], body, bound);
      var head := TraverseEach(body(cs[0]), body, bound);
      var tail := TraverseChildren(cs[1..], body, bound);
      var rs := Replacements(cs, body);
      assert rs == body(cs[0]) + Replacements(cs[1..], body);
      forall j | 0 <= j < |head + tail|
        ensures (head + tail)[j] == Traverse(rs[j], body)
      {
        if j >= |head| {
          assert (head + tail)[j] == tail[j - |head|];
          assert rs[j] == Replacements(cs[1..], body)[j - |head|];
        }
      }
    }
  }

  function Keep(n: Node): seq<Node>
  {
    [n]
  }

  function Drop(n: Node): seq<Node>
  {
    []
  }

  /** Traversing with a body that returns each node unchanged rebuilds the
      tree exactly. */
  lemma {:induction false} TraverseKeep(n: Node)
    ensures NonGrowing(Keep)
    ensures Traverse(n, Keep) == n
    decreases Height(n), 1
  {
    TraverseChildrenKeep(n.children, Height(n));
  }

  lemma {:induction false} TraverseChildrenKeep(cs: seq<Node>, bound: nat)
    requires forall i :: 0 <= i < |cs| ==> Height(cs[i]) < bound
    ensures NonGrowing(Keep)
    ensures TraverseChildren(cs, Keep, bound) == cs
    decreases bound, 0, |cs|
  {
    if cs != [] {
      TraverseKeep(cs[0]);
      TraverseChildrenKeep(cs[1..], bound);
      var head := TraverseEach(Keep(cs[0]), Keep, bound);
      assert head[0] == Traverse(cs[0], Keep);
      assert head == [cs[0]];
      assert cs == [cs[0]] + cs[1..];
    }
  }

  /** A body that returns nothing removes every child. */
  lemma TraverseDrop(n: Node)
    ensures NonGrowing(Drop)
    ensures Traverse(n, Drop).children == []
  {
    DropChildren(n.children, Height(n));
  }

  lemma {:induction false} DropChildren(cs: seq<Node>, bound: nat)
    requires forall i :: 0 <= i < |cs| ==> Height(cs[i]) < bound
    ensures NonGrowing(Drop)
    ensures TraverseChildren(cs, Drop, bound) == []
    decreases |cs|
  {
    if cs != [] {
      DropChildren(cs[1..], bound);
    }
  }

  /** The first listed module called `name`. */
  function ModuleNamed(ms: seq<Module>, name: string): (r: Option<Module>)
    ensures r.None? <==> !HasModuleNamed(ms, name)
    ensures r.Some? ==> r.value in ms && r.value.kind.name == name
    ensures ms != [] && ms[0].kind.name == name ==> r == Some(ms[0])
  {
    if ms == [] then None
    else if ms[0].kind.name == name then Some(ms[0])
    else
      assert forall i :: 1 <= i < |ms| ==> ms[i] == ms[1..][i - 1];
      assert HasModuleNamed(ms, name) ==> HasModuleNamed(ms[1..], name);
      ModuleNamed(ms[1..], name)
  }

  /** A visited node after the modules were changed in place: a visited
      module is the listed module of its name, which in the source is the
      same object; any other node is kept. */
  function Refresh(ms: seq<Module>, n: Node): (r: Node)
    ensures r.kind == n.kind
    ensures n.kind.ModuleNode? && HasModuleNamed(ms, n.kind.name) ==> r in ms
    ensures !(n.kind.ModuleNode? && HasModuleNamed(ms, n.kind.name)) ==> r == n
  {
    if n.kind.ModuleNode? then
      match ModuleNamed(ms, n.kind.name)
      case Some(m) => m
      case None => n
    else n
  }

  /** AbstractSyntaxTree.traverse: every module is traversed in place, and
      a visited module, being one of them, is traversed with it. */
  function TraverseTree(a: Ast, body: Node -> seq<Node>): (r: Ast)
    requires NonGrowing(body)
    ensures |r.modules| == |a.modules|
    ensures forall i :: 0 <= i < |a.modules| ==> r.modules[i] == Traverse(a.modules[i], body)
    ensures |r.visitStack| == |a.visitStack| && r.table == a.table
    ensures forall i :: 0 <= i < |a.visitStack| ==>
      var v := a.visitStack[i];
      && r.visitStack[i].kind == v.kind
      && (v.kind.ModuleNode? && HasModuleNamed(a.modules, v.kind.name) ==> r.visitStack[i] in r.modules)
      && (!(v.kind.ModuleNode? && HasModuleNamed(a.modules, v.kind.name)) ==> r.visitStack[i] == v)
  {
    var ms: seq<Module> := seq(|a.modules|, i requires 0 <= i < |a.modules| => Traverse(a.modules[i], body));
    assert forall name :: HasModuleNamed(ms, name) <==> HasModuleNamed(a.modules, name) by {
      forall name ensures HasModuleNamed(ms, name) <==> HasModuleNamed(a.modules, name) {
        if HasModuleNamed(a.modules, name) {
          var i :| 0 <= i < |a.modules| && a.modules[i].kind.name == name;
          assert ms[i].kind.name == name;
        }
      }
    }
    a.(modules := ms, visitStack := seq(|a.visitStack|, i requires 0 <= i < |a.visitStack| => Refresh(ms, a.visitStack[i])))
  }

  /** The main module, visited since the tree was created, is still the
      listed main module after a traversal. */
  lemma {:induction false} VisitedMainModuleTraversed(a: Ast, body: Node -> seq<Node>)
    requires NonGrowing(body)
    requires |a.modules| > 0 && |a.visitStack| > 0 && a.visitStack[0].kind == a.modules[0].kind
    ensures var r := TraverseTree(a, body);
      r.visitStack[0] == r.modules[0] == Traverse(a.modules[0], body)
  {
    var r := TraverseTree(a, body);
    assert r.modules[0].kind == a.modules[0].kind;
    assert ModuleNamed(r.modules, a.modules[0].kind.name) == Some(r.modules[0]);
  }

  /** Children dropped by a traversal stay dropped: a node added afterwards
      is the main module's only child. */
  lemma {:induction false} DroppedChildrenStayDropped(name: string, x: Node, y: Node)
    requires !x.kind.ModuleNode? && !y.kind.ModuleNode?
    ensures NonGrowing(Drop)
    ensures var a := Add(Init(name), x).value;
      var r := Add(TraverseTree(a, Drop), y);
      r.Some? && r.value.modules[0].children == [y] && r.value.visitStack == [r.value.modules[0]]
  {
    TraverseDrop(Init(name).modules[0]);
    var a := Add(Init(name), x).value;
    AddToMainModule(name, x);
    VisitedMainModuleTraversed(a, Drop);
    TraverseDrop(a.modules[0]);
  }
}
