/** The node classes of the syntax tree (CompilerCore/AST/AST.swift,
    FunctionNode.swift, IdentifierNode.swift).

    Every node has a location (`.unknown` unless set) and an ordered list of
    children; what distinguishes the node classes is their `Kind`. Only
    `FunctionNode` and `IdentifierNode` are among the modelled files; the
    other node classes the parsers build (type, parameter, code block, call
    and variable nodes) are given the fields the parsers pass to them. The
    owner back-pointer and object identity are not modelled. */
module Nodes {
  import opened Results
  import opened Tokens
  import opened Types

  datatype Node = Node(kind: Kind, location: Mark, children: seq<Node>)

  datatype Kind =
    | ModuleNode(name: string)
    | FunctionNode(name: string, returnType: Node, parameters: seq<Node>, mark: Mark)
    | IdentifierNode(identifier: string, reference: Option<Node>, mark: Mark)
    | TypeNode(ty: Type, mark: Mark)
    | ParameterNode(name: string, paramType: Node, mark: Mark)
    | CodeBlockNode(mark: Mark)
    | CallNode(callee: Node, mark: Mark)
    | VariableNode(name: string, varType: Node, initialValue: Option<Node>, mark: Mark)

  /** A module root (`ModuleNode`). */
  type Module = n: Node | n.kind.ModuleNode? witness Node(ModuleNode(""), Unknown, [])

  /** The type of the value a node stands for. A function stands for its
      return type and an identifier for whatever it refers to; a node with no
      value (a module, a code block, an unbound identifier) has type `None`. */
  function ValueType(n: Node): Type
    decreases n
  {
    match n.kind
    case FunctionNode(_, returnType, _, _) => ValueType(returnType)
    case IdentifierNode(_, reference, _) =>
      if reference.Some? then ValueType(reference.value) else NoneType
    case TypeNode(t, _) => t
    case ParameterNode(_, t, _) => ValueType(t)
    case VariableNode(_, t, _, _) => ValueType(t)
    case CallNode(f, _) => ValueType(f)
    case _ => NoneType
  }

  function NewModule(name: string): (m: Module)
    ensures m.kind.name == name && m.children == [] && m.location == Unknown
    ensures ValueType(m) == NoneType
  {
    Node(ModuleNode(name), Unknown, [])
  }

  /** FunctionNode.init: the fields are stored as given, the node has no
      body yet, and its value type is that of its return type. */
  function NewFunction(name: string, returnType: Node, parameters: seq<Node>, mark: Mark): (n: Node)
    ensures n.kind.FunctionNode? && n.kind.name == name && n.kind.returnType == returnType
    ensures n.kind.parameters == parameters && n.kind.mark == mark
    ensures n.children == [] && n.location == Unknown
    ensures ValueType(n) == ValueType(returnType)
  {
    Node(FunctionNode(name, returnType, parameters, mark), Unknown, [])
  }

  /** IdentifierNode.init: bound when given a reference, unbound otherwise;
      its value type is the reference's, or `None` when unbound. */
  function NewIdentifier(identifier: string, reference: Option<Node>, mark: Mark): (n: Node)
    ensures n.kind.IdentifierNode? && n.kind.identifier == identifier && n.kind.mark == mark
    ensures n.kind.reference == reference && n.children == []
    ensures reference.Some? ==> ValueType(n) == ValueType(reference.value)
    ensures reference.None? ==> ValueType(n) == NoneType
  {
    Node(IdentifierNode(identifier, reference, mark), Unknown, [])
  }

  function NewType(t: Type, mark: Mark): (n: Node)
    ensures ValueType(n) == t && n.children == []
  {
    Node(TypeNode(t, mark), Unknown, [])
  }

  function NewParameter(name: string, paramType: Node, mark: Mark): (n: Node)
    ensures n.kind.ParameterNode? && n.kind.name == name && n.kind.mark == mark
    ensures ValueType(n) == ValueType(paramType)
  {
    Node(ParameterNode(name, paramType, mark), Unknown, [])
  }

  function NewCodeBlock(statements: seq<Node>, mark: Mark): (n: Node)
    ensures n.kind.CodeBlockNode? && n.children == statements
    ensures ValueType(n) == NoneType
  {
    Node(CodeBlockNode(mark), Unknown, statements)
  }

  /** A call node: the callee identifier, with the arguments as children. */
  function NewCall(callee: Node, arguments: seq<Node>, mark: Mark): (n: Node)
    ensures n.kind.CallNode? && n.kind.callee == callee && n.children == arguments
    ensures n.location == Unknown && n.kind.mark == mark
    ensures ValueType(n) == ValueType(callee)
  {
    Node(CallNode(callee, mark), Unknown, arguments)
  }

  function NewVariable(name: string, varType: Node, initialValue: Option<Node>, mark: Mark): (n: Node)
    ensures n.kind.VariableNode? && n.kind.name == name && n.kind.initialValue == initialValue
    ensures ValueType(n) == ValueType(varType)
  {
    Node(VariableNode(name, varType, initialValue, mark), Unknown, [])
  }

  /** Node.add: append a child. The node's own fields, and therefore its
      value type, do not change. */
  function AddChild(n: Node, child: Node): (r: Node)
    ensures r.kind == n.kind && r.location == n.location
    ensures |r.children| == |n.children| + 1 && r.children[|n.children|] == child
    ensures r.children[..|n.children|] == n.children
    ensures ValueType(r) == ValueType(n)
  {
    Node(n.kind, n.location, n.children + [child])
  }

  /** `k` identifiers, each referring to the next, ending at `n`. */
  function Alias(n: Node, k: nat): Node
  {
    if k == 0 then n else NewIdentifier("alias", Some(Alias(n, k - 1)), Unknown)
  }

  /** However many identifiers stand between a use and the node they
      finally refer to, the use has that node's value type. */
  lemma {:induction false} AliasValueType(n: Node, k: nat)
    ensures ValueType(Alias(n, k)) == ValueType(n)
  {
    if k > 0 {
      AliasValueType(n, k - 1);
    }
  }
}
