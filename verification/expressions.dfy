/** The expression form of the syntax tree (CompilerCore/AST/Expressions.swift)
    with every case the parsers and the semantic rules use, and the binary
    operators (Bolt/Operator.swift). */
module Expressions {
  import opened Tokens
  import opened Types

  datatype BinaryOperator = Addition | Subtract | Multiply | Divide | Modulo

  function OperatorText(op: BinaryOperator): string
  {
    match op
    case Addition => "+"
    case Subtract => "-"
    case Multiply => "*"
    case Divide => "/"
    case Modulo => "%"
  }

  datatype Expression =
    // Literals
    | StringExpr(text: string, location: Mark)
    | IntegerExpr(number: int, location: Mark)
    | BoolExpr(truth: bool, location: Mark)
    // Code blocks and groups
    | Block(items: seq<Expression>, location: Mark)
    | Group(items: seq<Expression>, location: Mark)
    // Definitions and declarations
    | Definition(declaration: Expression, body: Expression)
    | FunctionDeclaration(name: string, returnType: Expression, parameters: seq<Expression>, location: Mark)
    | ParameterDeclaration(name: string, declType: Expression, location: Mark)
    | VariableDeclaration(name: string, declType: Expression, location: Mark)
    | ConstantDeclaration(name: string, declType: Expression, location: Mark)
    // Types
    | TypeExpr(ty: Type, location: Mark)
    // Identifiers
    | IdentifierExpr(name: string, location: Mark)
    | BoundIdentifier(target: Expression, location: Mark)
    | FunctionRef(name: string, location: Mark)
    | VariableRef(name: string, location: Mark)
    | ParameterRef(name: string, location: Mark)
    // Statements and operations
    | Call(callee: Expression, arguments: seq<Expression>, location: Mark)
    | VoidReturn(location: Mark)
    | Return(result: Expression, location: Mark)
    | LinkerFlag(flag: string, location: Mark)
    | BinaryOperation(lhs: Expression, op: BinaryOperator, rhs: Expression, location: Mark)

  /** `location`: a definition is located where its declaration is; every
      other expression carries its own location, a call included (not its
      callee's). */
  function Location(e: Expression): (m: Mark)
    ensures !e.Definition? ==> m == e.location
    ensures e.Definition? ==> m == Location(e.declaration)
  {
    if e.Definition? then Location(e.declaration) else e.location
  }

  /** The location of a definition is that of the innermost declaration of
      a chain of definitions. */
  function Innermost(e: Expression): Expression
  {
    if e.Definition? then Innermost(e.declaration) else e
  }

  lemma {:induction false} LocationOfDefinitions(e: Expression)
    ensures !Innermost(e).Definition?
    ensures Location(e) == Innermost(e).location
  {
    if e.Definition? {
      LocationOfDefinitions(e.declaration);
    }
  }

  /** The type of the value an expression stands for (`Expression.type`,
      which is defined outside the modelled files; reconstructed from how
      the rules use it). String and integer literals have types `String` and
      `Int`; a declaration has its declared (or return) type; a definition
      the type of its declaration; a bound identifier the type of what it is
      bound to; a call the type of its callee; a block or group that of its
      last item; a return that of its value; a binary operation that of its
      left operand. Everything else, booleans included, has type `None`. */
  function ExprType(e: Expression): Type
  {
    match e
    case StringExpr(_, _) => StringType
    case IntegerExpr(_, _) => Int
    case TypeExpr(t, _) => t
    case FunctionDeclaration(_, rt, _, _) => ExprType(rt)
    case ParameterDeclaration(_, t, _) => ExprType(t)
    case VariableDeclaration(_, t, _) => ExprType(t)
    case ConstantDeclaration(_, t, _) => ExprType(t)
    case Definition(d, _) => ExprType(d)
    case BoundIdentifier(target, _) => ExprType(target)
    case Call(callee, _, _) => ExprType(callee)
    case Block(items, _) => if items == [] then NoneType else ExprType(items[|items| - 1])
    case Group(items, _) => if items == [] then NoneType else ExprType(items[|items| - 1])
    case Return(v, _) => ExprType(v)
    case BinaryOperation(lhs, _, _, _) => ExprType(lhs)
    case _ => NoneType
  }
}
