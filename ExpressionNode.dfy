/** The expression tree: `ExpressionNode` and `BlockNode` (GolfSharp/ExpressionNode.cs), the literal
    nodes (GolfSharp/LiteralNode.cs) and the command nodes (GolfSharp/CommandNode.cs). The record
    hierarchy is closed, so it is one datatype; the abstract base `LiteralNode` becomes the
    predicate `IsLiteralNode`, and the two command kinds share the fields `commandName` and `args`
    of the abstract base `CommandNode`. */
module ExpressionNodes {
  import opened Runtime
  import opened ExpressionTypes
  import opened Commands

  datatype ExpressionNode =
    | BlockNode(nodes: seq<ExpressionNode>)
    | StringNode(stringValue: string)
    | BoolNode(boolValue: bool)
    | FloatNode(floatValue: Float32)
    | ArrayNode(values: seq<ExpressionNode>)
    | UnresolvedCommandNode(commandName: string, args: seq<ExpressionNode>)
    | ResolvedCommandNode(commandName: string, args: seq<ExpressionNode>, command: Command)
  {
    /** The variants deriving from `LiteralNode`; `ArrayNode` is one of them. */
    predicate IsLiteralNode() {
      StringNode? || BoolNode? || FloatNode? || ArrayNode?
    }

    /** `ResultType`. The base default is `Unknown`; `BoolNode`, `FloatNode` and
        `UnresolvedCommandNode` keep it. */
    function ResultType(): (t: ExpressionType)
      ensures StringNode? ==> t == String
      ensures BoolNode? || FloatNode? || UnresolvedCommandNode? ==> t == Unknown
      ensures ResolvedCommandNode? ==> t == command.resultType
      ensures ArrayNode? ==> (t.isArray <==> |values| > 0)
      ensures ArrayNode? && values == [] ==> t == Unknown
      ensures BlockNode? && nodes == [] ==> t == Void
    {
      match this
      case BlockNode(nodes) => if |nodes| > 0 then nodes[0].ResultType() else Void
      case StringNode(_) => String
      case ArrayNode(values) => if |values| > 0 then values[0].ResultType().ArrayOf() else Unknown
      case ResolvedCommandNode(_, _, command) => command.resultType
      case _ => DefaultResultType
    }

    /** The record's class name. The generator's error messages print `GetType()`, which is this
        name qualified by the namespace, as in `GolfSharp.ArrayNode`; the prefix is left out. */
    function TypeName(): string {
      match this
      case BlockNode(_) => "BlockNode"
      case StringNode(_) => "StringNode"
      case BoolNode(_) => "BoolNode"
      case FloatNode(_) => "FloatNode"
      case ArrayNode(_) => "ArrayNode"
      case UnresolvedCommandNode(_, _) => "UnresolvedCommandNode"
      case ResolvedCommandNode(_, _, _) => "ResolvedCommandNode"
    }
  }

  /** `ExpressionNode.ResultType`, the virtual default. */
  const DefaultResultType: ExpressionType := Unknown

  /** No `UnresolvedCommandNode` occurs anywhere in the tree. */
  ghost predicate NoUnresolved(n: ExpressionNode) {
    match n
    case UnresolvedCommandNode(_, _) => false
    case BlockNode(nodes) => forall i :: 0 <= i < |nodes| ==> NoUnresolved(nodes[i])
    case ArrayNode(values) => forall i :: 0 <= i < |values| ==> NoUnresolved(values[i])
    case ResolvedCommandNode(_, args, _) => forall i :: 0 <= i < |args| ==> NoUnresolved(args[i])
    case _ => true
  }

  /** The node a block's type comes from: follow first children down through non-empty blocks. */
  function FirstDescendant(n: ExpressionNode): ExpressionNode {
    match n
    case BlockNode(nodes) => if |nodes| > 0 then FirstDescendant(nodes[0]) else n
    case _ => n
  }

  /** A block takes its type from its first child, recursively: the type of any node is that of
      its first non-block descendant along first children, or `Void` when that chain ends in an
      empty block. */
  lemma {:induction false} BlockTypeFromFirstDescendant(n: ExpressionNode)
    ensures var d := FirstDescendant(n); !(d.BlockNode? && d.nodes != [])
    ensures var d := FirstDescendant(n); n.ResultType() == if d.BlockNode? then Void else d.ResultType()
  {
    if n.BlockNode? && |n.nodes| > 0 {
      BlockTypeFromFirstDescendant(n.nodes[0]);
    }
  }

  /** A non-empty `ArrayNode` has the array form of its first element's type. */
  lemma ArrayNodeType(values: seq<ExpressionNode>)
    requires values != []
    ensures ArrayNode(values).ResultType() == values[0].ResultType().ArrayOf()
    ensures ArrayNode(values).ResultType().IsArrayOf(values[0].ResultType()) <==> !values[0].ResultType().isArray
  {
  }

  /** A `BlockNode` whose child list is updated in place by `Add` and `AddRange`. */
  class MutableBlockNode {
    var nodes: seq<ExpressionNode>

    constructor (nodes: seq<ExpressionNode>)
      ensures this.nodes == nodes
    {
      this.nodes := nodes;
    }

    /** The record value the object currently denotes. */
    function Value(): (n: ExpressionNode)
      reads this
      ensures n.BlockNode? && n.nodes == nodes
    {
      BlockNode(nodes)
    }

    function ResultType(): (t: ExpressionType)
      reads this
      ensures nodes == [] ==> t == Void
      ensures nodes != [] ==> t == nodes[0].ResultType()
    {
      Value().ResultType()
    }

    /** Appends one child; the earlier children and their order are untouched. */
    method Add(child: ExpressionNode)
      modifies this
      ensures nodes == old(nodes) + [child]
      ensures old(nodes) != [] ==> ResultType() == old(ResultType())
      ensures old(nodes) == [] ==> ResultType() == child.ResultType()
    {
      nodes := nodes + [child];
    }

    /** Appends the children in order; the earlier children and their order are untouched. */
    method AddRange(children: seq<ExpressionNode>)
      modifies this
      ensures nodes == old(nodes) + children
      ensures old(nodes) != [] ==> ResultType() == old(ResultType())
      ensures old(nodes) == [] && children != [] ==> ResultType() == children[0].ResultType()
    {
      nodes := nodes + children;
    }
  }
}
