/** The parser of GolfSharp/Parser.cs. It works in two passes: `NodeFromToken` builds an untyped
    tree of literal nodes and `UnresolvedCommandNode`s from the token tree, and `ResolveCommands`
    binds every command node to the `Command` found under its name in the mapping, arguments
    first. The mapping is the parser's read-only field; here it is a parameter. */
module Parser {
  import opened Wrappers
  import opened Runtime
  import opened Errors
  import opened Commands
  import opened ExpressionNodes
  import opened Tokens

  type CommandMappings = map<string, Command>

  // ---------------------------------------------------------------------------------------------
  // What a token tree must satisfy, and the tree the parser is meant to build from it
  // ---------------------------------------------------------------------------------------------

  /** Every literal token carries one of the three known type tags, and its value has that
      runtime type (so the unboxing cast succeeds). */
  ghost predicate LiteralsWellFormed(t: ExpressionToken) {
    match t
    case LiteralToken(value, tag) => !tag.OtherType? && TypeOf(value) == tag
    case CommandToken(_, args) => forall i :: 0 <= i < |args| ==> LiteralsWellFormed(args[i])
    case OperationToken(left, _, right) => LiteralsWellFormed(left) && LiteralsWellFormed(right)
  }

  /** `name` is the name of a command call or an operator somewhere in `t`. */
  ghost predicate Mentions(t: ExpressionToken, name: string) {
    match t
    case LiteralToken(_, _) => false
    case CommandToken(c, args) => c == name || exists i :: 0 <= i < |args| && Mentions(args[i], name)
    case OperationToken(left, op, right) => op == name || Mentions(left, name) || Mentions(right, name)
  }

  /** Every command and operator name in `t` is a key of the mapping. */
  ghost predicate NamesKnown(mappings: CommandMappings, t: ExpressionToken) {
    match t
    case LiteralToken(_, _) => true
    case CommandToken(c, args) => c in mappings && forall i :: 0 <= i < |args| ==> NamesKnown(mappings, args[i])
    case OperationToken(left, op, right) => op in mappings && NamesKnown(mappings, left) && NamesKnown(mappings, right)
  }

  /** The literal node holding a boxed primitive value. */
  function LiteralNodeOf(value: Object): (n: ExpressionNode)
    requires !value.OtherObject?
  {
    match value
    case StringObject(s) => StringNode(s)
    case BoolObject(b) => BoolNode(b)
    case FloatObject(f) => FloatNode(f)
  }

  /** The boxed value a literal node holds (its `Value` property). */
  function LiteralObject(n: ExpressionNode): Object
    requires n.StringNode? || n.BoolNode? || n.FloatNode?
  {
    match n
    case StringNode(s) => StringObject(s)
    case BoolNode(b) => BoolObject(b)
    case FloatNode(f) => FloatObject(f)
  }

  /** The resolved tree of a token tree in one pass: each literal becomes the node for its
      value, each command call and each operation becomes a `ResolvedCommandNode` with the same
      name, the same arguments in the same order, and the command the mapping holds for it. */
  ghost function Expected(mappings: CommandMappings, t: ExpressionToken): (n: ExpressionNode)
    requires LiteralsWellFormed(t) && NamesKnown(mappings, t)
    decreases t, 1
    ensures n.ResolvedCommandNode? <==> !t.LiteralToken?
    ensures NoUnresolved(n)
  {
    match t
    case LiteralToken(value, _) => LiteralNodeOf(value)
    case CommandToken(c, args) => ResolvedCommandNode(c, ExpectedAll(mappings, args), mappings[c])
    case OperationToken(left, op, right) =>
      ResolvedCommandNode(op, [Expected(mappings, left), Expected(mappings, right)], mappings[op])
  }

  /** `Expected` of each token, in order. */
  ghost function ExpectedAll(mappings: CommandMappings, ts: seq<ExpressionToken>): (ns: seq<ExpressionNode>)
    requires forall i :: 0 <= i < |ts| ==> LiteralsWellFormed(ts[i]) && NamesKnown(mappings, ts[i])
    decreases ts, 0
    ensures |ns| == |ts|
    ensures forall i :: 0 <= i < |ts| ==> ns[i] == Expected(mappings, ts[i])
  {
    seq(|ts|, i requires 0 <= i < |ts| => Expected(mappings, ts[i]))
  }

  /** The shape of the first pass: literal nodes other than arrays, and unresolved command nodes
      over such trees. */
  ghost predicate Untyped(n: ExpressionNode) {
    match n
    case StringNode(_) => true
    case BoolNode(_) => true
    case FloatNode(_) => true
    case UnresolvedCommandNode(_, args) => forall i :: 0 <= i < |args| ==> Untyped(args[i])
    case _ => false
  }

  // ---------------------------------------------------------------------------------------------
  // The parser
  // ---------------------------------------------------------------------------------------------

  /** `Parse`: build the untyped tree, then resolve its commands. */
  function Parse(mappings: CommandMappings, rootToken: ExpressionToken): Result<ExpressionNode, Error> {
    var firstPass :- NodeFromToken(rootToken);
    ResolveCommands(mappings, firstPass)
  }

  /** `NodeFromToken`: the untyped node of a token. */
  function NodeFromToken(token: ExpressionToken): (r: Result<ExpressionNode, Error>)
    decreases token
    ensures r.Success? <==> LiteralsWellFormed(token)
    ensures r.Success? ==> Untyped(r.value) && (r.value.UnresolvedCommandNode? <==> !token.LiteralToken?)
    ensures r.Failure? ==> r.error.UnknownLiteralType? || r.error.InvalidCast?
  {
    match token
    case LiteralToken(value, tag) => LiteralNodeFromToken(value, tag)
    case CommandToken(_, _) => CommandNodeFromCommandToken(token)
    case OperationToken(_, _, _) => CommandNodeFromOperationToken(token)
  }

  /** `token.Args.Select(NodeFromToken).ToList()`: the nodes of the tokens, left to right; the
      first failure is the one reported. */
  function NodesFromTokens(tokens: seq<ExpressionToken>): (r: Result<seq<ExpressionNode>, Error>)
    decreases tokens
    ensures r.Success? <==> forall i :: 0 <= i < |tokens| ==> LiteralsWellFormed(tokens[i])
    ensures r.Success? ==> |r.value| == |tokens| && forall i :: 0 <= i < |tokens| ==> Untyped(r.value[i])
    ensures r.Success? ==> forall i :: 0 <= i < |tokens| ==> NodeFromToken(tokens[i]) == Success(r.value[i])
    ensures r.Failure? ==> r.error.UnknownLiteralType? || r.error.InvalidCast?
    ensures r.Failure? ==> exists i :: && 0 <= i < |tokens| && NodeFromToken(tokens[i]) == Failure(r.error)
                                       && forall j :: 0 <= j < i ==> NodeFromToken(tokens[j]).Success?
  {
    if |tokens| == 0 then Success([])
    else
      var first :- NodeFromToken(tokens[0]);
      var rest :- NodesFromTokens(tokens[1..]);
      assert forall i :: 1 <= i < |tokens| ==> tokens[i] == tokens[1..][i - 1];
      Success([first] + rest)
  }

  /** `LiteralNodeFromToken`: the tag picks the node kind, then the value is unboxed to it. */
  function LiteralNodeFromToken(value: Object, tag: RuntimeType): (r: Result<ExpressionNode, Error>)
    ensures r.Success? <==> !tag.OtherType? && TypeOf(value) == tag
    ensures r.Success? ==> && (r.value.StringNode? || r.value.BoolNode? || r.value.FloatNode?)
                           && LiteralObject(r.value) == value
    ensures tag.OtherType? ==> r == Failure(UnknownLiteralType(tag))
    ensures !tag.OtherType? && TypeOf(value) != tag ==> r == Failure(InvalidCast(TypeOf(value), tag))
  {
    if tag == StringType then
      (if value.StringObject? then Success(StringNode(value.s)) else Failure(InvalidCast(TypeOf(value), tag)))
    else if tag == BoolType then
      (if value.BoolObject? then Success(BoolNode(value.b)) else Failure(InvalidCast(TypeOf(value), tag)))
    else if tag == FloatType then
      (if value.FloatObject? then Success(FloatNode(value.f)) else Failure(InvalidCast(TypeOf(value), tag)))
    else
      Failure(UnknownLiteralType(tag))
  }

  /** `CommandNodeFromToken(CommandToken)`. */
  function CommandNodeFromCommandToken(token: ExpressionToken): (r: Result<ExpressionNode, Error>)
    requires token.CommandToken?
    decreases token, 0
    ensures r.Success? ==> && r.value.UnresolvedCommandNode?
                           && r.value.commandName == token.command
                           && |r.value.args| == |token.args|
  {
    var args :- NodesFromTokens(token.args);
    Success(UnresolvedCommandNode(token.command, args))
  }

  /** `CommandNodeFromToken(OperationToken)`: a call of the operator with two arguments. */
  function CommandNodeFromOperationToken(token: ExpressionToken): (r: Result<ExpressionNode, Error>)
    requires token.OperationToken?
    decreases token, 0
    ensures r.Success? ==> && r.value.UnresolvedCommandNode?
                           && r.value.commandName == token.op
                           && |r.value.args| == 2
  {
    var left :- NodeFromToken(token.left);
    var right :- NodeFromToken(token.right);
    Success(UnresolvedCommandNode(token.op, [left, right]))
  }

  /** `ResolveCommands`: an unresolved command node is resolved; every other node, a block or an
      array included, is returned as it is. */
  function ResolveCommands(mappings: CommandMappings, node: ExpressionNode): (r: Result<ExpressionNode, Error>)
    decreases node, 1
    ensures !node.UnresolvedCommandNode? ==> r == Success(node)
    ensures r.Success? ==> !r.value.UnresolvedCommandNode?
    ensures r.Failure? ==> r.error.UnknownCommand?
    ensures Untyped(node) && r.Success? ==> NoUnresolved(r.value)
  {
    match node
    case UnresolvedCommandNode(_, _) => ResolveCommand(mappings, node)
    case _ => Success(node)
  }

  /** `cmd.Args.Select(ResolveCommands).ToList()`. */
  function ResolveAll(mappings: CommandMappings, nodes: seq<ExpressionNode>): (r: Result<seq<ExpressionNode>, Error>)
    decreases nodes
    ensures r.Success? ==> |r.value| == |nodes|
    ensures r.Success? ==> forall i :: 0 <= i < |nodes| ==> ResolveCommands(mappings, nodes[i]) == Success(r.value[i])
    ensures r.Failure? ==> r.error.UnknownCommand?
    ensures r.Failure? ==> exists i :: && 0 <= i < |nodes| && ResolveCommands(mappings, nodes[i]) == Failure(r.error)
                                       && forall j :: 0 <= j < i ==> ResolveCommands(mappings, nodes[j]).Success?
    ensures (forall i :: 0 <= i < |nodes| ==> Untyped(nodes[i])) && r.Success? ==>
              forall i :: 0 <= i < |nodes| ==> NoUnresolved(r.value[i])
  {
    if |nodes| == 0 then Success([])
    else
      var first :- ResolveCommands(mappings, nodes[0]);
      var rest :- ResolveAll(mappings, nodes[1..]);
      assert forall i :: 1 <= i < |nodes| ==> nodes[i] == nodes[1..][i - 1];
      Success([first] + rest)
  }

  /** `ResolveCommand`: resolve the arguments, then look the name up; an absent name fails. */
  function ResolveCommand(mappings: CommandMappings, cmd: ExpressionNode): (r: Result<ExpressionNode, Error>)
    requires cmd.UnresolvedCommandNode?
    decreases cmd, 0
    ensures cmd.commandName !in mappings ==> r.Failure?
    ensures r.Failure? ==> r.error.UnknownCommand?
    ensures r.Success? ==> && cmd.commandName in mappings
                           && r.value.ResolvedCommandNode?
                           && r.value.commandName == cmd.commandName
                           && r.value.command == mappings[cmd.commandName]
                           && |r.value.args| == |cmd.args|
    ensures Untyped(cmd) && r.Success? ==> NoUnresolved(r.value)
  {
    var args :- ResolveAll(mappings, cmd.args);
    if cmd.commandName !in mappings then Failure(UnknownCommand(cmd.commandName))
    else Success(ResolvedCommandNode(cmd.commandName, args, mappings[cmd.commandName]))
  }
}
