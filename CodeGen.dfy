/** The code generator of GolfSharp/CodeGen.cs. `Render` says, as a function, what text a tree
    stands for; the class `CodeGen` appends that text to its buffer step by step, as the source
    does, and each of its methods is proved to append exactly `Render`'s text. */
module CodeGeneration {
  import opened Wrappers
  import opened Runtime
  import opened Errors
  import opened Commands
  import opened ExpressionNodes

  /** The raw string literal of `GenerateHeader`, with the indentation of its closing quotes
      removed; it ends inside the body of `Run`, so the expression follows directly. */
  const Header: string :=
    "class GolfSharp_Generated\n{\n    public static Dictionary<string, object> _vars = new();\n\n"
    + "    public static void Main(string[] args)\n    {\n        Run();\n    }\n\n"
    + "    private static void Run()\n    {"

  /** The raw string literal of `GenerateTrailer`, which closes `Run` and the class. */
  const Trailer: string := "    }\n}"

  // ---------------------------------------------------------------------------------------------
  // The text a tree stands for
  // ---------------------------------------------------------------------------------------------

  /** Texts separated by commas: n texts give n - 1 commas. */
  function Join(texts: seq<string>): string {
    if |texts| == 0 then ""
    else if |texts| == 1 then texts[0]
    else Join(texts[..|texts| - 1]) + "," + texts[|texts| - 1]
  }

  /** Each text followed by a semicolon. */
  function Terminated(texts: seq<string>): string {
    if |texts| == 0 then "" else Terminated(texts[..|texts| - 1]) + texts[|texts| - 1] + ";"
  }

  /** The text of an expression: a string literal between double quotes, unescaped; a bool as
      `true` or `false`; a float as `floatText` renders it; a command bound to an alias as its
      `TrueName` applied to its arguments' texts; a block as an immediately invoked lambda whose
      body is its children's texts, each followed by a semicolon. An `ArrayNode` is a literal
      node the literal case does not know, and an unresolved command a node kind the expression
      case does not know; both fail. */
  function Render(node: ExpressionNode, floatText: Float32 -> string): (r: Result<string, Error>)
    decreases node, 1
    ensures r.Failure? ==>
              r.error == UnknownExpressionType("UnresolvedCommandNode") || r.error == UnknownLiteralNodeType("ArrayNode")
  {
    match node
    case StringNode(s) => Success("\"" + s + "\"")
    case BoolNode(b) => Success(if b then "true" else "false")
    case FloatNode(f) => Success(floatText(f))
    case ArrayNode(_) => Failure(UnknownLiteralNodeType(node.TypeName()))
    case ResolvedCommandNode(_, args, command) =>
      var texts :- RenderAll(args, floatText);
      Success(command.trueName + "(" + Join(texts) + ")")
    case BlockNode(nodes) =>
      var texts :- RenderAll(nodes, floatText);
      Success("()=>{" + Terminated(texts) + "}()")
    case UnresolvedCommandNode(_, _) => Failure(UnknownExpressionType(node.TypeName()))
  }

  /** The texts of a list of nodes, left to right; the first failure is the one reported. */
  function RenderAll(nodes: seq<ExpressionNode>, floatText: Float32 -> string): (r: Result<seq<string>, Error>)
    decreases nodes, 0
    ensures r.Success? ==> |r.value| == |nodes|
    ensures r.Failure? ==>
              r.error == UnknownExpressionType("UnresolvedCommandNode") || r.error == UnknownLiteralNodeType("ArrayNode")
  {
    if |nodes| == 0 then Success([])
    else
      var init :- RenderAll(nodes[..|nodes| - 1], floatText);
      var last :- Render(nodes[|nodes| - 1], floatText);
      Success(init + [last])
  }

  /** The whole output of `Generate`: header, expression, a semicolon, trailer. */
  function GenerateText(node: ExpressionNode, floatText: Float32 -> string): Result<string, Error> {
    var body :- Render(node, floatText);
    Success(Header + body + ";" + Trailer)
  }

  lemma TerminatedSnoc(texts: seq<string>, text: string)
    ensures Terminated(texts + [text]) == Terminated(texts) + text + ";"
  {
    assert (texts + [text])[..|texts|] == texts;
  }

  lemma JoinSnoc(texts: seq<string>, text: string)
    ensures Join(texts + [text]) == if texts == [] then text else Join(texts) + "," + text
  {
    assert (texts + [text])[..|texts|] == texts;
  }

  /** The buffer after one more child of a block. */
  lemma BlockStep(start: string, done: seq<string>, text: string)
    ensures start + Terminated(done) + text + ";" == start + Terminated(done + [text])
  {
    TerminatedSnoc(done, text);
  }

  /** The comma the argument loop has appended after the last argument written so far: one
      unless no argument is written yet or all are. */
  function PendingComma(i: nat, n: nat): string {
    if 0 < i < n then "," else ""
  }

  /** Appending a text to a list appends it to the joined text after the pending comma. */
  lemma JoinSnocPending(done: seq<string>, text: string, n: nat)
    requires |done| < n
    ensures Join(done + [text]) == Join(done) + PendingComma(|done|, n) + text
  {
    JoinSnoc(done, text);
    if done == [] {
      assert Join(done) + PendingComma(|done|, n) + text == "" + "" + text == text;
    }
  }

  /** The buffer after one more argument of a command, with its comma when it is not the last:
      the rendered prefix grows by the argument's text. */
  lemma ArgumentStep(start: string, args: seq<ExpressionNode>, i: nat, floatText: Float32 -> string)
    requires i < |args| && RenderAll(args[..i], floatText).Success? && Render(args[i], floatText).Success?
    ensures RenderAll(args[..i + 1], floatText).Success?
    ensures var n := |args|;
      start + Join(RenderAll(args[..i], floatText).value) + PendingComma(i, n) + Render(args[i], floatText).value
        + PendingComma(i + 1, n)
      == start + Join(RenderAll(args[..i + 1], floatText).value) + PendingComma(i + 1, n)
  {
    var done, text := RenderAll(args[..i], floatText).value, Render(args[i], floatText).value;
    RenderAllStep(args, i, floatText);
    CommandStep(start, done, text, |args|);
  }

  /** The same step on the texts alone. */
  lemma CommandStep(start: string, done: seq<string>, text: string, n: nat)
    requires |done| < n
    ensures start + Join(done) + PendingComma(|done|, n) + text + PendingComma(|done| + 1, n)
            == start + Join(done + [text]) + PendingComma(|done| + 1, n)
  {
    JoinSnocPending(done, text, n);
    ConcatAssoc(start, Join(done), PendingComma(|done|, n), text, PendingComma(|done| + 1, n));
  }

  /** Regrouping five strings. Stated apart so that the solver meets it in an empty context: the
      same step asserted inside `CommandStep` exhausts the resource limit. */
  lemma ConcatAssoc(a: string, b: string, c: string, d: string, e: string)
    ensures a + b + c + d + e == a + (b + c + d) + e
  {
  }

  /** `Render` of a block, in terms of its children's texts. */
  lemma RenderBlock(nodes: seq<ExpressionNode>, floatText: Float32 -> string)
    ensures var texts := RenderAll(nodes, floatText);
      Render(BlockNode(nodes), floatText)
      == if texts.Failure? then Failure(texts.error) else Success("()=>{" + Terminated(texts.value) + "}()")
  {
  }

  /** `Render` of a resolved command, in terms of its arguments' texts. */
  lemma RenderCommand(node: ExpressionNode, floatText: Float32 -> string)
    requires node.ResolvedCommandNode?
    ensures var texts := RenderAll(node.args, floatText);
      Render(node, floatText)
      == if texts.Failure? then Failure(texts.error) else Success(node.command.trueName + "(" + Join(texts.value) + ")")
  {
  }

  /** Once a prefix of a list fails to render, the whole list fails with the same error. */
  lemma {:induction false} RenderAllPrefixFailure(nodes: seq<ExpressionNode>, k: nat, floatText: Float32 -> string)
    requires k <= |nodes| && RenderAll(nodes[..k], floatText).Failure?
    decreases |nodes| - k
    ensures RenderAll(nodes, floatText) == Failure(RenderAll(nodes[..k], floatText).error)
  {
    if k < |nodes| {
      assert nodes[..k + 1][..k] == nodes[..k];
      RenderAllPrefixFailure(nodes, k + 1, floatText);
    } else {
      assert nodes[..k] == nodes;
    }
  }

  /** When the first `i` nodes render and node `i` does not, the list fails with node `i`'s error. */
  lemma RenderAllFirstFailure(nodes: seq<ExpressionNode>, i: nat, floatText: Float32 -> string)
    requires i < |nodes| && RenderAll(nodes[..i], floatText).Success? && Render(nodes[i], floatText).Failure?
    ensures RenderAll(nodes, floatText) == Failure(Render(nodes[i], floatText).error)
  {
    assert nodes[..i + 1][..i] == nodes[..i];
    RenderAllPrefixFailure(nodes, i + 1, floatText);
  }

  /** One more rendered node extends the rendered prefix by its text. */
  lemma RenderAllStep(nodes: seq<ExpressionNode>, i: nat, floatText: Float32 -> string)
    requires i < |nodes| && RenderAll(nodes[..i], floatText).Success? && Render(nodes[i], floatText).Success?
    ensures RenderAll(nodes[..i + 1], floatText)
            == Success(RenderAll(nodes[..i], floatText).value + [Render(nodes[i], floatText).value])
  {
    assert nodes[..i + 1][..i] == nodes[..i];
  }

  // ---------------------------------------------------------------------------------------------
  // The generator
  // ---------------------------------------------------------------------------------------------

  class CodeGen {
    /** The `StringBuilder` the output is appended to. */
    var buffer: string

    constructor ()
      ensures buffer == ""
    {
      buffer := "";
    }

    /** `Generate`: clear the buffer, then append header, expression and trailer. The result
        does not depend on what the buffer held before. */
    method Generate(node: ExpressionNode, floatText: Float32 -> string) returns (r: Result<string, Error>)
      modifies this
      ensures r == GenerateText(node, floatText)
      ensures r.Success? ==> buffer == r.value
    {
      buffer := "";
      GenerateHeader();
      var outcome := GenerateExpression(node, floatText);
      if outcome.Fail? {
        return Failure(outcome.error);
      }
      assert buffer == Header + Render(node, floatText).value;
      GenerateTrailer();
      r := Success(buffer);
    }

    method GenerateHeader()
      modifies this
      ensures buffer == old(buffer) + Header
    {
      buffer := buffer + Header;
    }

    method GenerateTrailer()
      modifies this
      ensures buffer == old(buffer) + ";" + Trailer
    {
      buffer := buffer + ";";
      buffer := buffer + Trailer;
    }

    /** `GenerateExpression`: append the text of `node`, or fail as `Render` does. */
    method GenerateExpression(node: ExpressionNode, floatText: Float32 -> string) returns (o: Outcome<Error>)
      modifies this
      decreases node, 2
      ensures o.Pass? <==> Render(node, floatText).Success?
      ensures o.Pass? ==> buffer == old(buffer) + Render(node, floatText).value
      ensures o.Fail? ==> o.error == Render(node, floatText).error
    {
      if node.IsLiteralNode() {
        o := GenerateLiteral(node, floatText);
      } else if node.ResolvedCommandNode? {
        o := GenerateCommand(node, floatText);
      } else if node.BlockNode? {
        var nodes := node.nodes;
        ghost var start := buffer + "()=>{";
        buffer := buffer + "()=>{";
        var i := 0;
        while i < |nodes|
          invariant 0 <= i <= |nodes|
          invariant RenderAll(nodes[..i], floatText).Success?
          invariant buffer == start + Terminated(RenderAll(nodes[..i], floatText).value)
        {
          ghost var done := RenderAll(nodes[..i], floatText).value;
          var child := GenerateExpression(nodes[i], floatText);
          if child.Fail? {
            RenderAllFirstFailure(nodes, i, floatText);
            RenderBlock(nodes, floatText);
            return child;
          }
          ghost var text := Render(nodes[i], floatText).value;
          RenderAllStep(nodes, i, floatText);
          BlockStep(start, done, text);
          buffer := buffer + ";";
          i := i + 1;
        }
        assert nodes[..i] == nodes;
        RenderBlock(nodes, floatText);
        buffer := buffer + "}()";
        o := Pass;
      } else {
        o := Fail(UnknownExpressionType(node.TypeName()));
      }
    }

    /** `GenerateLiteral`. */
    method GenerateLiteral(node: ExpressionNode, floatText: Float32 -> string) returns (o: Outcome<Error>)
      requires node.IsLiteralNode()
      modifies this
      ensures o.Pass? <==> Render(node, floatText).Success?
      ensures o.Pass? ==> buffer == old(buffer) + Render(node, floatText).value
      ensures o.Fail? ==> o.error == Render(node, floatText).error
    {
      match node
      case StringNode(s) =>
        buffer := buffer + "\"" + s + "\"";
        o := Pass;
      case BoolNode(b) =>
        buffer := buffer + (if b then "true" else "false");
        o := Pass;
      case FloatNode(f) =>
        buffer := buffer + floatText(f);
        o := Pass;
      case ArrayNode(_) =>
        o := Fail(UnknownLiteralNodeType(node.TypeName()));
    }

    /** `GenerateCommand`: the alias's `TrueName`, then the arguments in parentheses, a comma
        after every argument but the last. */
    method GenerateCommand(node: ExpressionNode, floatText: Float32 -> string) returns (o: Outcome<Error>)
      requires node.ResolvedCommandNode?
      modifies this
      decreases node, 1
      ensures o.Pass? <==> Render(node, floatText).Success?
      ensures o.Pass? ==> buffer == old(buffer) + Render(node, floatText).value
      ensures o.Fail? ==> o.error == Render(node, floatText).error
    {
      var args := node.args;
      var n := |args|;
      buffer := buffer + node.command.trueName;
      buffer := buffer + "(";
      ghost var start := buffer;
      for i := 0 to n
        invariant RenderAll(args[..i], floatText).Success?
        invariant buffer == start + Join(RenderAll(args[..i], floatText).value) + PendingComma(i, n)
      {
        var arg := GenerateExpression(args[i], floatText);
        if arg.Fail? {
          RenderAllFirstFailure(args, i, floatText);
          RenderCommand(node, floatText);
          return arg;
        }
        ArgumentStep(start, args, i, floatText);
        if i < n - 1 {
          buffer := buffer + ",";
        }
      }
      assert args[..n] == args;
      RenderCommand(node, floatText);
      buffer := buffer + ")";
      o := Pass;
    }
  }
}
