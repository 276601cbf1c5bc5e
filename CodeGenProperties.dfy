/** What the generator's output looks like, and when it fails. */
module CodeGenProperties {
  import opened Wrappers
  import opened Runtime
  import opened Errors
  import opened ExpressionTypes
  import opened Commands
  import opened ExpressionNodes
  import opened CodeGeneration

  /** Trees the generator can print: no unresolved command and no array node anywhere. */
  ghost predicate Renderable(n: ExpressionNode) {
    match n
    case UnresolvedCommandNode(_, _) => false
    case ArrayNode(_) => false
    case BlockNode(nodes) => forall i :: 0 <= i < |nodes| ==> Renderable(nodes[i])
    case ResolvedCommandNode(_, args, _) => forall i :: 0 <= i < |args| ==> Renderable(args[i])
    case _ => true
  }

  /** The generator fails exactly on trees holding an unresolved command or an array node. */
  lemma {:induction false} RenderSucceedsIff(n: ExpressionNode, floatText: Float32 -> string)
    decreases n, 1
    ensures Render(n, floatText).Success? <==> Renderable(n)
  {
    match n
    case BlockNode(nodes) => RenderAllSucceedsIff(nodes, floatText);
    case ResolvedCommandNode(_, args, _) => RenderAllSucceedsIff(args, floatText);
    case _ =>
  }

  lemma {:induction false} RenderAllSucceedsIff(nodes: seq<ExpressionNode>, floatText: Float32 -> string)
    decreases nodes, 0
    ensures RenderAll(nodes, floatText).Success? <==> forall i :: 0 <= i < |nodes| ==> Renderable(nodes[i])
  {
    if |nodes| > 0 {
      var init := nodes[..|nodes| - 1];
      RenderAllSucceedsIff(init, floatText);
      RenderSucceedsIff(nodes[|nodes| - 1], floatText);
      assert forall i :: 0 <= i < |init| ==> init[i] == nodes[i];
    }
  }

  /** Rendering a list extended at the end. */
  lemma RenderAllSnoc(init: seq<ExpressionNode>, last: ExpressionNode, floatText: Float32 -> string)
    ensures var ri, rl := RenderAll(init, floatText), Render(last, floatText);
      RenderAll(init + [last], floatText)
      == if ri.Failure? then Failure(ri.error)
         else if rl.Failure? then Failure(rl.error)
         else Success(ri.value + [rl.value])
  {
    var all := init + [last];
    assert all[..|all| - 1] == init && all[|all| - 1] == last;
    var ri, rl := RenderAll(init, floatText), Render(last, floatText);
    if ri.Success? && rl.Success? {
      assert RenderAll(all, floatText) == Success(ri.value + [rl.value]);
    }
  }

  /** Rendering a one-node list. */
  lemma RenderAllSingle(x: ExpressionNode, floatText: Float32 -> string)
    ensures var r := Render(x, floatText);
      RenderAll([x], floatText) == if r.Failure? then Failure(r.error) else Success([r.value])
  {
    var r := Render(x, floatText);
    assert [x][..0] == [] && [x][0] == x;
    assert RenderAll([], floatText) == Success([]);
    if r.Success? {
      assert [] + [r.value] == [r.value];
    }
  }

  /** Read from the left, the joined texts are the first text, a comma, and the rest joined. */
  lemma {:induction false} JoinCons(first: string, rest: seq<string>)
    requires rest != []
    decreases |rest|
    ensures Join([first] + rest) == first + "," + Join(rest)
  {
    var all := [first] + rest;
    var last := rest[|rest| - 1];
    var init := rest[..|rest| - 1];
    assert all[..|all| - 1] == [first] + init;
    if init == [] {
      assert rest == [last];
    } else {
      JoinCons(first, init);
      assert rest[..|rest| - 1] == init;
    }
  }

  /** Read from the left, the terminated texts are the first text, a semicolon, and the rest. */
  lemma {:induction false} TerminatedCons(first: string, rest: seq<string>)
    decreases |rest|
    ensures Terminated([first] + rest) == first + ";" + Terminated(rest)
  {
    var all := [first] + rest;
    if rest == [] {
      assert all[..|all| - 1] == [];
    } else {
      var init := rest[..|rest| - 1];
      assert all[..|all| - 1] == [first] + init;
      TerminatedCons(first, init);
    }
  }

  /** The number of occurrences of `c` in `s`. */
  function Count(c: char, s: string): nat {
    if |s| == 0 then 0 else (if s[0] == c then 1 else 0) + Count(c, s[1..])
  }

  /** The occurrences of `c` over all the texts. */
  function CountAll(c: char, texts: seq<string>): nat {
    if |texts| == 0 then 0 else CountAll(c, texts[..|texts| - 1]) + Count(c, texts[|texts| - 1])
  }

  lemma {:induction false} CountConcat(c: char, a: string, b: string)
    ensures Count(c, a + b) == Count(c, a) + Count(c, b)
  {
    if |a| > 0 {
      assert (a + b)[1..] == a[1..] + b;
      CountConcat(c, a[1..], b);
    } else {
      assert a + b == b;
    }
  }

  /** An alias call with n arguments holds n - 1 separating commas beyond those inside the
      argument texts. */
  lemma {:induction false} JoinSeparators(texts: seq<string>)
    requires texts != []
    decreases |texts|
    ensures Count(',', Join(texts)) == CountAll(',', texts) + |texts| - 1
  {
    var init := texts[..|texts| - 1];
    var last := texts[|texts| - 1];
    if init == [] {
      assert CountAll(',', init) == 0;
    } else {
      JoinSeparators(init);
      CountConcat(',', Join(init), ",");
      CountConcat(',', Join(init) + ",", last);
      assert Count(',', ",") == 1;
    }
  }

  /** Literal texts: a string between double quotes with nothing escaped, `true` or `false`, a
      float as the supplied formatting renders it; an empty block is `()=>{}()`. */
  lemma LiteralTexts(s: string, b: bool, f: Float32, floatText: Float32 -> string)
    ensures Render(StringNode(s), floatText) == Success("\"" + s + "\"")
    ensures Render(BoolNode(b), floatText) == Success(if b then "true" else "false")
    ensures Render(FloatNode(f), floatText) == Success(floatText(f))
    ensures Render(BlockNode([]), floatText) == Success("()=>{}()")
  {
    assert RenderAll([], floatText) == Success([]);
    assert Terminated([]) == "";
    assert "()=>{" + "" + "}()" == "()=>{}()";
  }

  /** A block's text: `()=>{`, then each child's text followed by `;`, then `}()`. */
  lemma BlockText(first: ExpressionNode, rest: seq<ExpressionNode>, floatText: Float32 -> string)
    requires Render(first, floatText).Success? && RenderAll(rest, floatText).Success?
    ensures Render(BlockNode([first] + rest), floatText)
            == Success("()=>{" + Render(first, floatText).value + ";" + Terminated(RenderAll(rest, floatText).value) + "}()")
  {
    var all := [first] + rest;
    RenderAllCons(first, rest, floatText);
    var text, texts := Render(first, floatText).value, RenderAll(rest, floatText).value;
    TerminatedCons(text, texts);
    RenderBlock(all, floatText);
    Enclose("()=>{", text, ";", Terminated(texts), "}()");
  }

  /** Regrouping inside a bracketing pair, stated apart for the same reason as `ConcatAssoc`:
      asserted inside `BlockText` it exhausts the resource limit on some solver seeds. */
  lemma Enclose(a: string, x: string, y: string, z: string, c: string)
    ensures a + (x + y + z) + c == a + x + y + z + c
  {
  }

  /** An alias call's text: `TrueName(`, the first argument's text, then each further argument's
      text after a comma, then `)`. */
  lemma CommandText(name: string, first: ExpressionNode, rest: seq<ExpressionNode>, command: Command, floatText: Float32 -> string)
    requires Render(first, floatText).Success? && RenderAll(rest, floatText).Success? && rest != []
    ensures Render(ResolvedCommandNode(name, [first] + rest, command), floatText)
            == Success(command.trueName + "(" + Render(first, floatText).value + "," + Join(RenderAll(rest, floatText).value) + ")")
  {
    var all := [first] + rest;
    RenderAllCons(first, rest, floatText);
    var text, texts := Render(first, floatText).value, RenderAll(rest, floatText).value;
    JoinCons(text, texts);
    RenderCommand(ResolvedCommandNode(name, all, command), floatText);
    Regroup(command.trueName, "(", text, ",", Join(texts), ")");
  }

  /** Regrouping the text of a call, stated apart for the same reason as `ConcatAssoc`. */
  lemma Regroup(a: string, b: string, x: string, y: string, z: string, c: string)
    ensures a + b + (x + y + z) + c == a + b + x + y + z + c
  {
  }

  /** Rendering a list from the left: the first node's text, then the rest's. */
  lemma {:induction false} RenderAllCons(first: ExpressionNode, rest: seq<ExpressionNode>, floatText: Float32 -> string)
    requires Render(first, floatText).Success? && RenderAll(rest, floatText).Success?
    decreases |rest|
    ensures RenderAll([first] + rest, floatText) == Success([Render(first, floatText).value] + RenderAll(rest, floatText).value)
  {
    var all := [first] + rest;
    var text := Render(first, floatText).value;
    if rest == [] {
      RenderAllSingle(first, floatText);
      assert all == [first];
      assert RenderAll(rest, floatText) == Success([]);
      assert [text] + [] == [text];
    } else {
      var init := rest[..|rest| - 1];
      var last := rest[|rest| - 1];
      assert rest == init + [last];
      assert all == ([first] + init) + [last];
      RenderAllSnoc(init, last, floatText);
      var ri, rl := RenderAll(init, floatText).value, Render(last, floatText).value;
      RenderAllCons(first, init, floatText);
      RenderAllSnoc([first] + init, last, floatText);
      assert RenderAll(all, floatText) == Success(([text] + ri) + [rl]);
      assert ([text] + ri) + [rl] == [text] + (ri + [rl]);
    }
  }

  /** The output of `Generate`: the header, the expression's text, a semicolon, the trailer; it
      fails exactly when the tree is not renderable. */
  lemma GenerateTextShape(node: ExpressionNode, floatText: Float32 -> string)
    ensures GenerateText(node, floatText).Success? <==> Renderable(node)
    ensures Renderable(node) ==>
              GenerateText(node, floatText).value == Header + Render(node, floatText).value + ";" + Trailer
  {
    RenderSucceedsIff(node, floatText);
  }

  /** Quotes inside a string literal are not escaped, so a one-argument call whose string holds
      `","` prints exactly like a two-argument call. */
  lemma QuotesNotEscaped(name: string, command: Command, floatText: Float32 -> string)
    ensures Render(ResolvedCommandNode(name, [StringNode("a\",\"b")], command), floatText)
            == Render(ResolvedCommandNode(name, [StringNode("a"), StringNode("b")], command), floatText)
  {
    var one := [StringNode("a\",\"b")];
    var two := [StringNode("a"), StringNode("b")];
    var q := "\"";
    var ta, tb := q + "a" + q, q + "b" + q;
    RenderAllSingle(StringNode("a\",\"b"), floatText);
    RenderAllSingle(StringNode("a"), floatText);
    RenderAllSnoc([StringNode("a")], StringNode("b"), floatText);
    assert two == [StringNode("a")] + [StringNode("b")];
    assert RenderAll(two, floatText) == Success([ta] + [tb]);
    assert [ta] + [tb] == [ta, tb];
    assert Join([ta, tb]) == ta + "," + tb;
    assert q + "a\",\"b" + q == ta + "," + tb;
  }

  /** A block is typed by its first child although its text is a lambda whose body discards
      every child's value. */
  lemma BlockTypeIgnoresEmittedLambda(s: string, floatText: Float32 -> string)
    ensures BlockNode([StringNode(s)]).ResultType() == String
    ensures Render(BlockNode([StringNode(s)]), floatText) == Success("()=>{" + "\"" + s + "\"" + ";" + "}()")
  {
    var nodes := [StringNode(s)];
    RenderAllSingle(StringNode(s), floatText);
    var text := "\"" + s + "\"";
    assert RenderAll(nodes, floatText) == Success([text]);
    assert [text][..0] == [];
    assert Terminated([text]) == text + ";";
    RenderBlock(nodes, floatText);
    assert "()=>{" + (text + ";") + "}()" == "()=>{" + "\"" + s + "\"" + ";" + "}()";
  }

  /** `Generate` clears its buffer first: calling it twice on one generator gives the same
      output both times. */
  method GenerateTwice(node: ExpressionNode, floatText: Float32 -> string) returns (first: Result<string, Error>, second: Result<string, Error>)
    ensures first == second
    ensures first.Success? <==> Renderable(node)
  {
    var gen := new CodeGen();
    first := gen.Generate(node, floatText);
    second := gen.Generate(node, floatText);
    GenerateTextShape(node, floatText);
  }
}
