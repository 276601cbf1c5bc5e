/** The pipeline `Program.Main` runs on a token tree: parse with a command mapping, then
    generate. Its two-entry command table serves as the fixture of the end-to-end lemmas. */
module Pipeline {
  import opened Wrappers
  import opened Runtime
  import opened Errors
  import opened ExpressionTypes
  import opened Commands
  import opened ExpressionNodes
  import opened Tokens
  import opened Parser
  import opened ParserProperties
  import opened CodeGeneration
  import opened CodeGenProperties

  /** Parse the token tree, then generate the program text. */
  function Compile(mappings: CommandMappings, rootToken: ExpressionToken, floatText: Float32 -> string): Result<string, Error> {
    var node :- Parse(mappings, rootToken);
    GenerateText(node, floatText)
  }

  /** The tree a token tree resolves to holds neither arrays nor unresolved commands. */
  lemma {:induction false} ExpectedRenderable(mappings: CommandMappings, t: ExpressionToken)
    requires LiteralsWellFormed(t) && NamesKnown(mappings, t)
    decreases t
    ensures Renderable(Expected(mappings, t))
  {
    match t
    case LiteralToken(_, _) =>
    case CommandToken(_, args) =>
      forall i | 0 <= i < |args| ensures Renderable(ExpectedAll(mappings, args)[i]) {
        ExpectedRenderable(mappings, args[i]);
      }
    case OperationToken(left, _, right) =>
      ExpectedRenderable(mappings, left);
      ExpectedRenderable(mappings, right);
  }

  /** Whatever parses also generates: the generator's failures cannot be reached through the
      parser, and a compilation fails exactly when a literal is malformed or a name unknown. */
  lemma CompileSucceedsIff(mappings: CommandMappings, t: ExpressionToken, floatText: Float32 -> string)
    ensures Compile(mappings, t, floatText).Success? <==> LiteralsWellFormed(t) && NamesKnown(mappings, t)
    ensures Parse(mappings, t).Success? ==> GenerateText(Parse(mappings, t).value, floatText).Success?
    ensures Compile(mappings, t, floatText).Failure? ==>
              Compile(mappings, t, floatText).error == Parse(mappings, t).error
  {
    ParseCorrect(mappings, t);
    if Parse(mappings, t).Success? {
      ExpectedRenderable(mappings, t);
      GenerateTextShape(Parse(mappings, t).value, floatText);
    }
  }

  /** A call of a known name on one well-formed literal resolves to the call on that literal's node. */
  lemma ParseLiteralCall1(mappings: CommandMappings, c: string, a: ExpressionToken)
    requires c in mappings && a.LiteralToken? && LiteralsWellFormed(a)
    ensures Parse(mappings, CommandToken(c, [a]))
            == Success(ResolvedCommandNode(c, [LiteralNodeOf(a.value)], mappings[c]))
  {
    var t := CommandToken(c, [a]);
    assert LiteralsWellFormed(t) && NamesKnown(mappings, t);
    ParseCorrect(mappings, t);
    var expected := ExpectedAll(mappings, t.args);
    assert expected[0] == Expected(mappings, a);
    assert expected == [LiteralNodeOf(a.value)];
  }

  /** A call of a known name on two well-formed literals resolves to the call on their nodes. */
  lemma ParseLiteralCall2(mappings: CommandMappings, c: string, a: ExpressionToken, b: ExpressionToken)
    requires c in mappings && a.LiteralToken? && LiteralsWellFormed(a) && b.LiteralToken? && LiteralsWellFormed(b)
    ensures Parse(mappings, CommandToken(c, [a, b]))
            == Success(ResolvedCommandNode(c, [LiteralNodeOf(a.value), LiteralNodeOf(b.value)], mappings[c]))
  {
    var t := CommandToken(c, [a, b]);
    assert LiteralsWellFormed(t) && NamesKnown(mappings, t);
    ParseCorrect(mappings, t);
    var expected := ExpectedAll(mappings, t.args);
    assert expected[0] == Expected(mappings, a) && expected[1] == Expected(mappings, b);
    assert expected == [LiteralNodeOf(a.value), LiteralNodeOf(b.value)];
  }

  /** A call of a known name on one string compiles to the alias applied to the quoted string. */
  lemma CompileStringCall(mappings: CommandMappings, c: string, s: string, floatText: Float32 -> string)
    requires c in mappings
    ensures Compile(mappings, CommandToken(c, [LiteralToken(StringObject(s), StringType)]), floatText)
            == Success(Header + mappings[c].trueName + "(" + "\"" + s + "\"" + ")" + ";" + Trailer)
  {
    var a := LiteralToken(StringObject(s), StringType);
    ParseLiteralCall1(mappings, c, a);
    assert LiteralNodeOf(a.value) == StringNode(s);
    var node := ResolvedCommandNode(c, [StringNode(s)], mappings[c]);
    var text := "\"" + s + "\"";
    RenderAllSingle(StringNode(s), floatText);
    RenderCommand(node, floatText);
    assert [text][..0] == [];
    assert Join([text]) == text;
    var body := mappings[c].trueName + "(" + text + ")";
    assert Render(node, floatText) == Success(body);
    assert Compile(mappings, CommandToken(c, [a]), floatText) == Success(Header + body + ";" + Trailer);
    assert Header + body + ";" + Trailer
        == Header + mappings[c].trueName + "(" + "\"" + s + "\"" + ")" + ";" + Trailer;
  }

  /** A call of a name the mapping lacks fails with an error naming it. */
  lemma CompileUnknownName(mappings: CommandMappings, c: string, floatText: Float32 -> string)
    requires c !in mappings
    ensures Compile(mappings, CommandToken(c, []), floatText) == Failure(UnknownCommand(c))
  {
    var t := CommandToken(c, []);
    assert NodesFromTokens([]) == Success([]);
    assert NodeFromToken(t) == Success(UnresolvedCommandNode(c, []));
    assert ResolveAll(mappings, []) == Success([]);
    assert ResolveCommand(mappings, UnresolvedCommandNode(c, [])) == Failure(UnknownCommand(c));
    assert Parse(mappings, t) == Failure(UnknownCommand(c));
  }

  /** The command table of `Program`. */
  const ProgramMappings: CommandMappings := map[
    "w" := AliasCommand("Console.WriteLine", Void, [String]),
    "#" := AliasCommand("Enumerable.Range", Float.ArrayOf(), [Float, Float])
  ]

  /** The tokens of `w"Hello, World!"`. */
  const HelloWorldTokens: ExpressionToken := CommandToken("w", [LiteralToken(StringObject("Hello, World!"), StringType)])

  /** `w"Hello, World!"` resolves to one call of `w` with one string argument and compiles to a
      call of `Console.WriteLine` on the quoted string inside the header and trailer. */
  lemma HelloWorld(floatText: Float32 -> string)
    ensures Parse(ProgramMappings, HelloWorldTokens)
            == Success(ResolvedCommandNode("w", [StringNode("Hello, World!")], ProgramMappings["w"]))
    ensures Compile(ProgramMappings, HelloWorldTokens, floatText)
            == Success(Header + "Console.WriteLine" + "(" + "\"" + "Hello, World!" + "\"" + ")" + ";" + Trailer)
  {
    assert "#"[0] != "w"[0];
    ParseLiteralCall1(ProgramMappings, "w", HelloWorldTokens.args[0]);
    CompileStringCall(ProgramMappings, "w", "Hello, World!", floatText);
  }

  /** The bit patterns of `1f` and `10f`. */
  const One: Float32 := 0x3F80_0000
  const Ten: Float32 := 0x4120_0000

  /** The tokens of `#1,10`. */
  const RangeTokens: ExpressionToken :=
    CommandToken("#", [LiteralToken(FloatObject(One), FloatType), LiteralToken(FloatObject(Ten), FloatType)])

  /** `#1,10` resolves to a call of `#` bound to `Enumerable.Range`, on the float nodes of 1 and
      10, typed as an array of floats. */
  lemma SimpleRange()
    ensures Parse(ProgramMappings, RangeTokens)
            == Success(ResolvedCommandNode("#", [FloatNode(One), FloatNode(Ten)], ProgramMappings["#"]))
    ensures Parse(ProgramMappings, RangeTokens).value.ResultType() == Float.ArrayOf()
  {
    assert "#"[0] != "w"[0];
    ParseLiteralCall2(ProgramMappings, "#", RangeTokens.args[0], RangeTokens.args[1]);
  }

  /** The tokens of `#1`. */
  const ShortRangeTokens: ExpressionToken := CommandToken("#", [LiteralToken(FloatObject(One), FloatType)])

  /** No arity check: `#` declares two parameters, yet a call with one argument resolves. */
  lemma NoArityCheck()
    ensures ProgramMappings["#"].ArgCount() == 2
    ensures Parse(ProgramMappings, ShortRangeTokens)
            == Success(ResolvedCommandNode("#", [FloatNode(One)], ProgramMappings["#"]))
  {
    assert "#"[0] != "w"[0];
    ParseLiteralCall1(ProgramMappings, "#", ShortRangeTokens.args[0]);
  }

  /** An unknown name fails the compilation with an error naming it. */
  lemma UnknownName(floatText: Float32 -> string)
    ensures Compile(ProgramMappings, CommandToken("q", []), floatText) == Failure(UnknownCommand("q"))
  {
    assert "q"[0] != "w"[0] && "q"[0] != "#"[0];
    CompileUnknownName(ProgramMappings, "q", floatText);
  }
}
