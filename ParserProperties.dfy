/** What the two passes of the parser compute together: a well-formed token tree whose names are
    all known resolves to `Expected`, and every other one fails with the error of the pass that
    first meets the fault. */
module ParserProperties {
  import opened Wrappers
  import opened Runtime
  import opened Errors
  import opened ExpressionTypes
  import opened Commands
  import opened ExpressionNodes
  import opened Tokens
  import opened Parser

  /** The resolution pass over the first pass's tree of one token. */
  lemma {:induction false} ResolveFirstPass(mappings: CommandMappings, t: ExpressionToken)
    requires LiteralsWellFormed(t)
    decreases t, 1
    ensures var r := ResolveCommands(mappings, NodeFromToken(t).value);
      && (NamesKnown(mappings, t) ==> r == Success(Expected(mappings, t)))
      && (!NamesKnown(mappings, t) ==>
            r.Failure? && r.error.UnknownCommand? && r.error.name !in mappings && Mentions(t, r.error.name))
  {
    match t
    case LiteralToken(_, _) =>
    case CommandToken(c, args) =>
      ResolveFirstPassAll(mappings, args);
    case OperationToken(left, op, right) =>
      ResolveFirstPass(mappings, left);
      ResolveFirstPass(mappings, right);
      var nl, nr := NodeFromToken(left).value, NodeFromToken(right).value;
      var nodes := [nl, nr];
      assert NodeFromToken(t).value == UnresolvedCommandNode(op, nodes);
      ResolveAllPair(mappings, nl, nr);
  }

  /** Every token of the list passes `NamesKnown`. */
  ghost predicate AllKnown(mappings: CommandMappings, ts: seq<ExpressionToken>) {
    forall i :: 0 <= i < |ts| ==> NamesKnown(mappings, ts[i])
  }

  /** Some token of the list mentions `name`. */
  ghost predicate SomeMentions(ts: seq<ExpressionToken>, name: string) {
    exists i :: 0 <= i < |ts| && Mentions(ts[i], name)
  }

  /** The resolution pass over the first pass's list of nodes of a token list. */
  lemma {:induction false} ResolveFirstPassAll(mappings: CommandMappings, ts: seq<ExpressionToken>)
    requires forall i :: 0 <= i < |ts| ==> LiteralsWellFormed(ts[i])
    decreases ts, 0
    ensures var r := ResolveAll(mappings, NodesFromTokens(ts).value);
      && (AllKnown(mappings, ts) ==> r == Success(ExpectedAll(mappings, ts)))
      && (!AllKnown(mappings, ts) ==>
            r.Failure? && r.error.UnknownCommand? && r.error.name !in mappings && SomeMentions(ts, r.error.name))
  {
    if |ts| > 0 {
      var tail := ts[1..];
      assert forall i :: 0 <= i < |tail| ==> tail[i] == ts[i + 1];
      ResolveFirstPass(mappings, ts[0]);
      ResolveFirstPassAll(mappings, tail);
      NodesFromTokensCons(ts);
      var n0, rest := NodeFromToken(ts[0]).value, NodesFromTokens(tail).value;
      ResolveAllCons(mappings, n0, rest);
      AllKnownCons(mappings, ts);
      if AllKnown(mappings, ts) {
        ExpectedAllCons(mappings, ts);
      } else {
        var r := ResolveAll(mappings, NodesFromTokens(ts).value);
        SomeMentionsCons(ts, r.error.name);
      }
    }
  }

  lemma AllKnownCons(mappings: CommandMappings, ts: seq<ExpressionToken>)
    requires |ts| > 0
    ensures AllKnown(mappings, ts) <==> NamesKnown(mappings, ts[0]) && AllKnown(mappings, ts[1..])
  {
    assert forall i :: 1 <= i < |ts| ==> ts[1..][i - 1] == ts[i];
  }

  lemma SomeMentionsCons(ts: seq<ExpressionToken>, name: string)
    requires |ts| > 0
    ensures SomeMentions(ts, name) <==> Mentions(ts[0], name) || SomeMentions(ts[1..], name)
  {
    if SomeMentions(ts[1..], name) {
      var k :| 0 <= k < |ts[1..]| && Mentions(ts[1..][k], name);
      assert Mentions(ts[k + 1], name);
    }
    if SomeMentions(ts, name) && !Mentions(ts[0], name) {
      var k :| 0 <= k < |ts| && Mentions(ts[k], name);
      assert Mentions(ts[1..][k - 1], name);
    }
  }

  /** The first pass over a non-empty token list, read from the left. */
  lemma NodesFromTokensCons(ts: seq<ExpressionToken>)
    requires |ts| > 0 && forall i :: 0 <= i < |ts| ==> LiteralsWellFormed(ts[i])
    ensures NodesFromTokens(ts).value == [NodeFromToken(ts[0]).value] + NodesFromTokens(ts[1..]).value
  {
  }

  /** The resolution pass over a list, read from the left. */
  lemma ResolveAllCons(mappings: CommandMappings, first: ExpressionNode, rest: seq<ExpressionNode>)
    ensures var r0, rr := ResolveCommands(mappings, first), ResolveAll(mappings, rest);
      ResolveAll(mappings, [first] + rest) ==
        if r0.Failure? then Failure(r0.error)
        else if rr.Failure? then Failure(rr.error)
        else Success([r0.value] + rr.value)
  {
    var all := [first] + rest;
    assert all[0] == first && all[1..] == rest;
  }

  /** `ExpectedAll` of a non-empty list, read from the left. */
  lemma ExpectedAllCons(mappings: CommandMappings, ts: seq<ExpressionToken>)
    requires |ts| > 0 && forall i :: 0 <= i < |ts| ==> LiteralsWellFormed(ts[i]) && NamesKnown(mappings, ts[i])
    ensures ExpectedAll(mappings, ts) == [Expected(mappings, ts[0])] + ExpectedAll(mappings, ts[1..])
  {
    assert forall i :: 1 <= i < |ts| ==> ts[1..][i - 1] == ts[i];
  }

  /** `ResolveAll` over two nodes: the left one is resolved first. */
  lemma ResolveAllPair(mappings: CommandMappings, a: ExpressionNode, b: ExpressionNode)
    ensures var ra, rb := ResolveCommands(mappings, a), ResolveCommands(mappings, b);
      ResolveAll(mappings, [a, b]) ==
        if ra.Failure? then Failure(ra.error)
        else if rb.Failure? then Failure(rb.error)
        else Success([ra.value, rb.value])
  {
    var ra, rb := ResolveCommands(mappings, a), ResolveCommands(mappings, b);
    var pair, single := [a, b], [b];
    assert pair[0] == a && pair[1..] == single && single[0] == b && single[1..] == [];
    if ra.Failure? {
      assert ResolveAll(mappings, pair) == Failure(ra.error);
    } else if rb.Failure? {
      assert ResolveAll(mappings, single) == Failure(rb.error);
    } else {
      assert ResolveAll(mappings, single[1..]) == Success([]);
      assert [rb.value] + [] == [rb.value];
      assert ResolveAll(mappings, single) == Success([rb.value]);
      assert ResolveAll(mappings, pair) == Success([ra.value] + [rb.value]);
      assert [ra.value] + [rb.value] == [ra.value, rb.value];
    }
  }

  /** The parser against its one-pass description: it succeeds exactly when every literal is
      well formed and every name is known, and then builds `Expected`; a malformed literal is
      reported before any unknown name, since the first pass runs to completion before the
      second starts; otherwise the error names a command or operator of the tree that the
      mapping lacks. */
  lemma ParseCorrect(mappings: CommandMappings, t: ExpressionToken)
    ensures Parse(mappings, t).Success? <==> LiteralsWellFormed(t) && NamesKnown(mappings, t)
    ensures LiteralsWellFormed(t) && NamesKnown(mappings, t) ==> Parse(mappings, t) == Success(Expected(mappings, t))
    ensures !LiteralsWellFormed(t) ==>
              Parse(mappings, t).Failure? && (Parse(mappings, t).error.UnknownLiteralType? || Parse(mappings, t).error.InvalidCast?)
    ensures LiteralsWellFormed(t) && !NamesKnown(mappings, t) ==>
              && Parse(mappings, t).Failure?
              && Parse(mappings, t).error.UnknownCommand?
              && Parse(mappings, t).error.name !in mappings
              && Mentions(t, Parse(mappings, t).error.name)
  {
    if LiteralsWellFormed(t) {
      ResolveFirstPass(mappings, t);
    }
  }

  /** After a successful parse no `UnresolvedCommandNode` is left anywhere in the tree. */
  lemma ParseLeavesNoUnresolved(mappings: CommandMappings, t: ExpressionToken)
    requires Parse(mappings, t).Success?
    ensures NoUnresolved(Parse(mappings, t).value)
  {
    ParseCorrect(mappings, t);
  }

  /** A literal root comes back as the literal node of its value, with the value unchanged. */
  lemma ParseLiteral(mappings: CommandMappings, value: Object, tag: RuntimeType)
    requires !tag.OtherType? && TypeOf(value) == tag
    ensures var r := Parse(mappings, LiteralToken(value, tag));
      && r.Success? && (r.value.StringNode? || r.value.BoolNode? || r.value.FloatNode?)
      && LiteralObject(r.value) == value
  {
  }

  /** The result types of parsed literals: `String` for a string, but `Unknown` (the inherited
      default) for a bool or a float. */
  lemma ParsedLiteralTypes(mappings: CommandMappings, value: Object, tag: RuntimeType)
    requires !tag.OtherType? && TypeOf(value) == tag
    ensures var r := Parse(mappings, LiteralToken(value, tag));
      r.Success? && r.value.ResultType() == (if tag == StringType then String else Unknown)
  {
  }

  /** An operation `(left, op, right)` parses exactly as a call of `op` with the arguments
      `[left, right]`, errors included. */
  lemma {:induction false} OperationIsCommandCall(mappings: CommandMappings, left: ExpressionToken, op: string, right: ExpressionToken)
    ensures Parse(mappings, OperationToken(left, op, right)) == Parse(mappings, CommandToken(op, [left, right]))
  {
    var ts := [left, right];
    assert ts[0] == left && ts[1..] == [right] && [right][0] == right && [right][1..] == [];
    var rl, rr := NodeFromToken(left), NodeFromToken(right);
    var opToken, cmdToken := OperationToken(left, op, right), CommandToken(op, ts);
    if rl.Failure? {
      assert NodesFromTokens(ts) == Failure(rl.error);
      assert NodeFromToken(opToken) == Failure(rl.error) == NodeFromToken(cmdToken);
    } else if rr.Failure? {
      assert NodesFromTokens([right]) == Failure(rr.error);
      assert NodesFromTokens(ts) == Failure(rr.error);
      assert NodeFromToken(opToken) == Failure(rr.error) == NodeFromToken(cmdToken);
    } else {
      assert NodesFromTokens([right][1..]) == Success([]);
      assert [rr.value] + [] == [rr.value];
      assert NodesFromTokens([right]) == Success([rr.value]);
      assert NodesFromTokens(ts) == Success([rl.value] + [rr.value]);
      assert [rl.value] + [rr.value] == [rl.value, rr.value];
      assert NodeFromToken(OperationToken(left, op, right)) == Success(UnresolvedCommandNode(op, [rl.value, rr.value]));
    }
    assert NodeFromToken(OperationToken(left, op, right)) == NodeFromToken(CommandToken(op, ts));
  }

  /** A parsed command node has the name of its token, the command the mapping holds for that
      name, as many arguments as the token, each the parse of the matching argument token, and
      the command's declared result type. No arity is checked: this holds whatever `ArgCount`
      the command declares. */
  lemma ParsedCommandShape(mappings: CommandMappings, c: string, args: seq<ExpressionToken>)
    requires Parse(mappings, CommandToken(c, args)).Success?
    ensures var n := Parse(mappings, CommandToken(c, args)).value;
      && c in mappings
      && n == ResolvedCommandNode(c, n.args, mappings[c])
      && |n.args| == |args|
      && (forall i :: 0 <= i < |args| ==> Parse(mappings, args[i]) == Success(n.args[i]))
      && n.ResultType() == mappings[c].resultType
  {
    var t := CommandToken(c, args);
    ParseCorrect(mappings, t);
    forall i | 0 <= i < |args|
      ensures Parse(mappings, args[i]) == Success(Parse(mappings, t).value.args[i])
    {
      ParseCorrect(mappings, args[i]);
    }
  }

  /** Arguments are resolved before the enclosing name is looked up: when an argument holds an
      unknown name, the error names a command of the arguments, even if the enclosing name is
      unknown as well. */
  lemma ArgumentsResolvedFirst(mappings: CommandMappings, c: string, args: seq<ExpressionToken>, j: nat)
    requires LiteralsWellFormed(CommandToken(c, args))
    requires j < |args| && !NamesKnown(mappings, args[j])
    ensures var r := Parse(mappings, CommandToken(c, args));
      && r.Failure? && r.error.UnknownCommand? && r.error.name !in mappings
      && exists i :: 0 <= i < |args| && Mentions(args[i], r.error.name)
  {
    ResolveFirstPassAll(mappings, args);
    var t := CommandToken(c, args);
    var nodes := NodesFromTokens(args).value;
    assert NodeFromToken(t) == Success(UnresolvedCommandNode(c, nodes));
    var resolved := ResolveAll(mappings, nodes);
    assert resolved.Failure?;
    assert ResolveCommand(mappings, UnresolvedCommandNode(c, nodes)) == Failure(resolved.error);
    assert Parse(mappings, t) == Failure(resolved.error);
  }

  /** The resolution pass does not look inside blocks or arrays: a block holding an unresolved
      command is returned unchanged. The first pass never builds one. */
  lemma ResolveCommandsSkipsBlocks(mappings: CommandMappings, nodes: seq<ExpressionNode>)
    ensures ResolveCommands(mappings, BlockNode(nodes)) == Success(BlockNode(nodes))
    ensures ResolveCommands(mappings, ArrayNode(nodes)) == Success(ArrayNode(nodes))
  {
  }
}
