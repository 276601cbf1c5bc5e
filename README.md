# GolfSharp: resolve and generate

GolfSharp compiles a terse golfing language to C#. This project models the two stages that run
after tokenizing:

- **The parser.** It turns a token tree into an expression tree in two passes. The first pass
  builds untyped literal nodes and `UnresolvedCommandNode`s. The second resolves every command
  name through a dictionary of `Command`s, arguments first.
- **The code generator.** It writes the resolved tree as C# text into a `StringBuilder`, between
  a fixed header and trailer.

The model also covers the data both stages share:

- `ExpressionType`: a base kind plus an array flag.
- The expression-node records and the command descriptors.
- The token records.

Layout:

| file | module | models |
|---|---|---|
| `Wrappers.dfy` | `Wrappers` | `Result` and `Outcome`; a thrown `InvalidOperationException` becomes a failure |
| `Runtime.dfy` | `Runtime` | boxed `object` values, `System.Type` tags, `float` as a 32-bit pattern |
| `Errors.dfy` | `Errors` | the failures the parser and the generator throw |
| `ExpressionType.dfy` | `ExpressionTypes` | `ExpressionType`, its table of names, `==`, `!=`, `ArrayOf`, `IsArrayOf`, `ToString` |
| `Command.dfy` | `Commands` | `Command` / `AliasCommand` |
| `ExpressionNode.dfy` | `ExpressionNodes` | `ExpressionNode` and every record deriving from it; `BlockNode`'s in-place `Add`/`AddRange` as the class `MutableBlockNode` |
| `ExpressionToken.dfy` | `Tokens` | `LiteralToken`, `CommandToken`, `OperationToken` |
| `Parser.dfy`, `ParserProperties.dfy` | `Parser`, `ParserProperties` | the parser as pure functions, a one-pass reference tree `Expected`, and what the two passes compute |
| `CodeGen.dfy`, `CodeGenProperties.dfy` | `CodeGeneration`, `CodeGenProperties` | the pure text function `Render`; the class `CodeGen`, whose buffer methods are proved to append exactly `Render`'s text; output shapes |
| `Pipeline.dfy` | `Pipeline` | parse then generate, with the command table of `Program` as a fixture |

How the model is built:

- **Record hierarchies.** Each closed record hierarchy is one datatype. The abstract bases
  `LiteralNode` becomes the predicate `IsLiteralNode`. `CommandNode` becomes the fields
  `commandName` and `args`, which both command-node kinds carry.
- **Constructors.** A record's constructor stores its arguments unchanged. Datatype
  constructors do the same.
- **Equality.** Record equality becomes datatype equality.
- **The command mapping.** The parser's mapping is a read-only field in the source. Here it is a
  parameter.
- **Float text.** The text of a float depends on .NET formatting. It is the parameter
  `floatText`.

The model follows the code as written:

- `BoolNode` and `FloatNode` report the inherited `Unknown` result type.
- A block takes its type from its first child, although the lambda emitted for it discards
  every child's value.
- The parser performs no arity or type check.
- String literals are emitted without escaping.

## Model

| member | source | states |
|---|---|---|
| ExpressionTypes.IndexOf | GolfSharp/ExpressionNode.cs:26 | `Array.IndexOf`: the result is the first position holding the name, or -1 exactly when the name is absent |
| ExpressionTypes.ValFromName | GolfSharp/ExpressionNode.cs:26 | a name in the table maps to its index, and any other name maps to -1 |
| ExpressionTypes.ExpressionType.ArrayOf | GolfSharp/ExpressionNode.cs:44 | keeps the base kind and sets the array flag |
| ExpressionTypes.ExpressionType.IsArrayOf | GolfSharp/ExpressionNode.cs:45-46 | holds iff `other` is not an array and this is exactly `other.ArrayOf()` |
| ExpressionTypes.ExpressionType.ToString | GolfSharp/ExpressionNode.cs:48-51 | is exactly the base-kind name followed by "[]" when the type is an array: it starts with the name, its length is the name's plus two for an array and plus nothing otherwise, and it ends in "[]" exactly when the type is an array |
| ExpressionTypes.Equal | GolfSharp/ExpressionNode.cs:53-56 | `==` holds exactly when the two types are the same value (base kind and flag) |
| ExpressionTypes.NotEqual | GolfSharp/ExpressionNode.cs:58-61 | `!=` holds exactly when the two types differ |
| ExpressionTypes.TypeNamesDistinct | GolfSharp/ExpressionNode.cs:25 | the table holds no name twice |
| ExpressionTypes.NamedTypesDistinct | GolfSharp/ExpressionNode.cs:25-33 | Void, Unknown, String, Bool and Float are pairwise distinct, none is an array, and each prints as its lower-case name |
| ExpressionTypes.EqualityIsStructural | GolfSharp/ExpressionNode.cs:53-61 | `==` compares base kind and array flag; `!=` is its negation |
| ExpressionTypes.ArrayOfCollapses | GolfSharp/ExpressionNode.cs:44 | `t.ArrayOf().ArrayOf() == t.ArrayOf()`, and an array type is its own `ArrayOf` |
| ExpressionTypes.IsArrayOfIrreflexive | GolfSharp/ExpressionNode.cs:45-46 | no type is the array form of itself |
| ExpressionTypes.ArrayOfIsArrayOf | GolfSharp/ExpressionNode.cs:44-46 | `t.ArrayOf().IsArrayOf(t)` iff `t` is not already an array |
| ExpressionTypes.ToStringInjective | GolfSharp/ExpressionNode.cs:48-51 | two types with the same text are the same type |
| Commands.Command.ArgCount | GolfSharp/Command.cs:5 | the parameter count is the length of `ArgTypes` |
| ExpressionNodes.ExpressionNode.ResultType | GolfSharp/ExpressionNode.cs:12-17 | the base default Unknown (with the overrides of LiteralNode.cs:6-18 and CommandNode.cs:13): String for a string node; the default Unknown for bool, float and unresolved command nodes; the command's result type for a resolved node; an array node's type is an array iff it has values, and Unknown when empty; an empty block is Void |
| ExpressionNodes.BlockTypeFromFirstDescendant | GolfSharp/ExpressionNode.cs:17 | a block's type is that of the first non-block node along first children, or Void when that chain ends in an empty block |
| ExpressionNodes.ArrayNodeType | GolfSharp/LiteralNode.cs:18 | a non-empty array node has its first value's type in array form, and that is `IsArrayOf` the first value's type unless the value is itself an array |
| ExpressionNodes.MutableBlockNode.constructor | GolfSharp/ExpressionNode.cs:15 | the block holds exactly the given children |
| ExpressionNodes.MutableBlockNode.Value | GolfSharp/ExpressionNode.cs:15 | the object denotes the `BlockNode` of its current children |
| ExpressionNodes.MutableBlockNode.ResultType | GolfSharp/ExpressionNode.cs:17 | Void with no children, else the first child's type |
| ExpressionNodes.MutableBlockNode.Add | GolfSharp/ExpressionNode.cs:19 | appends the child at the end, keeps the earlier children in order, and changes the type only of an empty block |
| ExpressionNodes.MutableBlockNode.AddRange | GolfSharp/ExpressionNode.cs:20 | appends the children in order at the end, keeps the earlier ones, and changes the type only of an empty block |
| Parser.Expected | GolfSharp/Parser.cs:18-64 | one-pass reference: a literal becomes its value's node, and every call or operation becomes a resolved node; no unresolved node anywhere |
| Parser.NodeFromToken | GolfSharp/Parser.cs:18-27 | succeeds iff every literal in the tree has a known tag matching its value; the result is untyped, and unresolved exactly for a non-literal token; failures are literal errors only |
| Parser.NodesFromTokens | GolfSharp/Parser.cs:42 | `Select(NodeFromToken)`: succeeds iff every token does, and then element i is the node of token i; a failure is the error of the first token that fails |
| Parser.LiteralNodeFromToken | GolfSharp/Parser.cs:29-38 | a string, bool or float tag gives the node of that kind holding the same value; an unknown tag fails with `Unknown literal type`; a value of another type fails the cast |
| Parser.CommandNodeFromCommandToken | GolfSharp/Parser.cs:40-43 | an unresolved node with the token's name and as many arguments |
| Parser.CommandNodeFromOperationToken | GolfSharp/Parser.cs:45-48 | an unresolved node named by the operator, with two arguments |
| Parser.ResolveCommands | GolfSharp/Parser.cs:50-57 | a node that is not an unresolved command comes back unchanged; an untyped tree resolves to one with no unresolved node; failures are unknown-command errors |
| Parser.ResolveAll | GolfSharp/Parser.cs:61 | `Select(ResolveCommands)`: on success element i is the resolution of node i, and untyped arguments come back fully resolved; a failure is the error of the first node that fails to resolve |
| Parser.ResolveCommand | GolfSharp/Parser.cs:59-65 | a name missing from the mapping fails; on success the node keeps name and argument count and is bound to `mappings[name]` |
| ParserProperties.ResolveFirstPass | GolfSharp/Parser.cs:50-65 | resolving the first pass's tree gives `Expected` when every name is known, and otherwise fails naming a missing name that the tree mentions |
| ParserProperties.ResolveFirstPassAll | GolfSharp/Parser.cs:61 | the same for an argument list |
| ParserProperties.ResolveAllPair | GolfSharp/Parser.cs:61 | two arguments are resolved left before right, and the first failure is reported |
| ParserProperties.ParseCorrect | GolfSharp/Parser.cs:12-16 | `Parse` succeeds iff literals are well formed and names known, and then returns `Expected`; a literal error comes before any unknown name; an unknown-command error names a command of the tree missing from the mapping |
| ParserProperties.ParseLeavesNoUnresolved | GolfSharp/Parser.cs:14-15 | after a successful parse no `UnresolvedCommandNode` remains |
| ParserProperties.ParseLiteral | GolfSharp/Parser.cs:31-36 | a literal root parses to the node of its kind holding the same value |
| ParserProperties.ParsedLiteralTypes | GolfSharp/LiteralNode.cs:6-14 | parsed string literals are typed String, but bool and float literals Unknown |
| ParserProperties.OperationIsCommandCall | GolfSharp/Parser.cs:40-48 | `(l, op, r)` parses exactly like a call of `op` on `[l, r]`, errors included |
| ParserProperties.ParsedCommandShape | GolfSharp/Parser.cs:59-64 | a parsed call keeps the name, is bound to `mappings[name]`, keeps the argument count whatever `ArgCount` says, has each argument equal to that argument's own parse, and is typed by the command's result type |
| ParserProperties.ArgumentsResolvedFirst | GolfSharp/Parser.cs:61-63 | an unknown name inside the arguments is the one reported, even when the enclosing name is unknown too |
| ParserProperties.ResolveCommandsSkipsBlocks | GolfSharp/Parser.cs:52-56 | blocks and arrays are returned unchanged by the resolution pass |
| CodeGeneration.Render | GolfSharp/CodeGen.cs:43-104 | the text of a tree; its only failures are the unknown-expression error for an unresolved command and the unknown-literal error for an array node |
| CodeGeneration.RenderAll | GolfSharp/CodeGen.cs:55-59 | one text per node, in order, with the first failure reported |
| CodeGeneration.CodeGen.constructor | GolfSharp/CodeGen.cs:7 | a new generator starts with an empty buffer |
| CodeGeneration.CodeGen.Generate | GolfSharp/CodeGen.cs:9-16 | whatever the buffer held before, the result is header, expression text, `;` and trailer, and the buffer then holds exactly that |
| CodeGeneration.CodeGen.GenerateHeader | GolfSharp/CodeGen.cs:18-33 | appends the header and nothing else |
| CodeGeneration.CodeGen.GenerateTrailer | GolfSharp/CodeGen.cs:34-41 | appends `;` and the trailer |
| CodeGeneration.CodeGen.GenerateExpression | GolfSharp/CodeGen.cs:43-65 | appends exactly `Render`'s text and succeeds iff `Render` does, failing with the same error |
| CodeGeneration.CodeGen.GenerateLiteral | GolfSharp/CodeGen.cs:67-83 | the same for a literal node; an array node fails |
| CodeGeneration.CodeGen.GenerateCommand | GolfSharp/CodeGen.cs:85-104 | the same for a resolved command: a comma after every argument but the last |
| CodeGenProperties.RenderSucceedsIff | GolfSharp/CodeGen.cs:43-83 | rendering fails exactly when an unresolved command or an array node occurs somewhere in the tree |
| CodeGenProperties.RenderAllSucceedsIff | GolfSharp/CodeGen.cs:55-59 | a list renders exactly when each of its nodes does |
| CodeGenProperties.JoinSeparators | GolfSharp/CodeGen.cs:93-98 | n argument texts are joined with exactly n - 1 added commas |
| CodeGenProperties.LiteralTexts | GolfSharp/CodeGen.cs:71-78 | a string is quoted without escaping, a bool is `true`/`false`, a float is its formatted text, and an empty block is `()=>{}()` |
| CodeGenProperties.BlockText | GolfSharp/CodeGen.cs:53-60 | a block is `()=>{`, then the first child's text and `;`, then the rest each followed by `;`, then `}()` |
| CodeGenProperties.CommandText | GolfSharp/CodeGen.cs:90-99 | a call is `TrueName(`, then the first argument's text, `,`, the rest joined by commas, then `)` |
| CodeGenProperties.GenerateTextShape | GolfSharp/CodeGen.cs:9-16 | the output is header, expression text, `;` and trailer, and exists exactly for renderable trees |
| CodeGenProperties.QuotesNotEscaped | GolfSharp/CodeGen.cs:72 | a one-argument call on the string `a","b` prints exactly like the two-argument call on `a` and `b` |
| CodeGenProperties.BlockTypeIgnoresEmittedLambda | GolfSharp/ExpressionNode.cs:17 | a block of one string is typed String, yet its text is a lambda that returns nothing |
| CodeGenProperties.GenerateTwice | GolfSharp/CodeGen.cs:11 | the buffer is cleared first, so two calls on one generator give the same output; that output exists iff the tree is renderable |
| Pipeline.ExpectedRenderable | GolfSharp/Parser.cs:40-64 | the parser only builds trees the generator can print |
| Pipeline.CompileSucceedsIff | GolfSharp/Program.cs:16-19 | parse-then-generate succeeds iff literals are well formed and names known; every parse that succeeds also generates, so any failure is the parser's |
| Pipeline.ParseLiteralCall1 | GolfSharp/Parser.cs:40-64 | a known name applied to one well-formed literal resolves to the call on that literal's node, bound to the mapping's command |
| Pipeline.ParseLiteralCall2 | GolfSharp/Parser.cs:40-64 | the same for two literals, in order |
| Pipeline.CompileStringCall | GolfSharp/CodeGen.cs:85-99 | a known name applied to one string compiles to header, `TrueName("s")`, `;` and trailer |
| Pipeline.CompileUnknownName | GolfSharp/Parser.cs:62-63 | a call of a name the mapping lacks fails with an unknown-command error naming it |
| Pipeline.HelloWorld | GolfSharp/Program.cs:5-19 | `w"Hello, World!"` resolves to one `w` call and compiles to `Console.WriteLine("Hello, World!");` between header and trailer |
| Pipeline.SimpleRange | GolfSharp/Program.cs:8 | `#1,10` resolves to an `Enumerable.Range` call on the float nodes 1 and 10, typed as an array of floats |
| Pipeline.NoArityCheck | GolfSharp/Parser.cs:59-64 | `#` declares two parameters, yet a one-argument call resolves |
| Pipeline.UnknownName | GolfSharp/Parser.cs:62-63 | a name absent from the table fails with an unknown-command error naming it |

## Left out

- Tokenizing: the parser takes a token tree. The `Tokenizer` that `Program` and the unit tests call is not part of this model.
- Console output and process entry in `Program.Main`: `Pipeline.Compile` returns the text that would be written.
- `Par/ExpressionToken.cs` is a second token set in another namespace. Its `BlockToken` is consumed by neither stage and is not modelled.
- Float formatting: `StringBuilder.Append(float)` depends on .NET's culture-dependent formatting. The text of a float is the parameter `floatText`, and a float is kept as its 32-bit pattern.
- Header and trailer: each is one string constant. It is the raw literal's content lines with the closing quotes' indentation removed, joined by `\n`.
- `null`: a `LiteralToken` value, a token list or a mapping entry that is `null` is not modelled. Neither stage checks for it.
- Unreachable `default` branches: the parser's unknown-token-type branch and the generator's unknown-command-type branch cannot be reached. The token and command hierarchies are closed datatypes here.
- Record equality: C# records compare `List`/array fields by reference, but the model compares sequences by value. `MutableBlockNode` does not model two blocks sharing one child list.
- The buffer after a failure: `Generate` fails without stating what the partly written buffer holds. The source leaves it half written when it throws.
- ExpressionTypes.ValFromName: does not apply `ToLower`. Every caller passes a lower-case literal, so the result is the same.
- Aliases, arity checks, type checks, array packing, implicit conversions and the spilling of surplus arguments are not in this code. They are not modelled.
