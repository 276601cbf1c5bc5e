/** The exceptions the parser and the code generator throw, one constructor per throw site. */
module Errors {
  import opened Runtime

  datatype Error =
    /** A literal token whose type tag is none of string, bool, float (Parser.cs, LiteralNodeFromToken). */
    | UnknownLiteralType(tag: RuntimeType)
    /** An unboxing cast `(string)`, `(bool)` or `(float)` of a value of another runtime type. */
    | InvalidCast(from: RuntimeType, to: RuntimeType)
    /** A command name that the command mapping does not contain (Parser.cs, ResolveCommand). */
    | UnknownCommand(name: string)
    /** A node kind the generator has no case for (CodeGen.cs, GenerateExpression). */
    | UnknownExpressionType(nodeType: string)
    /** A literal node kind the generator has no case for (CodeGen.cs, GenerateLiteral). */
    | UnknownLiteralNodeType(nodeType: string)
}
