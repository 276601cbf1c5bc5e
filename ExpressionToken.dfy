/** The token tree the tokenizer hands to the parser (GolfSharp/ExpressionToken.cs). A token is a
    literal, a command call or a binary operation; this namespace has no block token. */
module Tokens {
  import opened Runtime

  datatype ExpressionToken =
    /** A value together with the runtime type the tokenizer assigned to it. */
    | LiteralToken(value: Object, tag: RuntimeType)
    /** A command name and its ordered arguments, any number of them. */
    | CommandToken(command: string, args: seq<ExpressionToken>)
    /** Exactly two operands and the operator's name. */
    | OperationToken(left: ExpressionToken, op: string, right: ExpressionToken)
}
