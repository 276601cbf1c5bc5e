/** `Command` and `AliasCommand` from GolfSharp/Command.cs: the descriptor a command name is
    bound to. `Command` is abstract and `AliasCommand` is its only concrete record, so the closed
    hierarchy is a datatype with a single constructor; the `AliasCommand` constructor stores its
    three arguments unchanged, which is what the datatype constructor does. */
module Commands {
  import opened ExpressionTypes

  datatype Command = AliasCommand(trueName: string, resultType: ExpressionType, argTypes: seq<ExpressionType>) {

    /** The number of declared parameters. */
    function ArgCount(): (n: nat)
      ensures n == |argTypes|
    {
      |argTypes|
    }
  }
}
