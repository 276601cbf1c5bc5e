/** The few pieces of the .NET runtime that the compiler relies on: boxed values (`object`),
    their runtime types (`System.Type`) and single-precision floats. */
module Runtime {

  /** A `float` (System.Single), kept as its IEEE-754 bit pattern. Nothing in the compiler does
      arithmetic on it; its text is produced by .NET formatting, which the code generator
      receives as a parameter. */
  type Float32 = bv32

  /** A `System.Type` value as the tokenizer attaches it to a literal: one of the three
      primitive types the parser knows, or any other type, by name. */
  datatype RuntimeType = StringType | BoolType | FloatType | OtherType(name: string)

  /** A boxed value held in an `object` field. */
  datatype Object =
    | StringObject(s: string)
    | BoolObject(b: bool)
    | FloatObject(f: Float32)
    | OtherObject(typeName: string)

  /** The runtime type of a boxed value (`GetType()`). */
  function TypeOf(o: Object): (t: RuntimeType)
    ensures t.OtherType? <==> o.OtherObject?
  {
    match o
    case StringObject(_) => StringType
    case BoolObject(_) => BoolType
    case FloatObject(_) => FloatType
    case OtherObject(name) => OtherType(name)
  }
}
