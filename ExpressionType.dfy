/** `ExpressionType` from GolfSharp/ExpressionNode.cs: a base kind, stored as an index into the
    table of type names, and an is-array flag. */
module ExpressionTypes {

  /** The table `TypeNames`; a base kind is an index into it. */
  const TypeNames: seq<string> := ["void", "unknown", "string", "bool", "float"]

  type TypeIndex = v: int | 0 <= v < |TypeNames|

  /** `Array.IndexOf`: the first position of `name` in `names`, or -1 when it is absent. */
  function IndexOf(names: seq<string>, name: string): (i: int)
    ensures -1 <= i < |names|
    ensures i == -1 <==> name !in names
    ensures 0 <= i ==> names[i] == name && forall j :: 0 <= j < i ==> names[j] != name
  {
    if |names| == 0 then -1
    else if names[0] == name then 0
    else
      var i := IndexOf(names[1..], name);
      if i == -1 then -1 else i + 1
  }

  /** `ValFromName`. Every caller passes one of the lower-case literals of the table, so the
      `ToLower` of the source changes nothing and is not modelled. */
  function ValFromName(name: string): (v: int)
    ensures name in TypeNames ==> 0 <= v < |TypeNames| && TypeNames[v] == name
    ensures name !in TypeNames ==> v == -1
  {
    IndexOf(TypeNames, name)
  }

  function NameFromVal(v: TypeIndex): string {
    TypeNames[v]
  }

  datatype ExpressionType = ExpressionType(value: TypeIndex, isArray: bool) {

    /** The array form of this type: same base kind, array flag set. */
    function ArrayOf(): (r: ExpressionType)
      ensures r.value == value && r.isArray
    {
      ExpressionType(value, true)
    }

    /** Whether this type is the array form of the non-array type `other`. */
    predicate IsArrayOf(other: ExpressionType)
      ensures IsArrayOf(other) <==> !other.isArray && this == other.ArrayOf()
    {
      other.value == value && isArray && !other.isArray
    }

    /** The base-kind name, followed by "[]" for an array type. */
    function ToString(): (s: string)
      ensures isArray <==> |s| >= 2 && s[|s| - 2..] == "[]"
      ensures |s| >= |NameFromVal(value)| && s[..|NameFromVal(value)|] == NameFromVal(value)
      ensures |s| == |NameFromVal(value)| + (if isArray then 2 else 0)
    {
      var s := NameFromVal(value) + (if isArray then "[]" else "");
      NameEndsInLetter(value);
      assert |s| >= 2 && s[|s| - 2..] == "[]" ==> s[|s| - 1] == "[]"[1];
      s
    }
  }

  /** `operator ==`: the same base kind and the same array flag. */
  predicate Equal(left: ExpressionType, right: ExpressionType)
    ensures Equal(left, right) <==> left == right
  {
    left.value == right.value && left.isArray == right.isArray
  }

  /** `operator !=`. */
  predicate NotEqual(left: ExpressionType, right: ExpressionType)
    ensures NotEqual(left, right) <==> left != right
  {
    !Equal(left, right)
  }

  const Void: ExpressionType := ExpressionType(ValFromName("void"), false)
  const Unknown: ExpressionType := ExpressionType(ValFromName("unknown"), false)
  const String: ExpressionType := ExpressionType(ValFromName("string"), false)
  const Bool: ExpressionType := ExpressionType(ValFromName("bool"), false)
  const Float: ExpressionType := ExpressionType(ValFromName("float"), false)

  lemma NameEndsInLetter(v: TypeIndex)
    ensures |NameFromVal(v)| > 0 && NameFromVal(v)[|NameFromVal(v)| - 1] != ']'
  {
  }

  /** The names in the table are pairwise different. */
  lemma TypeNamesDistinct(i: TypeIndex, j: TypeIndex)
    requires i != j
    ensures TypeNames[i] != TypeNames[j]
  {
  }

  /** The five named types are pairwise distinct, and none of them is an array type. */
  lemma NamedTypesDistinct()
    ensures !Void.isArray && !Unknown.isArray && !String.isArray && !Bool.isArray && !Float.isArray
    ensures Void != Unknown && Void != String && Void != Bool && Void != Float
    ensures Unknown != String && Unknown != Bool && Unknown != Float
    ensures String != Bool && String != Float
    ensures Bool != Float
    ensures Void.ToString() == "void" && Unknown.ToString() == "unknown" && String.ToString() == "string"
    ensures Bool.ToString() == "bool" && Float.ToString() == "float"
  {
  }

  /** `!=` is the negation of `==`, and `==` compares both base kind and array flag. */
  lemma EqualityIsStructural(a: ExpressionType, b: ExpressionType)
    ensures Equal(a, b) <==> a.value == b.value && a.isArray == b.isArray
    ensures NotEqual(a, b) <==> !Equal(a, b)
  {
  }

  /** Nested arrays collapse: the array form of an array type is that type itself. */
  lemma ArrayOfCollapses(t: ExpressionType)
    ensures t.ArrayOf().ArrayOf() == t.ArrayOf()
    ensures t.isArray ==> t.ArrayOf() == t
  {
  }

  /** No type is the array form of itself. */
  lemma IsArrayOfIrreflexive(t: ExpressionType)
    ensures !t.IsArrayOf(t)
  {
  }

  /** `t.ArrayOf()` is the array form of `t` exactly when `t` is not already an array. */
  lemma ArrayOfIsArrayOf(t: ExpressionType)
    ensures t.ArrayOf().IsArrayOf(t) <==> !t.isArray
  {
  }

  /** Different types print differently. */
  lemma ToStringInjective(a: ExpressionType, b: ExpressionType)
    requires a.ToString() == b.ToString()
    ensures a == b
  {
  }
}
