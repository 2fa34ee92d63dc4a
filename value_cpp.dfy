/** value.cpp: `Value`, a wrapper around `ValueType`, with its type predicates and type names. */
module ValueCpp {
  import opened CppTypes
  import opened ValueTypes

  /** The constructor stores the given alternative as it is. */
  datatype Value = Value(v: ValueType)

  predicate IsBool(val: Value) {
    val.v.BoolValue?
  }

  predicate IsInt(val: Value) {
    val.v.IntValue?
  }

  predicate IsDouble(val: Value) {
    val.v.DoubleValue?
  }

  predicate IsChar(val: Value) {
    val.v.CharValue?
  }

  predicate IsString(val: Value) {
    val.v.StringValue?
  }

  /** Exactly one of the five predicates holds for every value. */
  lemma ExactlyOne(val: Value)
    ensures (if IsBool(val) then 1 else 0) + (if IsInt(val) then 1 else 0) + (if IsDouble(val) then 1 else 0)
      + (if IsChar(val) then 1 else 0) + (if IsString(val) then 1 else 0) == 1
  {
  }

  /** `type_info`: the `typeid` of the held alternative. */
  function TypeInfo(val: Value): (r: TypeId)
    ensures r == BoolType <==> IsBool(val)
    ensures r == IntType <==> IsInt(val)
    ensures r == DoubleType <==> IsDouble(val)
    ensures r == CharType <==> IsChar(val)
    ensures r == StringType <==> IsString(val)
  {
    if IsBool(val) then BoolType
    else if IsInt(val) then IntType
    else if IsDouble(val) then DoubleType
    else if IsChar(val) then CharType
    else if IsString(val) then StringType
    else VoidType
  }

  /** `type`: the name of the held alternative. */
  function Type(val: Value): (r: string)
    ensures r == "bool" <==> IsBool(val)
    ensures r == "int" <==> IsInt(val)
    ensures r == "double" <==> IsDouble(val)
    ensures r == "char" <==> IsChar(val)
    ensures r == "string" <==> IsString(val)
  {
    if IsBool(val) then "bool"
    else if IsInt(val) then "int"
    else if IsDouble(val) then "double"
    else if IsChar(val) then "char"
    else if IsString(val) then "string"
    else "void"
  }

  /** `type_info` and `type` name the same alternative. */
  lemma TypeInfoAgrees(val: Value)
    ensures Type(val) == TypeName(TypeInfo(val))
  {
  }

  /** `value`: the stored variant, unchanged. */
  function ValueOf(val: Value): (r: ValueType)
    ensures Value(r) == val
  {
    val.v
  }
}
