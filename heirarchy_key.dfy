/** heirarchy/key.cpp: the same predicates of `Key`, with `type_info`, `type` and `value` as the names. */
module HeirarchyKey {
  import opened CppTypes
  import opened Keys

  predicate IsInt(k: KeyType) {
    k.IntKey?
  }

  predicate IsChar(k: KeyType) {
    k.CharKey?
  }

  predicate IsString(k: KeyType) {
    k.StringKey?
  }

  /** Exactly one of the three predicates holds for every key. */
  lemma ExactlyOne(k: KeyType)
    ensures (if IsInt(k) then 1 else 0) + (if IsChar(k) then 1 else 0) + (if IsString(k) then 1 else 0) == 1
  {
  }

  /** `type_info`: the `typeid` of the held alternative, tested string, int, char, else `void`. */
  function TypeInfo(k: KeyType): (r: TypeId)
    ensures r == StringType <==> IsString(k)
    ensures r == IntType <==> IsInt(k)
    ensures r == CharType <==> IsChar(k)
  {
    if IsString(k) then StringType
    else if IsInt(k) then IntType
    else if IsChar(k) then CharType
    else VoidType
  }

  /** `type`: "string", "int" or "char" by the held alternative, else "void". */
  function Type(k: KeyType): (r: string)
    ensures r == "string" <==> IsString(k)
    ensures r == "int" <==> IsInt(k)
    ensures r == "char" <==> IsChar(k)
  {
    if IsString(k) then "string"
    else if IsInt(k) then "int"
    else if IsChar(k) then "char"
    else "void"
  }

  /** `type_info` and `type` name the same type. */
  lemma TypeNameAgrees(k: KeyType)
    ensures Type(k) == TypeName(TypeInfo(k))
  {
  }

  /** `value`: the stored variant itself. */
  function Value(k: KeyType): (r: KeyType)
    ensures TypeInfo(r) == TypeInfo(k) && r == k
  {
    k
  }
}
