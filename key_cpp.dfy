/** key.cpp: the type predicates of `Key` and the type it reports for the held alternative. */
module KeyCpp {
  import opened CppTypes
  import opened Keys

  predicate IsInt(k: KeyType) {
    k.IntKey?
  }

  predicate IsChar(k: KeyType) {
    k.CharKey?
  }

  predicate IsString(k: KeyType) {
    k.StringKey?
  }

  /** Exactly one of the three predicates holds for every key. */
  lemma ExactlyOne(k: KeyType)
    ensures (if IsInt(k) then 1 else 0) + (if IsChar(k) then 1 else 0) + (if IsString(k) then 1 else 0) == 1
  {
  }

  /** `getType`: the `typeid` of the held alternative, tested string, int, char, else `void`. */
  function GetType(k: KeyType): (r: TypeId)
    ensures r == StringType <==> IsString(k)
    ensures r == IntType <==> IsInt(k)
    ensures r == CharType <==> IsChar(k)
  {
    if IsString(k) then StringType
    else if IsInt(k) then IntType
    else if IsChar(k) then CharType
    else VoidType
  }

  /** `getTypeName`: "string", "int" or "char" by the held alternative, else "void". */
  function GetTypeName(k: KeyType): (r: string)
    ensures r == "string" <==> IsString(k)
    ensures r == "int" <==> IsInt(k)
    ensures r == "char" <==> IsChar(k)
  {
    if IsString(k) then "string"
    else if IsInt(k) then "int"
    else if IsChar(k) then "char"
    else "void"
  }

  /** `getType` and `getTypeName` name the same type. */
  lemma TypeNameAgrees(k: KeyType)
    ensures GetTypeName(k) == TypeName(GetType(k))
  {
  }

  /** `getValue`: the stored variant itself. */
  function GetValue(k: KeyType): (r: KeyType)
    ensures GetType(r) == GetType(k) && r == k
  {
    k
  }
}
