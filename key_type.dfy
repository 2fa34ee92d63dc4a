/**
 * The key variant held by `Key` in key.cpp and heirarchy/key.cpp: an `int`, a `char` or a
 * `std::string`. Its `std::variant` order, which keytree.cpp and the key sets of setmap.cpp
 * rely on, compares the alternative first and then the held value.
 */
module Keys {
  import opened CppTypes

  /** The alternatives in the order int, char, string. */
  datatype KeyType = IntKey(i: int32) | CharKey(c: int8) | StringKey(s: string)

  function Index(k: KeyType): (r: nat)
    ensures r < 3
  {
    match k
      case IntKey(_) => 0
      case CharKey(_) => 1
      case StringKey(_) => 2
  }

  /** `std::variant`'s `<`: the earlier alternative first, then the held values. */
  predicate Less(a: KeyType, b: KeyType) {
    if Index(a) != Index(b) then Index(a) < Index(b)
    else match (a, b)
      case (IntKey(x), IntKey(y)) => x < y
      case (CharKey(x), CharKey(y)) => x < y
      case (StringKey(x), StringKey(y)) => StringLt(x, y)
      case _ => false
  }

  lemma LessIrreflexive(a: KeyType)
    ensures !Less(a, a)
  {
    if a.StringKey? {
      StringLtIrreflexive(a.s);
    }
  }

  /** Two different keys are ordered one way or the other: `<` in neither direction means equal. */
  lemma LessTotal(a: KeyType, b: KeyType)
    requires a != b
    ensures Less(a, b) || Less(b, a)
  {
    if a.StringKey? && b.StringKey? {
      StringLtTotal(a.s, b.s);
    }
  }

  lemma LessAsymmetric(a: KeyType, b: KeyType)
    requires Less(a, b)
    ensures !Less(b, a)
  {
    if a.StringKey? && b.StringKey? {
      StringLtAsymmetric(a.s, b.s);
    }
  }

  lemma LessTransitive(a: KeyType, b: KeyType, c: KeyType)
    requires Less(a, b) && Less(b, c)
    ensures Less(a, c)
  {
    if a.StringKey? && b.StringKey? && c.StringKey? {
      StringLtTransitive(a.s, b.s, c.s);
    }
  }
}
