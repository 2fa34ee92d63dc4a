/**
 * The C++ scalar types the key and value variants hold: 32-bit `int`, signed `char`, IEEE-754 `double`
 * (as an ordered number or NaN), and `std::string` with its lexicographic order.
 */
module CppTypes {
  newtype int32 = x: int | -0x8000_0000 <= x < 0x8000_0000

  /**
   * A C++ `char`: a signed byte, as on the x86-64 targets of GCC and Clang, so a byte of 0x80
   * or above is negative and orders before every ASCII character.
   */
  newtype int8 = x: int | -0x80 <= x < 0x80

  /** An ASCII character as a `char` literal holds it. */
  function Char(c: char): int8
    requires c as int < 0x80
  {
    c as int as int8
  }

  /** A `double`: an ordinary number or NaN. Rounding and the infinities are not modelled. */
  datatype Double = Number(x: real) | NaN

  /** IEEE-754 `==`: false whenever either side is NaN. */
  predicate DoubleEq(a: Double, b: Double) {
    a.Number? && b.Number? && a.x == b.x
  }

  /** IEEE-754 `<`. */
  predicate DoubleLt(a: Double, b: Double) {
    a.Number? && b.Number? && a.x < b.x
  }

  /** IEEE-754 `<=`. */
  predicate DoubleLe(a: Double, b: Double) {
    a.Number? && b.Number? && a.x <= b.x
  }

  /** `bool`'s order: false before true. */
  predicate BoolLt(a: bool, b: bool) {
    !a && b
  }

  /**
   * `std::string`'s `<`: lexicographic, a proper prefix first. `char_traits<char>` compares the
   * bytes as unsigned, and on UTF-8 text that is the order of the code points compared here.
   */
  predicate StringLt(a: string, b: string)
    decreases |a|
  {
    if a == [] then b != []
    else b != [] && (a[0] < b[0] || (a[0] == b[0] && StringLt(a[1..], b[1..])))
  }

  lemma {:induction false} StringLtIrreflexive(a: string)
    ensures !StringLt(a, a)
    decreases |a|
  {
    if a != [] {
      StringLtIrreflexive(a[1..]);
    }
  }

  /** Two different strings are ordered one way or the other. */
  lemma {:induction false} StringLtTotal(a: string, b: string)
    requires a != b
    ensures StringLt(a, b) || StringLt(b, a)
    decreases |a|
  {
    if a != [] && b != [] && a[0] == b[0] {
      assert a == [a[0]] + a[1..] && b == [b[0]] + b[1..];
      StringLtTotal(a[1..], b[1..]);
    }
  }

  lemma {:induction false} StringLtAsymmetric(a: string, b: string)
    requires StringLt(a, b)
    ensures !StringLt(b, a)
    decreases |a|
  {
    if a != [] && a[0] == b[0] {
      StringLtAsymmetric(a[1..], b[1..]);
    }
  }

  lemma {:induction false} StringLtTransitive(a: string, b: string, c: string)
    requires StringLt(a, b) && StringLt(b, c)
    ensures StringLt(a, c)
    decreases |a|
  {
    if a != [] && a[0] == b[0] && b[0] == c[0] {
      StringLtTransitive(a[1..], b[1..], c[1..]);
    }
  }

  /** What `typeid(...)` can name here. */
  datatype TypeId = BoolType | IntType | DoubleType | CharType | StringType | VoidType

  /** The name the sources print for each type. */
  function TypeName(t: TypeId): (r: string)
    ensures r != []
  {
    match t
      case BoolType => "bool"
      case IntType => "int"
      case DoubleType => "double"
      case CharType => "char"
      case StringType => "string"
      case VoidType => "void"
  }

  /** Different types have different names. */
  lemma TypeNameInjective(s: TypeId, t: TypeId)
    requires TypeName(s) == TypeName(t)
    ensures s == t
  {
  }
}
