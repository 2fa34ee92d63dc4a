/**
 * `ValueType`, the `std::variant<bool, int, double, char, std::string>` that value.cpp and
 * alpha/heirarchy/value.cpp wrap, with the comparison operators `std::variant` defines: the
 * alternative index decides first, and only values of the same alternative compare by value.
 */
module ValueTypes {
  import opened CppTypes

  datatype ValueType =
    | BoolValue(b: bool)
    | IntValue(i: int32)
    | DoubleValue(d: Double)
    | CharValue(c: int8)
    | StringValue(s: string)

  /** The alternative's position in the variant's type list. */
  function Index(v: ValueType): (r: nat)
    ensures r < 5
  {
    match v
      case BoolValue(_) => 0
      case IntValue(_) => 1
      case DoubleValue(_) => 2
      case CharValue(_) => 3
      case StringValue(_) => 4
  }

  /** The variant holds a NaN. */
  predicate IsNaN(v: ValueType) {
    v.DoubleValue? && v.d.NaN?
  }

  /** `==`: the same alternative, holding values that compare equal. */
  predicate Equal(a: ValueType, b: ValueType) {
    match (a, b)
      case (BoolValue(x), BoolValue(y)) => x == y
      case (IntValue(x), IntValue(y)) => x == y
      case (DoubleValue(x), DoubleValue(y)) => DoubleEq(x, y)
      case (CharValue(x), CharValue(y)) => x == y
      case (StringValue(x), StringValue(y)) => x == y
      case _ => false
  }

  /** `!=`: different alternatives, or held values that compare unequal. */
  predicate NotEqual(a: ValueType, b: ValueType) {
    match (a, b)
      case (BoolValue(x), BoolValue(y)) => x != y
      case (IntValue(x), IntValue(y)) => x != y
      case (DoubleValue(x), DoubleValue(y)) => !DoubleEq(x, y)
      case (CharValue(x), CharValue(y)) => x != y
      case (StringValue(x), StringValue(y)) => x != y
      case _ => true
  }

  /** `<` on the held values of one alternative. */
  predicate HeldLt(a: ValueType, b: ValueType) {
    match (a, b)
      case (BoolValue(x), BoolValue(y)) => BoolLt(x, y)
      case (IntValue(x), IntValue(y)) => x < y
      case (DoubleValue(x), DoubleValue(y)) => DoubleLt(x, y)
      case (CharValue(x), CharValue(y)) => x < y
      case (StringValue(x), StringValue(y)) => StringLt(x, y)
      case _ => false
  }

  /** `<=` on the held values of one alternative. */
  predicate HeldLe(a: ValueType, b: ValueType) {
    match (a, b)
      case (BoolValue(x), BoolValue(y)) => !BoolLt(y, x)
      case (IntValue(x), IntValue(y)) => x <= y
      case (DoubleValue(x), DoubleValue(y)) => DoubleLe(x, y)
      case (CharValue(x), CharValue(y)) => x <= y
      case (StringValue(x), StringValue(y)) => !StringLt(y, x)
      case _ => false
  }

  predicate Less(a: ValueType, b: ValueType) {
    if Index(a) != Index(b) then Index(a) < Index(b) else HeldLt(a, b)
  }

  predicate Greater(a: ValueType, b: ValueType) {
    if Index(a) != Index(b) then Index(a) > Index(b) else HeldLt(b, a)
  }

  predicate LessEq(a: ValueType, b: ValueType) {
    if Index(a) != Index(b) then Index(a) < Index(b) else HeldLe(a, b)
  }

  predicate GreaterEq(a: ValueType, b: ValueType) {
    if Index(a) != Index(b) then Index(a) > Index(b) else HeldLe(b, a)
  }

  /** `==` on variants is the model's equality, except that a NaN equals nothing. */
  lemma EqualIsIdentity(a: ValueType, b: ValueType)
    ensures Equal(a, b) <==> a == b && !IsNaN(a)
  {
  }

  /** `!=` is the negation of `==` for every pair, NaN included. */
  lemma NotEqualNegates(a: ValueType, b: ValueType)
    ensures NotEqual(a, b) <==> !Equal(a, b)
  {
  }

  /** Without NaN the order is total: `>=` is the negation of `<`, and `<=` of `>`. */
  lemma {:induction false} OrderTotal(a: ValueType, b: ValueType)
    requires !IsNaN(a) && !IsNaN(b)
    ensures GreaterEq(a, b) <==> !Less(a, b)
    ensures LessEq(a, b) <==> !Greater(a, b)
  {
    if a.StringValue? && b.StringValue? && a.s != b.s {
      StringLtTotal(a.s, b.s);
      if StringLt(a.s, b.s) {
        StringLtAsymmetric(a.s, b.s);
      } else {
        StringLtAsymmetric(b.s, a.s);
      }
    } else if a.StringValue? && b.StringValue? {
      StringLtIrreflexive(a.s);
    }
  }

  /** With a NaN, `<` and `>=` are both false, so `>=` is not the negation of `<`. */
  lemma NaNUnordered(x: real)
    ensures var a, b := DoubleValue(NaN), DoubleValue(Number(x));
      !Less(a, b) && !GreaterEq(a, b) && !Equal(a, a) && NotEqual(a, a)
  {
  }
}
