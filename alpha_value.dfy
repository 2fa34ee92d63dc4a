/**
 * alpha/heirarchy/value.cpp: `Value` with its type predicates, `type`, `isSameType` and the six
 * comparison operators. Each operator throws a type error unless `isSameType` holds; since
 * `isSameType` compares the `typeid` of two members of the same static type `ValueType`, it
 * always holds, and every operator is the `std::variant` operator on the two held variants.
 */
module AlphaValue {
  import opened Wrappers
  import opened CppTypes
  import opened ValueTypes

  datatype Value = Value(v: ValueType)

  /** The `std::invalid_argument` an operator throws, with its message. */
  datatype TypeError = TypeError(message: string)

  predicate IsBool(val: Value) {
    val.v.BoolValue?
  }

  predicate IsInt(val: Value) {
    val.v.IntValue?
  }

  predicate IsDouble(val: Value) {
    val.v.DoubleValue?
  }

  predicate IsChar(val: Value) {
    val.v.CharValue?
  }

  predicate IsString(val: Value) {
    val.v.StringValue?
  }

  /** Exactly one of the five predicates holds for every value. */
  lemma ExactlyOne(val: Value)
    ensures (if IsBool(val) then 1 else 0) + (if IsInt(val) then 1 else 0) + (if IsDouble(val) then 1 else 0)
      + (if IsChar(val) then 1 else 0) + (if IsString(val) then 1 else 0) == 1
  {
  }

  /** `type`: "bool", "int", "double", "char" or "string" by the held alternative. */
  function Type(val: Value): (r: string)
    ensures r == "bool" <==> IsBool(val)
    ensures r == "int" <==> IsInt(val)
    ensures r == "double" <==> IsDouble(val)
    ensures r == "char" <==> IsChar(val)
    ensures r == "string" <==> IsString(val)
  {
    if IsBool(val) then "bool"
    else if IsInt(val) then "int"
    else if IsDouble(val) then "double"
    else if IsChar(val) then "char"
    else if IsString(val) then "string"
    else "void"
  }

  /** `value`: the stored variant, unchanged. */
  function ValueOf(val: Value): (r: ValueType)
    ensures Value(r) == val
  {
    val.v
  }

  /**
   * `isSameType`: `typeid` of a member names its static type, `ValueType` on both sides, so the
   * answer is true for every pair, even of different alternatives.
   */
  function IsSameType(lhs: Value, rhs: Value): (r: bool)
    ensures r
  {
    true
  }

  function Mismatch(op: string): TypeError {
    TypeError("Value Type Error [\"" + op + "\"]: Cannot compare values of different types")
  }

  /** `==`: never throws; true exactly for the same alternative holding the same value, but not NaN. */
  function Eq(lhs: Value, rhs: Value): (r: Result<bool, TypeError>)
    ensures r.Ok? && (r.value <==> lhs == rhs && !IsNaN(lhs.v))
  {
    EqualIsIdentity(lhs.v, rhs.v);
    if IsSameType(lhs, rhs) then Ok(Equal(lhs.v, rhs.v)) else Err(Mismatch("=="))
  }

  /** `!=`: never throws, and is the negation of `==`. */
  function Ne(lhs: Value, rhs: Value): (r: Result<bool, TypeError>)
    ensures r.Ok? && (r.value <==> !Eq(lhs, rhs).value)
  {
    NotEqualNegates(lhs.v, rhs.v);
    if IsSameType(lhs, rhs) then Ok(NotEqual(lhs.v, rhs.v)) else Err(Mismatch("!="))
  }

  /**
   * `<`: never throws; an earlier alternative is less, a later one is not, and within one
   * alternative the held values compare.
   */
  function Lt(lhs: Value, rhs: Value): (r: Result<bool, TypeError>)
    ensures r.Ok?
    ensures Index(lhs.v) < Index(rhs.v) ==> r.value
    ensures Index(lhs.v) > Index(rhs.v) ==> !r.value
    ensures Index(lhs.v) == Index(rhs.v) ==> (r.value <==> HeldLt(lhs.v, rhs.v))
  {
    if IsSameType(lhs, rhs) then Ok(Less(lhs.v, rhs.v)) else Err(Mismatch("<"))
  }

  /** `>`: never throws; `a > b` is `b < a`. */
  function Gt(lhs: Value, rhs: Value): (r: Result<bool, TypeError>)
    ensures r.Ok? && r.value == Lt(rhs, lhs).value
  {
    if IsSameType(lhs, rhs) then Ok(Greater(lhs.v, rhs.v)) else Err(Mismatch(">"))
  }

  /**
   * `<=`: never throws; an earlier alternative is less or equal, a later one is not, and within
   * one alternative the held values compare.
   */
  function Le(lhs: Value, rhs: Value): (r: Result<bool, TypeError>)
    ensures r.Ok?
    ensures Index(lhs.v) < Index(rhs.v) ==> r.value
    ensures Index(lhs.v) > Index(rhs.v) ==> !r.value
    ensures Index(lhs.v) == Index(rhs.v) ==> (r.value <==> HeldLe(lhs.v, rhs.v))
  {
    if IsSameType(lhs, rhs) then Ok(LessEq(lhs.v, rhs.v)) else Err(Mismatch("<="))
  }

  /** `>=`: never throws; `a >= b` is `b <= a`. */
  function Ge(lhs: Value, rhs: Value): (r: Result<bool, TypeError>)
    ensures r.Ok? && r.value == Le(rhs, lhs).value
  {
    if IsSameType(lhs, rhs) then Ok(GreaterEq(lhs.v, rhs.v)) else Err(Mismatch(">="))
  }

  /** Values of different alternatives are unequal, so the "different types" throw is unreachable. */
  lemma DifferentTypesUnequal(lhs: Value, rhs: Value)
    requires Type(lhs) != Type(rhs)
    ensures Eq(lhs, rhs) == Ok(false) && Ne(lhs, rhs) == Ok(true)
  {
  }

  /** Without NaN, `>=` is the negation of `<` and `<=` the negation of `>`. */
  lemma {:induction false} OrderNegates(lhs: Value, rhs: Value)
    requires !IsNaN(lhs.v) && !IsNaN(rhs.v)
    ensures Ge(lhs, rhs).value <==> !Lt(lhs, rhs).value
    ensures Le(lhs, rhs).value <==> !Gt(lhs, rhs).value
  {
    OrderTotal(lhs.v, rhs.v);
  }

  /** With NaN it is not: NaN is neither `<` nor `>=` a number. */
  lemma NaNBreaksOrder(x: real)
    ensures var nan, num := Value(DoubleValue(NaN)), Value(DoubleValue(Number(x)));
      !Lt(nan, num).value && !Ge(nan, num).value && !Eq(nan, nan).value
  {
    NaNUnordered(x);
  }
}
