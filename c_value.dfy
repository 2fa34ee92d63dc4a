/**
 * deprecated/types/value.c: tagged `Value`s, `createValue`, `equalValues`, and `Values`, a
 * buffer of `Value *` that grows by `EXPAND_CAPACITY` when full.
 */
module CValues {
  import opened CppTypes
  import opened Memory
  import opened CHeap

  /** The tag of a value. */
  datatype ValueT = Boolean | Numeral | String | Object | Pair | NoValue

  /** The union member last written; `Unset` when nothing was stored in it. */
  datatype As = Unset | AsBoolean(boolean: bool) | AsNumeral(numeral: Double) | AsString(str: CString) | AsObject(obj: Obj)

  /** The `Value` struct, copied by value into `equalValues`. */
  datatype Value = Value(tag: ValueT, payload: As)

  /** What the `void *` argument of `createValue` points at. */
  datatype Pointee = BoolAt(b: bool) | DoubleAt(d: Double) | CharsAt(s: CString) | ObjAt(o: Obj)

  /** A `Value *` returned by `createValue`. */
  class ValueBox {
    var value: Value

    constructor(value: Value)
      ensures this.value == value
    {
      this.value := value;
    }
  }

  /** The union member matches the tag, as the `*_VALUE` macros and `createValue` make it. */
  predicate WellFormed(v: Value) {
    match v.tag
      case Boolean => v.payload.AsBoolean?
      case Numeral => v.payload.AsNumeral?
      case String => v.payload.AsString?
      case Object => v.payload.AsObject?
      case _ => true
  }

  /** The `void *` points at the type the tag says it reads. */
  predicate Matches(tag: ValueT, p: Pointee) {
    match tag
      case Boolean => p.BoolAt?
      case Numeral => p.DoubleAt?
      case String => p.CharsAt?
      case Object => p.ObjAt?
      case _ => true
  }

  /**
   * `createValue`: a fresh value with the given tag. A boolean or number is copied out of the
   * pointee; a string or object is stored as the pointer itself; other tags leave the union unset.
   */
  method CreateValue(tag: ValueT, p: Pointee) returns (r: ValueBox)
    requires Matches(tag, p)
    ensures fresh(r) && r.value.tag == tag && WellFormed(r.value)
    ensures tag == Boolean ==> r.value.payload == AsBoolean(p.b)
    ensures tag == Numeral ==> r.value.payload == AsNumeral(p.d)
    ensures tag == String ==> r.value.payload.str == p.s
    ensures tag == Object ==> r.value.payload.obj == p.o
  {
    var payload := Unset;
    match tag {
      case Boolean => payload := AsBoolean(p.b);
      case String => payload := AsString(p.s);
      case Numeral => payload := AsNumeral(p.d);
      case Object => payload := AsObject(p.o);
      case _ =>
    }
    r := new ValueBox(Value(tag, payload));
  }

  /**
   * `equalValues`: values of different tags are unequal; two "none" values are equal; booleans
   * and numbers compare by value, strings by their characters, objects by address; a pair never
   * compares equal.
   */
  function EqualValues(a: Value, b: Value): (r: bool)
    requires WellFormed(a) && WellFormed(b)
    ensures a.tag != b.tag ==> !r
    ensures a.tag == b.tag == NoValue ==> r
    ensures a.tag == b.tag == String ==> (r <==> a.payload.str.text == b.payload.str.text)
    ensures a.tag == b.tag == Object ==> (r <==> a.payload.obj == b.payload.obj)
    ensures a.tag == Pair ==> !r
  {
    if a.tag != b.tag then false
    else match a.tag
      case Boolean => a.payload.boolean == b.payload.boolean
      case NoValue => true
      case Numeral => DoubleEq(a.payload.numeral, b.payload.numeral)
      case String => a.payload.str.text == b.payload.str.text
      case Object => a.payload.obj == b.payload.obj
      case _ => false
  }

  /** `equalValues` is symmetric. */
  lemma EqualValuesSymmetric(a: Value, b: Value)
    requires WellFormed(a) && WellFormed(b)
    ensures EqualValues(a, b) == EqualValues(b, a)
  {
  }

  /** Every value equals itself, except a pair and a NaN number. */
  lemma EqualValuesReflexive(a: Value)
    requires WellFormed(a) && a.tag != Pair && !(a.tag == Numeral && a.payload.numeral.NaN?)
    ensures EqualValues(a, a)
  {
  }

  /** Two different strings with the same characters are equal values; two objects are not. */
  lemma StringsByContentObjectsByAddress(s: CString, t: CString, o: Obj, q: Obj)
    requires s.text == t.text && o != q
    ensures EqualValues(Value(String, AsString(s)), Value(String, AsString(t)))
    ensures !EqualValues(Value(Object, AsObject(o)), Value(Object, AsObject(q)))
  {
  }

  /** `Values`: `count` pointers in use out of `capacity` slots. */
  class Values {
    var value: array?<ValueBox?>
    var count: int
    var capacity: int

    /** The buffer is null exactly when it has no slots, and never holds more than it has room for. */
    predicate Valid()
      reads this
    {
      && 0 <= count <= capacity
      && (value == null <==> capacity == 0)
      && (value != null ==> value.Length == capacity)
    }

    /** The pointers in use, in order. */
    function Contents(): (r: seq<ValueBox?>)
      requires Valid()
      reads this, value
      ensures |r| == count
    {
      if value == null then [] else value[..count]
    }

    /** A `Values` declared and passed to `initValues`. */
    constructor()
      ensures Valid() && value == null && count == 0 && capacity == 0
    {
      value, count, capacity := null, 0, 0;
    }

    /** `initValues`: no buffer, no elements, no room. */
    method Init()
      modifies this
      ensures Valid() && value == null && count == 0 && capacity == 0 && Contents() == []
    {
      value, count, capacity := null, 0, 0;
    }

    /** `destroyValues`: the buffer is released and the array is back to its initial state. */
    method Destroy()
      modifies this
      ensures Valid() && value == null && count == 0 && capacity == 0 && Contents() == []
    {
      Init();
    }

    /**
     * `addValue`: when full, the capacity grows by `EXPAND_CAPACITY` and the elements move to the
     * new buffer; then `val` goes in at the old count.
     */
    method AddValue(val: ValueBox?)
      requires Valid()
      modifies this, value
      ensures Valid() && count == old(count) + 1
      ensures capacity == if old(capacity) < old(count) + 1 then ExpandCapacity(old(capacity)) else old(capacity)
      ensures Contents() == old(Contents()) + [val]
    {
      if capacity < count + 1 {
        var currentLimit := capacity;
        capacity := ExpandCapacity(currentLimit);
        value := Expand(value, currentLimit, capacity);
      }
      value[count] := val;
      count := count + 1;
    }
  }
}
