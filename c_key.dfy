/**
 * deprecated/types/key.c: tagged `Key`s made by `createKey`, and `Keys`, a buffer of `Key *`
 * that grows by `EXPAND_CAPACITY` when full.
 */
module CKeys {
  import opened CppTypes
  import opened Memory
  import opened CHeap

  /** The tag of a key. */
  datatype KeyType = TypeInt | TypeString

  /** The union member last written; `Unset` when nothing was stored in it. */
  datatype KeyValue = Unset | IntV(intV: int32) | StringV(stringV: CString)

  /** What the `void *` argument of `createKey` points at. */
  datatype Pointee = IntAt(i: int32) | CharsAt(s: CString)

  /** A `Key *`. */
  class Key {
    var tag: KeyType
    var value: KeyValue

    constructor(tag: KeyType, value: KeyValue)
      ensures this.tag == tag && this.value == value
    {
      this.tag, this.value := tag, value;
    }
  }

  /** The `void *` points at the type the tag says it reads. */
  predicate Matches(tag: KeyType, p: Pointee) {
    match tag
      case TypeInt => p.IntAt?
      case TypeString => p.CharsAt?
  }

  /**
   * `createKey`: a fresh key with the given tag, holding a copy of the integer, or a freshly
   * allocated string with the same characters as the one given (never the given buffer itself).
   */
  method CreateKey(tag: KeyType, p: Pointee) returns (r: Key)
    requires Matches(tag, p)
    ensures fresh(r) && r.tag == tag
    ensures tag == TypeInt ==> r.value == IntV(p.i)
    ensures tag == TypeString ==> r.value.StringV? && fresh(r.value.stringV) && r.value.stringV.text == p.s.text
  {
    var value := Unset;
    match tag {
      case TypeInt => value := IntV(p.i);
      case TypeString =>
        var copy := new CString(p.s.text);
        value := StringV(copy);
    }
    r := new Key(tag, value);
  }

  /** `Keys`: `count` pointers in use out of `capacity` slots. */
  class Keys {
    var key: array?<Key?>
    var count: int
    var capacity: int

    /** The buffer is null exactly when it has no slots, and never holds more than it has room for. */
    predicate Valid()
      reads this
    {
      && 0 <= count <= capacity
      && (key == null <==> capacity == 0)
      && (key != null ==> key.Length == capacity)
    }

    /** The pointers in use, in order. */
    function Contents(): (r: seq<Key?>)
      requires Valid()
      reads this, key
      ensures |r| == count
    {
      if key == null then [] else key[..count]
    }

    /** A `Keys` declared and passed to `initKeys`. */
    constructor()
      ensures Valid() && key == null && count == 0 && capacity == 0
    {
      key, count, capacity := null, 0, 0;
    }

    /** `initKeys`: no buffer, no elements, no room. */
    method Init()
      modifies this
      ensures Valid() && key == null && count == 0 && capacity == 0 && Contents() == []
    {
      key, count, capacity := null, 0, 0;
    }

    /** `destroyKeys`: the keys and the buffer are released and the array is back to its initial state. */
    method Destroy()
      modifies this
      ensures Valid() && key == null && count == 0 && capacity == 0 && Contents() == []
    {
      Init();
    }

    /**
     * `addKey`: when full, the capacity grows by `EXPAND_CAPACITY` and the elements move to the
     * new buffer; then `k` goes in at the old count.
     */
    method AddKey(k: Key?)
      requires Valid()
      modifies this, key
      ensures Valid() && count == old(count) + 1
      ensures capacity == if old(count) + 1 > old(capacity) then ExpandCapacity(old(capacity)) else old(capacity)
      ensures Contents() == old(Contents()) + [k]
    {
      if count + 1 > capacity {
        var oldCapacity := capacity;
        capacity := ExpandCapacity(oldCapacity);
        key := Expand(key, oldCapacity, capacity);
      }
      key[count] := k;
      count := count + 1;
    }
  }
}
