/**
 * alpha/deprecated/types/memory.h: the growth rule `EXPAND_CAPACITY` of the C buffers, and
 * `EXPAND`, the `realloc` that gives a buffer its new size and keeps what fits of the old one.
 */
module Memory {
  /** `EXPAND_CAPACITY`: 8 slots for a small buffer, double the slots otherwise. */
  function ExpandCapacity(capacity: int): (r: int)
    ensures r >= 8
    ensures capacity < 8 ==> r == 8
    ensures capacity >= 8 ==> r == 2 * capacity
  {
    if capacity < 8 then 8 else capacity * 2
  }

  /** The new capacity always has room for at least one more element. */
  lemma ExpandGrows(capacity: int)
    requires capacity >= 0
    ensures ExpandCapacity(capacity) > capacity
  {
  }

  /** A larger capacity never grows into a smaller one. */
  lemma ExpandMonotone(a: int, b: int)
    requires a <= b
    ensures ExpandCapacity(a) <= ExpandCapacity(b)
  {
  }

  /**
   * `EXPAND`: a fresh buffer of `newCount` slots holding the first `oldCount` elements of the old
   * one (those that fit); a null pointer with no elements is allocated from nothing.
   */
  method Expand<T(0)>(pointer: array?<T>, oldCount: nat, newCount: nat) returns (r: array<T>)
    requires pointer == null ==> oldCount == 0
    requires pointer != null ==> oldCount <= pointer.Length
    ensures fresh(r) && r.Length == newCount
    ensures pointer != null ==> forall i :: 0 <= i < oldCount && i < newCount ==> r[i] == pointer[i]
  {
    r := new T[newCount];
    if pointer != null {
      var i := 0;
      while i < oldCount && i < newCount
        invariant 0 <= i <= oldCount && i <= newCount
        invariant forall j :: 0 <= j < i ==> r[j] == pointer[j]
      {
        r[i] := pointer[i];
        i := i + 1;
      }
    }
  }
}
