/**
 * networknode.cpp: a `NetworkNode` holds a key, a vector of values and a set of outgoing
 * connections, and updates the vector and the set in place.
 */
module NetworkNodes {
  import opened Keys
  import opened ValueTypes
  import opened ValueCpp

  /** The target end of a connection; the set of connections holds these by address. */
  class Connector {
    var to: NetworkNode?

    constructor(to: NetworkNode?)
      ensures this.to == to
    {
      this.to := to;
    }
  }

  /** The first position whose value compares equal to `v` under `std::variant`'s `==`, or -1. */
  function FirstEqual(values: seq<Value>, v: ValueType): (r: int)
    ensures -1 <= r < |values|
    ensures r == -1 <==> forall i :: 0 <= i < |values| ==> !Equal(values[i].v, v)
    ensures r != -1 ==> Equal(values[r].v, v) && forall i :: 0 <= i < r ==> !Equal(values[i].v, v)
  {
    if values == [] then -1
    else if Equal(values[0].v, v) then 0
    else var r := FirstEqual(values[1..], v); if r == -1 then -1 else r + 1
  }

  class NetworkNode {
    var key: KeyType
    var values: seq<Value>
    var connections: set<Connector>

    /** `NetworkNode(key)`: the key alone. */
    constructor(key: KeyType)
      ensures this.key == key && values == [] && connections == {}
    {
      this.key := key;
      values := [];
      connections := {};
    }

    /** `NetworkNode(key, value)`: the key and one value. */
    constructor WithValue(key: KeyType, value: ValueType)
      ensures this.key == key && values == [Value(value)] && connections == {}
    {
      this.key := key;
      values := [Value(value)];
      connections := {};
    }

    /** `addValue`: the value is wrapped and appended; the earlier values stay as they were. */
    method AddValue(value: ValueType)
      modifies this`values
      ensures values == old(values) + [Value(value)]
    {
      values := values + [Value(value)];
    }

    /** `deleteValue`: the value at `index` goes, and the later ones move down by one. */
    method DeleteValue(index: int)
      requires 0 <= index < |values|
      modifies this`values
      ensures |values| == |old(values)| - 1
      ensures values[..index] == old(values)[..index]
      ensures forall i :: index <= i < |values| ==> values[i] == old(values)[i + 1]
    {
      values := values[..index] + values[index + 1..];
    }

    /** `getIndex(Value)`: the position `std::find` stops at, or -1 when no value is equal. */
    method GetIndex(value: Value) returns (r: int)
      ensures r == FirstEqual(values, value.v)
    {
      var i := 0;
      while i < |values|
        invariant 0 <= i <= |values|
        invariant forall j :: 0 <= j < i ==> !Equal(values[j].v, value.v)
      {
        if Equal(values[i].v, value.v) {
          return i;
        }
        i := i + 1;
      }
      return -1;
    }

    /** `getIndex(ValueType)`: the same search, comparing each held variant with `value`. */
    method GetIndexOfVariant(value: ValueType) returns (r: int)
      ensures r == FirstEqual(values, value)
    {
      var i := 0;
      while i < |values|
        invariant 0 <= i <= |values|
        invariant forall j :: 0 <= j < i ==> !Equal(ValueOf(values[j]), value)
      {
        if Equal(ValueOf(values[i]), value) {
          return i;
        }
        i := i + 1;
      }
      return -1;
    }

    /** `addConnection`: set insertion, so adding a connection already there changes nothing. */
    method AddConnection(node: Connector)
      modifies this`connections
      ensures connections == old(connections) + {node}
      ensures node in old(connections) ==> connections == old(connections)
    {
      connections := connections + {node};
    }

    /** `removeConnection`: set erasure, so removing one that is absent changes nothing. */
    method RemoveConnection(node: Connector)
      modifies this`connections
      ensures connections == old(connections) - {node}
      ensures node !in old(connections) ==> connections == old(connections)
    {
      connections := connections - {node};
    }
  }

  /** A value holding NaN is never found, not even when it is stored. */
  lemma NaNNotFound(values: seq<Value>)
    ensures FirstEqual(values + [Value(DoubleValue(CppTypes.NaN))], DoubleValue(CppTypes.NaN)) == -1
  {
    var s := values + [Value(DoubleValue(CppTypes.NaN))];
    forall i | 0 <= i < |s|
      ensures !Equal(s[i].v, DoubleValue(CppTypes.NaN))
    {
    }
  }

  /** Without NaN, a value just appended is found, at its first occurrence. */
  lemma {:induction false} AppendedFound(values: seq<Value>, v: ValueType)
    requires !IsNaN(v)
    ensures 0 <= FirstEqual(values + [Value(v)], v) <= |values|
  {
    var s := values + [Value(v)];
    assert s[|values|] == Value(v);
    EqualIsIdentity(v, v);
  }
}
