/**
 * heirarchy/networknode.cpp: the same node with a default constructor and `getKeyType`; its
 * values are the `Value`s of alpha/heirarchy/value.cpp, whose `==` `std::find` uses.
 */
module HeirarchyNetworkNodes {
  import opened CppTypes
  import opened Keys
  import opened ValueTypes
  import AlphaValue
  import HeirarchyKey

  /** The target end of a connection; the set of connections holds these by address. */
  class Connector {
    var to: NetworkNode?

    constructor(to: NetworkNode?)
      ensures this.to == to
    {
      this.to := to;
    }
  }

  /** The first position whose value is `==` to `v` under the `Value` operator, or -1. */
  function FirstEqual(values: seq<AlphaValue.Value>, v: AlphaValue.Value): (r: int)
    ensures -1 <= r < |values|
    ensures r == -1 <==> forall i :: 0 <= i < |values| ==> !AlphaValue.Eq(values[i], v).value
    ensures r != -1 ==> AlphaValue.Eq(values[r], v).value && forall i :: 0 <= i < r ==> !AlphaValue.Eq(values[i], v).value
  {
    if values == [] then -1
    else if AlphaValue.Eq(values[0], v).value then 0
    else var r := FirstEqual(values[1..], v); if r == -1 then -1 else r + 1
  }

  class NetworkNode {
    var key: KeyType
    var values: seq<AlphaValue.Value>
    var connections: set<Connector>

    /** The default constructor: key `NULL` (the integer 0), no values, no connections. */
    constructor()
      ensures key == IntKey(0) && values == [] && connections == {}
    {
      key := IntKey(0);
      values := [];
      connections := {};
    }

    /** `getKeyType`: the key's own `type()`. */
    function GetKeyType(): (r: string)
      reads this
      ensures r == HeirarchyKey.Type(key)
      ensures r == "int" <==> key.IntKey?
    {
      HeirarchyKey.Type(key)
    }

    /** `addValue`: the value is wrapped and appended; the earlier values stay as they were. */
    method AddValue(value: ValueType)
      modifies this`values
      ensures values == old(values) + [AlphaValue.Value(value)]
    {
      values := values + [AlphaValue.Value(value)];
    }

    /** `deleteValue`: the value at `index` goes, and the later ones move down by one. */
    method DeleteValue(index: int)
      requires 0 <= index < |values|
      modifies this`values
      ensures |values| == |old(values)| - 1
      ensures values[..index] == old(values)[..index]
      ensures forall i :: index <= i < |values| ==> values[i] == old(values)[i + 1]
    {
      values := values[..index] + values[index + 1..];
    }

    /** `getIndex(Value)`: the position `std::find` stops at, or -1 when no value is equal. */
    method GetIndex(value: AlphaValue.Value) returns (r: int)
      ensures r == FirstEqual(values, value)
    {
      var i := 0;
      while i < |values|
        invariant 0 <= i <= |values|
        invariant forall j :: 0 <= j < i ==> !AlphaValue.Eq(values[j], value).value
      {
        var equal := AlphaValue.Eq(values[i], value);
        if equal.value {
          return i;
        }
        i := i + 1;
      }
      return -1;
    }

    /** `getIndex(ValueType)`: the same search, comparing each held variant with `value`. */
    method GetIndexOfVariant(value: ValueType) returns (r: int)
      ensures r == FirstEqual(values, AlphaValue.Value(value))
    {
      var i := 0;
      while i < |values|
        invariant 0 <= i <= |values|
        invariant forall j :: 0 <= j < i ==> !AlphaValue.Eq(values[j], AlphaValue.Value(value)).value
      {
        EqualIsIdentity(AlphaValue.ValueOf(values[i]), value);
        if Equal(AlphaValue.ValueOf(values[i]), value) {
          return i;
        }
        i := i + 1;
      }
      return -1;
    }

    /** `addConnection`: set insertion, so adding a connection already there changes nothing. */
    method AddConnection(node: Connector)
      modifies this`connections
      ensures connections == old(connections) + {node}
      ensures node in old(connections) ==> connections == old(connections)
    {
      connections := connections + {node};
    }

    /** `removeConnection`: set erasure, so removing one that is absent changes nothing. */
    method RemoveConnection(node: Connector)
      modifies this`connections
      ensures connections == old(connections) - {node}
      ensures node !in old(connections) ==> connections == old(connections)
    {
      connections := connections - {node};
    }
  }

  /** Both searches agree: comparing with a `Value` or with the variant it holds. */
  lemma {:induction false} SearchesAgree(values: seq<AlphaValue.Value>, v: ValueType)
    ensures FirstEqual(values, AlphaValue.Value(v)) == -1 <==>
      forall i :: 0 <= i < |values| ==> !Equal(values[i].v, v)
  {
    forall i | 0 <= i < |values|
      ensures AlphaValue.Eq(values[i], AlphaValue.Value(v)).value == Equal(values[i].v, v)
    {
      EqualIsIdentity(values[i].v, v);
    }
  }
}
