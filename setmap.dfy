/**
 * setmap.cpp: `SetMap`, a `std::map` from sets of keys to vectors of values, updated in place
 * and read by position in the map's order. A `std::set` of keys is held as its strictly
 * increasing sequence of elements, and the map as its strictly increasing sequence of entries,
 * ordered as `std::map` orders sets: lexicographically, element by element.
 */
module SetMaps {
  import opened Wrappers
  import opened Keys
  import opened ValueCpp

  /** A set of keys in iteration order: strictly increasing. */
  predicate Increasing(s: seq<KeyType>) {
    forall i, j :: 0 <= i < j < |s| ==> Less(s[i], s[j])
  }

  /** `std::set`'s `<`: lexicographic on the elements, a proper prefix first. */
  predicate SetLess(a: seq<KeyType>, b: seq<KeyType>)
    decreases |a|
  {
    if a == [] then b != []
    else b != [] && (Less(a[0], b[0]) || (a[0] == b[0] && SetLess(a[1..], b[1..])))
  }

  lemma {:induction false} SetLessIrreflexive(a: seq<KeyType>)
    ensures !SetLess(a, a)
    decreases |a|
  {
    if a != [] {
      LessIrreflexive(a[0]);
      SetLessIrreflexive(a[1..]);
    }
  }

  lemma {:induction false} SetLessTotal(a: seq<KeyType>, b: seq<KeyType>)
    requires a != b
    ensures SetLess(a, b) || SetLess(b, a)
    decreases |a|
  {
    if a != [] && b != [] {
      if a[0] == b[0] {
        assert a == [a[0]] + a[1..] && b == [b[0]] + b[1..];
        SetLessTotal(a[1..], b[1..]);
      } else {
        LessTotal(a[0], b[0]);
      }
    }
  }

  lemma {:induction false} SetLessTransitive(a: seq<KeyType>, b: seq<KeyType>, c: seq<KeyType>)
    requires SetLess(a, b) && SetLess(b, c)
    ensures SetLess(a, c)
    decreases |a|
  {
    if a != [] {
      if Less(a[0], b[0]) && Less(b[0], c[0]) {
        LessTransitive(a[0], b[0], c[0]);
      } else if a[0] == b[0] && b[0] == c[0] {
        SetLessTransitive(a[1..], b[1..], c[1..]);
      }
    }
  }

  /** `keys.insert(key)`: the set with `k` added, still in increasing order. */
  function SetInsert(s: seq<KeyType>, k: KeyType): (r: seq<KeyType>)
    requires Increasing(s)
    ensures Increasing(r)
    ensures forall x :: x in r <==> x in s || x == k
    decreases |s|
  {
    if s == [] then [k]
    else if s[0] == k then s
    else if Less(k, s[0]) then
      PrependIncreasing(k, s);
      [k] + s
    else
      LessTotal(k, s[0]);
      var rest := SetInsert(s[1..], k);
      assert forall x :: x in rest ==> Less(s[0], x) by {
        forall x | x in rest ensures Less(s[0], x) {
          if x != k {
            var i :| 1 <= i < |s| && s[i] == x;
          }
        }
      }
      [s[0]] + rest
  }

  lemma PrependIncreasing(k: KeyType, s: seq<KeyType>)
    requires Increasing(s) && (s != [] ==> Less(k, s[0]))
    ensures Increasing([k] + s)
  {
    forall j | 1 <= j < |s| ensures Less(k, s[j]) {
      LessTransitive(k, s[0], s[j]);
    }
  }

  /** One pair of the map. */
  datatype Entry = Entry(keys: seq<KeyType>, values: seq<Value>)

  /** The map's entries in its order. */
  predicate Sorted(entries: seq<Entry>) {
    forall i, j :: 0 <= i < j < |entries| ==> SetLess(entries[i].keys, entries[j].keys)
  }

  /** A sorted map has one entry per key set. */
  lemma SortedDistinct(entries: seq<Entry>, i: int, j: int)
    requires Sorted(entries) && 0 <= i < |entries| && 0 <= j < |entries| && i != j
    ensures entries[i].keys != entries[j].keys
  {
    if i < j {
      SetLessIrreflexive(entries[i].keys);
    } else {
      SetLessIrreflexive(entries[j].keys);
    }
  }

  /** The values the map holds for `keys`, if it holds the set at all. */
  function Lookup(entries: seq<Entry>, keys: seq<KeyType>): Option<seq<Value>> {
    if entries == [] then None
    else if entries[0].keys == keys then Some(entries[0].values)
    else Lookup(entries[1..], keys)
  }

  /** In a sorted map, the entry at position `i` is the one found for its key set. */
  lemma {:induction false} LookupAt(entries: seq<Entry>, i: int)
    requires Sorted(entries) && 0 <= i < |entries|
    ensures Lookup(entries, entries[i].keys) == Some(entries[i].values)
    decreases i
  {
    if i > 0 {
      SortedDistinct(entries, 0, i);
      assert entries[1..][i - 1] == entries[i];
      LookupAt(entries[1..], i - 1);
    }
  }

  /** A key set the map holds sits at some position. */
  lemma {:induction false} LookupFound(entries: seq<Entry>, keys: seq<KeyType>)
    requires Lookup(entries, keys).Some?
    ensures exists i :: 0 <= i < |entries| && entries[i].keys == keys
    decreases |entries|
  {
    if entries[0].keys != keys {
      LookupFound(entries[1..], keys);
      var i :| 0 <= i < |entries[1..]| && entries[1..][i].keys == keys;
      assert entries[i + 1].keys == keys;
    }
  }

  lemma PrependSorted(e: Entry, entries: seq<Entry>)
    requires Sorted(entries) && (entries != [] ==> SetLess(e.keys, entries[0].keys))
    ensures Sorted([e] + entries)
  {
    forall j | 1 <= j < |entries| ensures SetLess(e.keys, entries[j].keys) {
      SetLessTransitive(e.keys, entries[0].keys, entries[j].keys);
    }
  }

  /** `map.insert`: the pair goes in at its place in the order unless the set is already a key. */
  function MapInsert(entries: seq<Entry>, keys: seq<KeyType>, values: seq<Value>): (r: seq<Entry>)
    requires Sorted(entries)
    ensures Sorted(r)
    ensures forall e :: e in r ==> e in entries || e == Entry(keys, values)
    decreases |entries|
  {
    if entries == [] then [Entry(keys, values)]
    else if entries[0].keys == keys then entries
    else if SetLess(keys, entries[0].keys) then
      PrependSorted(Entry(keys, values), entries);
      [Entry(keys, values)] + entries
    else
      SetLessTotal(keys, entries[0].keys);
      var rest := MapInsert(entries[1..], keys, values);
      assert forall e :: e in rest ==> SetLess(entries[0].keys, e.keys) by {
        forall e | e in rest ensures SetLess(entries[0].keys, e.keys) {
          if e != Entry(keys, values) {
            var i :| 1 <= i < |entries| && entries[i] == e;
          }
        }
      }
      [entries[0]] + rest
  }

  /** `map.insert` keeps an existing pair, adds a missing one, and leaves every other set alone. */
  lemma {:induction false} MapInsertLookup(entries: seq<Entry>, keys: seq<KeyType>, values: seq<Value>, other: seq<KeyType>)
    requires Sorted(entries)
    ensures Lookup(MapInsert(entries, keys, values), keys) ==
      if Lookup(entries, keys).Some? then Lookup(entries, keys) else Some(values)
    ensures other != keys ==> Lookup(MapInsert(entries, keys, values), other) == Lookup(entries, other)
    decreases |entries|
  {
    var r := MapInsert(entries, keys, values);
    if entries == [] {
    } else if entries[0].keys == keys {
    } else if SetLess(keys, entries[0].keys) {
      assert r[1..] == entries;
      LookupBelow(entries, keys);
    } else {
      MapInsertLookup(entries[1..], keys, values, other);
      assert r[1..] == MapInsert(entries[1..], keys, values);
    }
  }

  /** A set below the first key is not a key of a sorted map. */
  lemma LookupBelow(entries: seq<Entry>, keys: seq<KeyType>)
    requires Sorted(entries) && entries != [] && SetLess(keys, entries[0].keys)
    ensures Lookup(entries, keys) == None
  {
    forall i | 0 <= i < |entries| ensures entries[i].keys != keys {
      if i > 0 {
        SetLessTransitive(keys, entries[0].keys, entries[i].keys);
      }
      SetLessIrreflexive(keys);
    }
    LookupAbsent(entries, keys);
  }

  /** `map.erase`: the pair for `keys` goes and the rest keep their order. */
  function MapErase(entries: seq<Entry>, keys: seq<KeyType>): (r: seq<Entry>)
    requires Sorted(entries)
    ensures Sorted(r)
    ensures forall e :: e in r ==> e in entries
    decreases |entries|
  {
    if entries == [] then []
    else if entries[0].keys == keys then entries[1..]
    else
      var rest := MapErase(entries[1..], keys);
      assert forall e :: e in rest ==> SetLess(entries[0].keys, e.keys) by {
        forall e | e in rest ensures SetLess(entries[0].keys, e.keys) {
          var i :| 1 <= i < |entries| && entries[i] == e;
        }
      }
      [entries[0]] + rest
  }

  /** After `erase` the set is gone and every other set is as it was. */
  lemma {:induction false} MapEraseLookup(entries: seq<Entry>, keys: seq<KeyType>, other: seq<KeyType>)
    requires Sorted(entries)
    ensures Lookup(MapErase(entries, keys), keys) == None
    ensures other != keys ==> Lookup(MapErase(entries, keys), other) == Lookup(entries, other)
    decreases |entries|
  {
    if entries == [] {
    } else if entries[0].keys == keys {
      forall i | 1 <= i < |entries| ensures entries[i].keys != keys {
        SortedDistinct(entries, 0, i);
      }
      LookupAbsent(entries[1..], keys);
    } else {
      MapEraseLookup(entries[1..], keys, other);
      var r := MapErase(entries, keys);
      assert r[1..] == MapErase(entries[1..], keys);
    }
  }

  lemma {:induction false} LookupAbsent(entries: seq<Entry>, keys: seq<KeyType>)
    requires forall i :: 0 <= i < |entries| ==> entries[i].keys != keys
    ensures Lookup(entries, keys) == None
    decreases |entries|
  {
    if entries != [] {
      LookupAbsent(entries[1..], keys);
    }
  }

  /** `map[keys].push_back(value)` on a map that holds `keys`. */
  function AppendTo(entries: seq<Entry>, keys: seq<KeyType>, value: Value): (r: seq<Entry>)
    ensures |r| == |entries|
    ensures forall i :: 0 <= i < |r| ==> r[i].keys == entries[i].keys
    ensures forall i :: 0 <= i < |r| ==>
      r[i].values == if entries[i].keys == keys then entries[i].values + [value] else entries[i].values
    ensures Sorted(entries) ==> Sorted(r)
  {
    seq(|entries|, i requires 0 <= i < |entries| =>
      if entries[i].keys == keys then entries[i].(values := entries[i].values + [value]) else entries[i])
  }

  /** `value` appended to the vectors at the given positions. */
  function AppendAtAll(entries: seq<Entry>, positions: seq<nat>, value: Value): (r: seq<Entry>)
    ensures |r| == |entries|
  {
    seq(|entries|, i requires 0 <= i < |entries| =>
      if i in positions then entries[i].(values := entries[i].values + [value]) else entries[i])
  }

  /** What `distributedValue` leaves: the set of every pair kept, `value` added to the vectors whose set holds `key`. */
  function Distribute(entries: seq<Entry>, key: KeyType, value: Value): (r: seq<Entry>)
    ensures |r| == |entries|
    ensures forall i :: 0 <= i < |r| ==> r[i].keys == entries[i].keys
    ensures forall i :: 0 <= i < |r| ==>
      r[i].values == if key in entries[i].keys then entries[i].values + [value] else entries[i].values
  {
    seq(|entries|, i requires 0 <= i < |entries| =>
      if key in entries[i].keys then entries[i].(values := entries[i].values + [value]) else entries[i])
  }

  /** Positions of the sets that contain `key`, in increasing order. */
  function Holding(entries: seq<Entry>, key: KeyType): (r: seq<nat>)
    ensures forall j :: 0 <= j < |r| ==> r[j] < |entries| && key in entries[r[j]].keys
    ensures forall i :: 0 <= i < |entries| && key in entries[i].keys ==> i in r
    ensures forall a, b :: 0 <= a < b < |r| ==> r[a] < r[b]
    decreases |entries|
  {
    if entries == [] then []
    else
      var last := |entries| - 1;
      var front := Holding(entries[..last], key);
      assert forall i :: 0 <= i < last ==> entries[..last][i] == entries[i];
      if key in entries[last].keys then front + [last] else front
  }

  /** The sets holding a key among one more entry. */
  lemma HoldingStep(entries: seq<Entry>, key: KeyType, i: int)
    requires 0 <= i < |entries|
    ensures Holding(entries[..i + 1], key) == Holding(entries[..i], key) + if key in entries[i].keys then [i] else []
  {
    assert entries[..i + 1][..i] == entries[..i];
  }

  /** One more position of an ascending list is one more vector extended. */
  lemma AppendAtAllStep(entries: seq<Entry>, positions: seq<nat>, j: int, value: Value)
    requires 0 <= j < |positions| && positions[j] < |entries|
    requires forall a, b :: 0 <= a < b < |positions| ==> positions[a] < positions[b]
    ensures var before := AppendAtAll(entries, positions[..j], value);
      var x := positions[j];
      AppendAtAll(entries, positions[..j + 1], value) == before[x := before[x].(values := before[x].values + [value])]
  {
    assert positions[..j + 1] == positions[..j] + [positions[j]];
    assert positions[j] !in positions[..j];
  }

  /** Extending the vectors at the positions `indicesOfKey` lists is `distributedValue`'s result. */
  lemma DistributeAtHolding(entries: seq<Entry>, key: KeyType, value: Value)
    ensures AppendAtAll(entries, Holding(entries, key), value) == Distribute(entries, key, value)
  {
  }

  /** Every key of every set, set after set in the map's order. */
  function AllKeys(entries: seq<Entry>): seq<KeyType> {
    if entries == [] then [] else AllKeys(entries[..|entries| - 1]) + entries[|entries| - 1].keys
  }

  /** Every value of every vector, vector after vector in the map's order. */
  function AllValues(entries: seq<Entry>): seq<Value> {
    if entries == [] then [] else AllValues(entries[..|entries| - 1]) + entries[|entries| - 1].values
  }

  /** The number of keys over all sets. */
  function KeyCount(entries: seq<Entry>): nat {
    if entries == [] then 0 else KeyCount(entries[1..]) + |entries[0].keys|
  }

  lemma {:induction false} KeyCountSplit(entries: seq<Entry>)
    requires entries != []
    ensures KeyCount(entries) == KeyCount(entries[..|entries| - 1]) + |entries[|entries| - 1].keys|
    decreases |entries|
  {
    if |entries| > 1 {
      var front := entries[..|entries| - 1];
      assert front[1..] == entries[1..][..|entries[1..]| - 1];
      KeyCountSplit(entries[1..]);
    }
  }

  /** `getKeys` yields as many keys as the sets hold together, and exactly the keys they hold. */
  lemma {:induction false} AllKeysComplete(entries: seq<Entry>, k: KeyType)
    ensures |AllKeys(entries)| == KeyCount(entries)
    ensures k in AllKeys(entries) <==> exists i :: 0 <= i < |entries| && k in entries[i].keys
    decreases |entries|
  {
    if entries != [] {
      var last := |entries| - 1;
      AllKeysComplete(entries[..last], k);
      KeyCountSplit(entries);
      assert forall i :: 0 <= i < last ==> entries[..last][i] == entries[i];
    }
  }

  class SetMap {
    var entries: seq<Entry>

    predicate Valid()
      reads this
    {
      Sorted(entries) && forall e :: e in entries ==> Increasing(e.keys)
    }

    /** `SetMap()`: an empty map. */
    constructor()
      ensures Valid() && entries == []
    {
      entries := [];
    }

    /** `addSet`: `map.insert` of the pair; an existing pair for the same set wins. */
    method AddSet(keys: seq<KeyType>, values: seq<Value>)
      requires Valid() && Increasing(keys)
      modifies this
      ensures Valid() && entries == MapInsert(old(entries), keys, values)
    {
      entries := MapInsert(entries, keys, values);
    }

    /** `addKV`: the pair {key} -> [value], added only if {key} is not already a key. */
    method AddKV(key: KeyType, value: Value)
      requires Valid()
      modifies this
      ensures Valid() && entries == MapInsert(old(entries), [key], [value])
    {
      AddSet([key], [value]);
    }

    /** `getKeySetFromIndex`: the set at position `index` in the map's order. */
    method GetKeySetFromIndex(index: int) returns (keys: seq<KeyType>)
      requires Valid() && 0 <= index < |entries|
      ensures keys == entries[index].keys && Increasing(keys)
    {
      keys := entries[index].keys;
    }

    /**
     * `insertKey`: the set at `index` is taken out with its values and put back with `key` added.
     * When the enlarged set is already a key, that pair wins and the moved values are lost.
     */
    method InsertKey(index: int, key: KeyType)
      requires Valid() && 0 <= index < |entries|
      modifies this
      ensures Valid()
      ensures var e := old(entries[index]);
        entries == MapInsert(MapErase(old(entries), e.keys), SetInsert(e.keys, key), e.values)
    {
      var keys := GetKeySetFromIndex(index);
      var values := entries[index].values;
      entries := MapErase(entries, keys);
      keys := SetInsert(keys, key);
      AddSet(keys, values);
    }

    /** `addValue`: `value` is appended to the vector at position `index`; nothing else changes. */
    method AddValue(index: int, value: Value)
      requires Valid() && 0 <= index < |entries|
      modifies this
      ensures Valid()
      ensures entries == old(entries)[index := old(entries[index]).(values := old(entries[index]).values + [value])]
    {
      entries := entries[index := entries[index].(values := entries[index].values + [value])];
    }

    /** `addValueToSet`: `map[keys].push_back(value)`, which first adds an empty vector for a new set. */
    method AddValueToSet(keys: seq<KeyType>, value: Value)
      requires Valid() && Increasing(keys)
      modifies this
      ensures Valid() && entries == AppendTo(MapInsert(old(entries), keys, []), keys, value)
    {
      entries := MapInsert(entries, keys, []);
      var appended := AppendTo(entries, keys, value);
      forall e | e in appended ensures Increasing(e.keys) {
        var i :| 0 <= i < |appended| && appended[i] == e;
        assert entries[i] in entries;
      }
      entries := appended;
    }

    /** `indicesOfKey`: the positions of the sets containing `key`, in increasing order. */
    method IndicesOfKey(key: KeyType) returns (indices: seq<nat>)
      ensures indices == Holding(entries, key)
    {
      indices := [];
      var i := 0;
      while i < |entries|
        invariant 0 <= i <= |entries|
        invariant indices == Holding(entries[..i], key)
      {
        assert entries[..i + 1][..i] == entries[..i];
        if key in entries[i].keys {
          indices := indices + [i];
        }
        i := i + 1;
      }
      assert entries[..i] == entries;
    }

    /** `distributedValue`: `value` is appended to exactly the vectors whose set contains `key`. */
    method DistributedValue(key: KeyType, value: Value)
      requires Valid()
      modifies this
      ensures Valid() && entries == Distribute(old(entries), key, value)
    {
      var indices := IndicesOfKey(key);
      ghost var start := entries;
      var j := 0;
      while j < |indices|
        invariant 0 <= j <= |indices| && Valid()
        invariant entries == AppendAtAll(start, indices[..j], value)
      {
        AppendAtAllStep(start, indices, j, value);
        AddValue(indices[j], value);
        j := j + 1;
      }
      assert indices[..j] == indices;
      DistributeAtHolding(start, key, value);
    }

    /** `getKeys`: every set's keys, set after set. */
    method GetKeys() returns (keys: seq<KeyType>)
      ensures keys == AllKeys(entries)
    {
      keys := [];
      var i := 0;
      while i < |entries|
        invariant 0 <= i <= |entries|
        invariant keys == AllKeys(entries[..i])
      {
        var j := 0;
        while j < |entries[i].keys|
          invariant 0 <= j <= |entries[i].keys|
          invariant keys == AllKeys(entries[..i]) + entries[i].keys[..j]
        {
          keys := keys + [entries[i].keys[j]];
          j := j + 1;
        }
        assert entries[..i + 1][..i] == entries[..i];
        i := i + 1;
      }
      assert entries[..i] == entries;
    }

    /** `getValues`: every vector's values, vector after vector. */
    method GetValues() returns (values: seq<Value>)
      ensures values == AllValues(entries)
    {
      values := [];
      var i := 0;
      while i < |entries|
        invariant 0 <= i <= |entries|
        invariant values == AllValues(entries[..i])
      {
        var j := 0;
        while j < |entries[i].values|
          invariant 0 <= j <= |entries[i].values|
          invariant values == AllValues(entries[..i]) + entries[i].values[..j]
        {
          values := values + [entries[i].values[j]];
          j := j + 1;
        }
        assert entries[..i + 1][..i] == entries[..i];
        i := i + 1;
      }
      assert entries[..i] == entries;
    }

    /** `getValuesAtIndex`: the vector at position `index`. */
    method GetValuesAtIndex(index: int) returns (values: seq<Value>)
      requires Valid() && 0 <= index < |entries|
      ensures Some(values) == Lookup(entries, entries[index].keys)
    {
      LookupAt(entries, index);
      values := entries[index].values;
    }

    /** `getKeyVectorFromIndex`: the keys of the set at position `index`, copied into a vector. */
    method GetKeyVectorFromIndex(index: int) returns (keys: seq<KeyType>)
      requires Valid() && 0 <= index < |entries|
      ensures keys == entries[index].keys && Increasing(keys)
    {
      keys := [];
      var j := 0;
      while j < |entries[index].keys|
        invariant 0 <= j <= |entries[index].keys|
        invariant keys == entries[index].keys[..j]
      {
        keys := keys + [entries[index].keys[j]];
        j := j + 1;
      }
    }

    /** `getValuesFromSet`: `map[keys]`, which inserts an empty vector for a set the map lacks. */
    method GetValuesFromSet(keys: seq<KeyType>) returns (values: seq<Value>)
      requires Valid() && Increasing(keys)
      modifies this
      ensures Valid() && entries == MapInsert(old(entries), keys, [])
      ensures values == if Lookup(old(entries), keys).Some? then Lookup(old(entries), keys).value else []
    {
      MapInsertLookup(entries, keys, [], keys);
      entries := MapInsert(entries, keys, []);
      values := Lookup(entries, keys).value;
    }

    /** `countSetsWithKey`: how many sets contain `key`. */
    method CountSetsWithKey(key: KeyType) returns (count: int)
      ensures count == |Holding(entries, key)|
    {
      count := 0;
      var i := 0;
      while i < |entries|
        invariant 0 <= i <= |entries|
        invariant count == |Holding(entries[..i], key)|
      {
        assert entries[..i + 1][..i] == entries[..i];
        if key in entries[i].keys {
          count := count + 1;
        }
        i := i + 1;
      }
      assert entries[..i] == entries;
    }

    /** `countMatchingSets`: 1 when the map holds exactly this set, else 0. */
    method CountMatchingSets(keys: seq<KeyType>) returns (count: int)
      requires Valid()
      ensures count == if Lookup(entries, keys).Some? then 1 else 0
    {
      count := 0;
      var i := 0;
      while i < |entries|
        invariant 0 <= i <= |entries|
        invariant count == if exists j :: 0 <= j < i && entries[j].keys == keys then 1 else 0
      {
        if entries[i].keys == keys {
          forall j | 0 <= j < i ensures entries[j].keys != keys {
            SortedDistinct(entries, j, i);
          }
          count := count + 1;
        }
        i := i + 1;
      }
      if Lookup(entries, keys).Some? {
        LookupFound(entries, keys);
      } else {
        forall j | 0 <= j < |entries| ensures entries[j].keys != keys {
          LookupAt(entries, j);
        }
      }
    }

    /** `listOfVectorsFromKey`: the vectors of the sets containing `key`, in the map's order. */
    method ListOfVectorsFromKey(key: KeyType) returns (vectors: seq<seq<Value>>)
      ensures |vectors| == |Holding(entries, key)|
      ensures forall j :: 0 <= j < |vectors| ==> vectors[j] == entries[Holding(entries, key)[j]].values
    {
      vectors := [];
      var i := 0;
      while i < |entries|
        invariant 0 <= i <= |entries|
        invariant |vectors| == |Holding(entries[..i], key)|
        invariant forall j :: 0 <= j < |vectors| ==> vectors[j] == entries[Holding(entries[..i], key)[j]].values
      {
        HoldingStep(entries, key, i);
        if key in entries[i].keys {
          vectors := vectors + [entries[i].values];
        }
        i := i + 1;
      }
      assert entries[..i] == entries;
    }
  }

  /** `insertKey` with a key the set already holds puts the same pair back: the map is as before. */
  lemma InsertKeyPresent(entries: seq<Entry>, index: int, key: KeyType, other: seq<KeyType>)
    requires Sorted(entries) && 0 <= index < |entries| && Increasing(entries[index].keys)
    requires key in entries[index].keys
    ensures var e := entries[index];
      Lookup(MapInsert(MapErase(entries, e.keys), SetInsert(e.keys, key), e.values), other) == Lookup(entries, other)
  {
    var e := entries[index];
    var s := SetInsert(e.keys, key);
    SetInsertPresent(e.keys, key);
    assert s == e.keys;
    var erased := MapErase(entries, e.keys);
    MapEraseLookup(entries, e.keys, other);
    MapEraseLookup(entries, e.keys, e.keys);
    MapInsertLookup(erased, s, e.values, other);
    LookupAt(entries, index);
  }

  /** Adding an element a set already holds gives back the same set. */
  lemma {:induction false} SetInsertPresent(s: seq<KeyType>, k: KeyType)
    requires Increasing(s) && k in s
    ensures SetInsert(s, k) == s
    decreases |s|
  {
    if s[0] != k {
      if Less(k, s[0]) {
        var i :| 0 <= i < |s| && s[i] == k;
        LessAsymmetric(k, s[0]);
        LessIrreflexive(k);
      } else {
        SetInsertPresent(s[1..], k);
        assert [s[0]] + s[1..] == s;
      }
    }
  }

  /**
   * `insertKey` onto a set whose enlargement is already a key: that key keeps its own values,
   * the moved values are dropped, and the old set is gone.
   */
  lemma InsertKeyCollision(entries: seq<Entry>, index: int, key: KeyType)
    requires Sorted(entries) && 0 <= index < |entries| && Increasing(entries[index].keys)
    requires key !in entries[index].keys
    requires Lookup(entries, SetInsert(entries[index].keys, key)).Some?
    ensures var e := entries[index];
      var r := MapInsert(MapErase(entries, e.keys), SetInsert(e.keys, key), e.values);
      Lookup(r, SetInsert(e.keys, key)) == Lookup(entries, SetInsert(e.keys, key)) && Lookup(r, e.keys) == None
  {
    var e := entries[index];
    var s := SetInsert(e.keys, key);
    assert key in s;
    assert s != e.keys;
    var erased := MapErase(entries, e.keys);
    MapEraseLookup(entries, e.keys, s);
    MapEraseLookup(entries, e.keys, e.keys);
    MapInsertLookup(erased, s, e.values, e.keys);
  }
}
