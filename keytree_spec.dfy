/**
 * The `KeyNode`s of a `KeyTree` (keytree.cpp) as an arena: every node ever allocated has a
 * handle, and `key`, `parent` and `children` are indexed by handle; -1 stands for `nullptr`.
 * The functions here state what each `KeyTree` operation does to the arena.
 */
module KeyTreeSpec {
  import opened Keys
  import opened CppTypes

  datatype Arena = Arena(key: seq<KeyType>, parent: seq<int>, children: seq<seq<nat>>, root: int)

  /** What `remove` ends in: it returns, dereferences a null parent, loops forever, or has undefined behaviour. */
  datatype Outcome = Returned | NullParent | Diverges | Undefined

  lemma Trichotomy(a: KeyType, b: KeyType)
    ensures Less(a, b) || Less(b, a) || a == b
  {
    if a != b {
      LessTotal(a, b);
    }
  }

  predicate Shaped(t: Arena) {
    |t.parent| == |t.key| && |t.children| == |t.key| && -1 <= t.root < |t.key|
  }

  /** No node appears twice in one `children` vector. */
  predicate Distinct(s: seq<nat>) {
    forall a, b :: 0 <= a < b < |s| ==> s[a] != s[b]
  }

  /**
   * Node `i`'s children have larger handles (so the links form no cycle) and point back to `i`,
   * none twice; its own parent, if any, has a smaller handle.
   */
  predicate NodeOk(t: Arena, i: int)
    requires Shaped(t) && 0 <= i < |t.key|
  {
    && (forall x :: x in t.children[i] ==> i < x < |t.key| && t.parent[x] == i)
    && Distinct(t.children[i])
    && -1 <= t.parent[i] < i
  }

  predicate Valid(t: Arena) {
    && Shaped(t)
    && (forall i :: 0 <= i < |t.key| ==> NodeOk(t, i))
    && (t.root != -1 ==> t.parent[t.root] == -1)
  }

  /** Every node has at most one child, as insertion alone leaves a tree. */
  predicate Chain(t: Arena) {
    forall i :: 0 <= i < |t.children| ==> |t.children[i]| <= 1
  }

  /**
   * The node where `insert`'s and `search`'s walk from `node` stops: smaller keys go to the first
   * child and larger keys to the last, until the key is equal or the node has no children.
   */
  function PathEnd(t: Arena, k: KeyType, node: int): (r: int)
    requires Valid(t) && 0 <= node < |t.key|
    ensures node <= r < |t.key| && -1 <= t.parent[r] < r
    ensures t.key[r] == k || t.children[r] == []
    decreases |t.key| - node
  {
    var cs := t.children[node];
    assert NodeOk(t, node);
    if Less(k, t.key[node]) then
      if cs == [] then node else assert cs[0] in cs; PathEnd(t, k, cs[0])
    else if Less(t.key[node], k) then
      if cs == [] then node else assert cs[|cs| - 1] in cs; PathEnd(t, k, cs[|cs| - 1])
    else
      Trichotomy(k, t.key[node]);
      node
  }

  /** `search`: the node carrying `k` where the walk from the root stops, or -1 (`nullptr`). */
  function Found(t: Arena, k: KeyType): (r: int)
    requires Valid(t)
    ensures r == -1 || (0 <= r < |t.key| && t.key[r] == k)
    ensures t.root == -1 ==> r == -1
  {
    if t.root == -1 then -1
    else var e := PathEnd(t, k, t.root); if t.key[e] == k then e else -1
  }

  /** `new KeyNode(k)`: a node with no parent and no children, reachable from nowhere. */
  function Allocate(t: Arena, k: KeyType): (r: Arena)
    requires Valid(t)
    ensures Valid(r) && |r.key| == |t.key| + 1
  {
    var r := Arena(t.key + [k], t.parent + [-1], t.children + [[]], t.root);
    assert forall i :: 0 <= i < |t.key| ==> NodeOk(t, i) && r.children[i] == t.children[i];
    assert forall i :: 0 <= i < |r.key| ==> NodeOk(r, i);
    r
  }

  /** A fresh node with key `k` made the only child of the leaf `e`, its parent set to `e`. */
  function Attach(t: Arena, k: KeyType, e: int): (r: Arena)
    requires Valid(t) && 0 <= e < |t.key| && t.children[e] == []
    ensures Valid(r) && r.key == t.key + [k] && r.root == t.root
    ensures r.children == (t.children + [[]])[e := [|t.key|]]
    ensures r.parent == t.parent + [e]
  {
    var n := |t.key|;
    var a := Allocate(t, k);
    var r := a.(children := a.children[e := [n]], parent := a.parent[n := e]);
    assert forall i :: 0 <= i < |r.key| ==> NodeOk(r, i) by {
      forall i | 0 <= i < |r.key| ensures NodeOk(r, i) {
        assert NodeOk(a, i);
      }
    }
    r
  }

  /**
   * `insert` of a fresh node with key `k`: into an empty tree it becomes the root; if the walk
   * meets an equal key that node is returned and no link changes; otherwise the node becomes the
   * only child of the leaf where the walk stops.
   */
  function InsertSpec(t: Arena, k: KeyType): (r: (Arena, int))
    requires Valid(t)
    ensures Valid(r.0) && 0 <= r.1 < |r.0.key| && r.0.key[r.1] == k
    ensures |r.0.key| == |t.key| + 1 && r.0.key[..|t.key|] == t.key
    ensures t.root == -1 ==> r.0.root == r.1 == |t.key|
    ensures Found(t, k) != -1 ==> r.1 == Found(t, k) && r.0 == Allocate(t, k)
    ensures Found(t, k) == -1 ==> r.1 == |t.key|
    ensures Chain(t) ==> Chain(r.0)
  {
    var n := |t.key|;
    var a := Allocate(t, k);
    if t.root == -1 then
      var r := a.(root := n);
      assert forall i :: 0 <= i < |r.key| ==> NodeOk(a, i) == NodeOk(r, i);
      (r, n)
    else
      var e := PathEnd(t, k, t.root);
      if t.key[e] == k then (a, e) else (Attach(t, k, e), n)
  }

  /** A node that nothing links to does not change any walk. */
  lemma {:induction false} PathEndAllocate(t: Arena, k: KeyType, k': KeyType, node: int)
    requires Valid(t) && 0 <= node < |t.key|
    ensures PathEnd(Allocate(t, k'), k, node) == PathEnd(t, k, node)
    decreases |t.key| - node
  {
    var a := Allocate(t, k');
    assert a.children[node] == t.children[node] && a.key[node] == t.key[node];
    var cs := t.children[node];
    assert NodeOk(t, node);
    if cs != [] {
      if Less(k, t.key[node]) {
        assert cs[0] in cs;
        PathEndAllocate(t, k, k', cs[0]);
      } else if Less(t.key[node], k) {
        assert cs[|cs| - 1] in cs;
        PathEndAllocate(t, k, k', cs[|cs| - 1]);
      }
    }
  }

  /** Once the new node hangs from the leaf where the walk stopped, the same walk reaches it. */
  lemma {:induction false} PathEndAttach(t: Arena, k: KeyType, node: int)
    requires Valid(t) && 0 <= node < |t.key|
    requires t.key[PathEnd(t, k, node)] != k
    ensures PathEnd(Attach(t, k, PathEnd(t, k, node)), k, node) == |t.key|
    decreases |t.key| - node
  {
    var e := PathEnd(t, k, node);
    var r := Attach(t, k, e);
    var n := |t.key|;
    var cs := t.children[node];
    assert NodeOk(t, node);
    LessIrreflexive(k);
    if node == e {
      Trichotomy(k, t.key[e]);
      assert r.children[e] == [n] && r.key[n] == k;
    } else {
      assert r.children[node] == cs && r.key[node] == t.key[node];
      assert cs != [];
      if Less(k, t.key[node]) {
        assert cs[0] in cs;
        PathEndAttach(t, k, cs[0]);
      } else {
        Trichotomy(k, t.key[node]);
        assert cs[|cs| - 1] in cs;
        PathEndAttach(t, k, cs[|cs| - 1]);
      }
    }
  }

  /** After `insert(k)`, `search(k)` returns the node `insert` returned. */
  lemma {:induction false} InsertThenSearch(t: Arena, k: KeyType)
    requires Valid(t)
    ensures var r := InsertSpec(t, k); Found(r.0, k) == r.1
  {
    var r := InsertSpec(t, k);
    LessIrreflexive(k);
    if t.root != -1 {
      var e := PathEnd(t, k, t.root);
      PathEndAllocate(t, k, k, t.root);
      if t.key[e] != k {
        PathEndAttach(t, k, t.root);
      }
    }
  }

  /** In a chain, the walk visits every node below `node` until one carries `k`. */
  predicate HasDescendant(t: Arena, node: int, k: KeyType)
    requires Valid(t) && 0 <= node < |t.key|
    decreases |t.key| - node
  {
    assert NodeOk(t, node);
    t.key[node] == k || exists c :: c in t.children[node] && HasDescendant(t, c, k)
  }

  /** In a chain, `hasDescendant` holds exactly when the walk ends at a node carrying the key. */
  lemma {:induction false} ChainFind(t: Arena, node: int, k: KeyType)
    requires Valid(t) && Chain(t) && 0 <= node < |t.key|
    ensures HasDescendant(t, node, k) <==> t.key[PathEnd(t, k, node)] == k
    decreases |t.key| - node
  {
    var cs := t.children[node];
    assert NodeOk(t, node);
    Trichotomy(k, t.key[node]);
    LessIrreflexive(k);
    if t.key[node] != k && cs != [] {
      assert |cs| == 1 && cs == [cs[0]] && cs[0] in cs;
      assert forall c :: c in cs <==> c == cs[0];
      assert PathEnd(t, k, node) == PathEnd(t, k, cs[0]);
      ChainFind(t, cs[0], k);
    }
  }

  /** `vector::erase` at the first position holding `c`, or nothing when `c` is absent. */
  function EraseFirst(s: seq<nat>, c: nat): (r: seq<nat>)
    ensures forall x :: x in r ==> x in s
    ensures c in s ==> |r| == |s| - 1
    ensures c !in s ==> r == s
    ensures Distinct(s) ==> Distinct(r) && c !in r
  {
    if s == [] then []
    else if s[0] == c then
      assert Distinct(s) ==> c !in s[1..];
      s[1..]
    else
      var rest := EraseFirst(s[1..], c);
      assert Distinct(s) ==> s[0] !in rest;
      [s[0]] + rest
  }

  /** Erasing at the first index holding `c` is `EraseFirst`. */
  lemma {:induction false} EraseFirstAt(s: seq<nat>, c: nat, i: int)
    requires 0 <= i < |s| && s[i] == c && c !in s[..i]
    ensures EraseFirst(s, c) == s[..i] + s[i + 1..]
  {
    if i > 0 {
      assert s[1..][..i - 1] == s[..i][1..];
      EraseFirstAt(s[1..], c, i - 1);
      assert s[1..][i - 1 + 1..] == s[i + 1..];
    }
  }

  /** The number of links in the arena. */
  function Edges(cs: seq<seq<nat>>): nat {
    if cs == [] then 0 else |cs[0]| + Edges(cs[1..])
  }

  lemma {:induction false} EdgesUpdate(cs: seq<seq<nat>>, i: int, s: seq<nat>)
    requires 0 <= i < |cs|
    ensures Edges(cs[i := s]) == Edges(cs) - |cs[i]| + |s|
    decreases |cs|
  {
    if i == 0 {
      assert cs[i := s][1..] == cs[1..];
    } else {
      EdgesUpdate(cs[1..], i - 1, s);
      assert cs[i := s][1..] == cs[1..][i - 1 := s];
    }
  }

  /**
   * One pass of `remove`'s unlinking code on `c` and its parent `p`: a single child is cleared
   * whatever it is; otherwise `c`'s first occurrence is erased.
   */
  function Detached(t: Arena, p: int, c: nat): (r: Arena)
    requires Valid(t) && 0 <= p < |t.key|
    ensures Valid(r) && r.key == t.key && r.parent == t.parent && r.root == t.root
    ensures |r.children| == |t.children|
    ensures forall i :: 0 <= i < |t.children| && i != p ==> r.children[i] == t.children[i]
    ensures forall x :: x in r.children[p] ==> x in t.children[p]
    ensures LinksFrom(r, t)
    ensures c !in r.children[p]
    ensures Edges(r.children) <= Edges(t.children)
    ensures c in t.children[p] ==> Edges(r.children) < Edges(t.children)
  {
    assert NodeOk(t, p);
    var s := if |t.children[p]| == 1 then [] else EraseFirst(t.children[p], c);
    var r := t.(children := t.children[p := s]);
    EdgesUpdate(t.children, p, s);
    assert forall i :: 0 <= i < |r.key| ==> NodeOk(r, i) by {
      forall i | 0 <= i < |r.key| ensures NodeOk(r, i) {
        assert NodeOk(t, i);
      }
    }
    r
  }

  /** Once `remove` has unlinked a node twice, a further pass changes nothing: the loop makes no progress. */
  lemma DetachSettles(t: Arena, p: int, c: nat)
    requires Valid(t) && 0 <= p < |t.key|
    ensures var twice := Detached(Detached(t, p, c), p, c); Detached(twice, p, c) == twice
  {
    var once := Detached(t, p, c);
    var twice := Detached(once, p, c);
    assert NodeOk(once, p) && NodeOk(twice, p);
    if |once.children[p]| != 1 {
      assert twice.children == once.children;
    }
  }

  /** The replacement `remove` promotes: from `c`, follow last children down to a leaf. */
  function RightmostLeaf(t: Arena, c: int): (r: int)
    requires Valid(t) && 0 <= c < |t.key|
    ensures c <= r < |t.key| && t.children[r] == []
    ensures r == c || (0 <= t.parent[r] < |t.key| && r in t.children[t.parent[r]])
    decreases |t.key| - c
  {
    var cs := t.children[c];
    assert NodeOk(t, c);
    if cs == [] then c
    else
      var x := cs[|cs| - 1];
      assert x in cs;
      var r := RightmostLeaf(t, x);
      assert NodeOk(t, x);
      r
  }

  /** Every key of `u` is a key of `t`: keys are only copied from node to node. */
  predicate KeysFrom(u: Arena, t: Arena) {
    forall i :: 0 <= i < |u.key| ==> u.key[i] in t.key
  }

  /** Every link of `u` is a link of `t`: links are only taken away. */
  predicate LinksFrom(u: Arena, t: Arena)
    requires |u.children| == |t.children|
  {
    forall i, x :: 0 <= i < |u.children| && x in u.children[i] ==> x in t.children[i]
  }

  lemma LinksFromTransitive(u: Arena, v: Arena, t: Arena)
    requires |u.children| == |v.children| == |t.children|
    requires LinksFrom(u, v) && LinksFrom(v, t)
    ensures LinksFrom(u, t)
  {
  }

  /** The node `remove` promotes for `current`: the rightmost leaf below its first child. */
  function Replacement(t: Arena, current: int): (rep: int)
    requires Valid(t) && 0 <= current < |t.key| && |t.children[current]| >= 2
    ensures current < rep < |t.key| && t.children[rep] == []
    ensures 0 <= t.parent[rep] < |t.key| && rep in t.children[t.parent[rep]]
  {
    var c := t.children[current][0];
    assert NodeOk(t, current) && c in t.children[current];
    assert NodeOk(t, c);
    RightmostLeaf(t, c)
  }

  /** `current->key = replacement->key`. */
  function Promoted(t: Arena, current: int, rep: int): (r: Arena)
    requires Valid(t) && 0 <= current < |t.key| && 0 <= rep < |t.key|
    ensures Valid(r) && r.children == t.children && r.parent == t.parent && r.root == t.root
    ensures r.key == t.key[current := t.key[rep]] && KeysFrom(r, t)
  {
    var r := t.(key := t.key[current := t.key[rep]]);
    assert forall i :: 0 <= i < |t.key| ==> NodeOk(t, i) == NodeOk(r, i);
    r
  }

  /**
   * `remove`'s loop from `current`. The key only steers the walk; a match with at most one child is
   * unlinked twice (the second pass of a loop that never exits); a match with more children takes
   * the key of the rightmost leaf below its first child, that leaf is unlinked, and the loop goes on
   * at the same node. The `char` overload has undefined behaviour where that leaf has siblings.
   */
  function RemoveFrom(t: Arena, current: int, id: KeyType, charOverload: bool): (r: (Outcome, Arena))
    requires Valid(t) && 0 <= current < |t.key|
    ensures Valid(r.1) && |r.1.key| == |t.key| && r.1.parent == t.parent && r.1.root == t.root
    ensures KeysFrom(r.1, t) && LinksFrom(r.1, t)
    ensures !charOverload ==> r.0 != Undefined
    decreases Edges(t.children), |t.key| - current
  {
    var cs := t.children[current];
    assert NodeOk(t, current);
    if Less(id, t.key[current]) then
      if cs == [] then (Returned, t) else assert cs[0] in cs; RemoveFrom(t, cs[0], id, charOverload)
    else if Less(t.key[current], id) then
      if cs == [] then (Returned, t) else assert cs[|cs| - 1] in cs; RemoveFrom(t, cs[|cs| - 1], id, charOverload)
    else if |cs| <= 1 then
      var p := t.parent[current];
      if p == -1 then (NullParent, t)
      else
        var once := Detached(t, p, current);
        var twice := Detached(once, p, current);
        LinksFromTransitive(twice, once, t);
        (Diverges, twice)
    else
      var rep := Replacement(t, current);
      var p := t.parent[rep];
      var promoted := Promoted(t, current, rep);
      if charOverload && |t.children[p]| != 1 then (Undefined, promoted)
      else
        var next := Detached(promoted, p, rep);
        var r := RemoveFrom(next, current, id, charOverload);
        LinksFromTransitive(r.1, next, t);
        KeysFromTransitive(r.1, next, promoted, t);
        r
  }

  lemma KeysFromTransitive(u: Arena, next: Arena, promoted: Arena, t: Arena)
    requires next.key == promoted.key && KeysFrom(u, next) && KeysFrom(promoted, t)
    ensures KeysFrom(u, t)
  {
    forall i | 0 <= i < |u.key| ensures u.key[i] in t.key {
      var j :| 0 <= j < |next.key| && next.key[j] == u.key[i];
    }
  }

  /** `remove(id)`: nothing happens on an empty tree or when no node below the root carries `id`. */
  function RemoveSpec(t: Arena, id: KeyType, charOverload: bool): (r: (Outcome, Arena))
    requires Valid(t)
    ensures Valid(r.1) && |r.1.key| == |t.key| && r.1.parent == t.parent && r.1.root == t.root
    ensures KeysFrom(r.1, t) && LinksFrom(r.1, t)
    ensures t.root == -1 || !HasDescendant(t, t.root, id) ==> r == (Returned, t)
    ensures !charOverload ==> r.0 != Undefined
  {
    if t.root == -1 || !HasDescendant(t, t.root, id) then (Returned, t)
    else RemoveFrom(t, t.root, id, charOverload)
  }

  /**
   * In a chain, `remove` walks to the first node carrying `id`. At the root that dereferences the
   * null parent; below it the parent's only child is cleared, which unlinks the node together with
   * its own child, and the loop never exits.
   */
  lemma {:induction false} ChainRemoveFrom(t: Arena, current: int, id: KeyType, charOverload: bool)
    requires Valid(t) && Chain(t) && 0 <= current < |t.key|
    requires t.key[PathEnd(t, id, current)] == id
    requires t.parent[current] == -1 || (0 <= t.parent[current] < |t.key| && current in t.children[t.parent[current]])
    ensures var m := PathEnd(t, id, current); m != current ==> t.parent[m] != -1
    ensures var m := PathEnd(t, id, current);
      RemoveFrom(t, current, id, charOverload) ==
        if t.parent[m] == -1 then (NullParent, t)
        else (Diverges, t.(children := t.children[t.parent[m] := []]))
    decreases |t.key| - current
  {
    var cs := t.children[current];
    assert NodeOk(t, current);
    LessIrreflexive(id);
    if t.key[current] != id {
      assert |cs| == 1 && cs[0] in cs;
      assert t.parent[cs[0]] == current;
      ChainRemoveFrom(t, cs[0], id, charOverload);
    } else {
      var p := t.parent[current];
      if p != -1 {
        assert |t.children[p]| <= 1;
        assert t.children[p] == [current];
        var once := Detached(t, p, current);
        assert once.children == t.children[p := []];
        assert Detached(once, p, current).children == t.children[p := []];
      }
    }
  }

  /** The whole of `remove` on a chain: nothing without a match, otherwise the chain is cut above the match. */
  lemma ChainRemove(t: Arena, id: KeyType, charOverload: bool)
    requires Valid(t) && Chain(t) && t.root != -1
    ensures var m := PathEnd(t, id, t.root); t.key[m] == id && m != t.root ==> 0 <= t.parent[m]
    ensures var m := PathEnd(t, id, t.root);
      RemoveSpec(t, id, charOverload) ==
        if t.key[m] != id then (Returned, t)
        else if m == t.root then (NullParent, t)
        else (Diverges, t.(children := t.children[t.parent[m] := []]))
  {
    ChainFind(t, t.root, id);
    var m := PathEnd(t, id, t.root);
    if t.key[m] == id {
      ChainRemoveFrom(t, t.root, id, charOverload);
      if m != t.root {
        assert NodeOk(t, m);
      }
    }
  }

  /** Removing a leaf with one sibling also unlinks the sibling: the second pass clears the lone survivor. */
  lemma SiblingLost()
    ensures var t := Arena([IntKey(5), IntKey(3), IntKey(8)], [-1, 0, 0], [[1, 2], [], []], 0);
      Valid(t) && RemoveSpec(t, IntKey(3), false) == (Diverges, t.(children := [[], [], []]))
  {
    var t := Arena([IntKey(5), IntKey(3), IntKey(8)], [-1, 0, 0], [[1, 2], [], []], 0);
    assert NodeOk(t, 0) && NodeOk(t, 1) && NodeOk(t, 2);
    assert HasDescendant(t, 1, IntKey(3)) && 1 in t.children[0];
    assert HasDescendant(t, 0, IntKey(3));
    assert EraseFirst([1, 2], 1) == [2];
    var once := Detached(t, 0, 1);
    assert once.children == [[2], [], []];
    assert Detached(once, 0, 1).children == [[], [], []];
  }

  /** A root 'e' with children 'c' and 'h', where 'c' has the children 'a' and 'b'. */
  function SampleCharTree(): Arena {
    Arena([CharKey(Char('e')), CharKey(Char('c')), CharKey(Char('h')), CharKey(Char('a')), CharKey(Char('b'))],
          [-1, 0, 0, 1, 1], [[1, 2], [3, 4], [], [], []], 0)
  }

  lemma SampleCharTreeValid()
    ensures Valid(SampleCharTree()) && HasDescendant(SampleCharTree(), 0, CharKey(Char('e')))
  {
    var t := SampleCharTree();
    assert NodeOk(t, 0) && NodeOk(t, 1) && NodeOk(t, 2) && NodeOk(t, 3) && NodeOk(t, 4);
  }

  /**
   * The `char` overload, removing a node whose replacement leaf has a sibling, reaches the
   * statement that erases through the wrong vector; the other overloads unlink the leaf and return.
   */
  lemma CharOverloadUndefined()
    ensures Valid(SampleCharTree())
    ensures RemoveSpec(SampleCharTree(), CharKey(Char('e')), true).0 == Undefined
    ensures var t := SampleCharTree();
      RemoveSpec(t, CharKey(Char('e')), false) == (Returned, t.(key := t.key[0 := CharKey(Char('b'))], children := t.children[1 := [3]]))
  {
    SampleCharTreeValid();
    var t := SampleCharTree();
    var id := CharKey(Char('e'));
    LessIrreflexive(id);
    assert RightmostLeaf(t, 4) == 4;
    assert RightmostLeaf(t, 1) == 4;
    assert RemoveFrom(t, 0, id, true).0 == Undefined;
 assert Replacement(t, 0) == 4;
    var promoted := Promoted(t, 0, 4);
    var next := Detached(promoted, 1, 4);
    assert EraseFirst([4], 4) == [];
    assert EraseFirst([3, 4], 4) == [3] + EraseFirst([4], 4);
    assert EraseFirst([3, 4], 4) == [3];
    assert promoted.children[1] == [3, 4];
    assert next.children == promoted.children[1 := EraseFirst([3, 4], 4)];
    assert next.children == t.children[1 := [3]];
    assert next.key == t.key[0 := CharKey(Char('b'))];
    assert next == t.(key := t.key[0 := CharKey(Char('b'))], children := t.children[1 := [3]]);
    assert RemoveFrom(t, 0, id, false) == RemoveFrom(next, 0, id, false);
    assert RemoveFrom(next, 2, id, false) == (Returned, next);
    assert RemoveFrom(next, 0, id, false) == RemoveFrom(next, 2, id, false);
  }

  /** Every node of `level` is a handle of at least `low`. */
  predicate InRange(t: Arena, level: seq<int>, low: int) {
    forall i :: 0 <= i < |level| ==> low <= level[i] < |t.key|
  }

  /** The nodes one level further down: the children of each node of `level`, in order. */
  function Next(t: Arena, level: seq<int>): (r: seq<int>)
    requires Valid(t) && InRange(t, level, 0)
    ensures InRange(t, r, 0)
    decreases |level|
  {
    if level == [] then []
    else
      var last := level[|level| - 1];
      var cs := t.children[last];
      assert NodeOk(t, last);
      assert forall j :: 0 <= j < |cs| ==> cs[j] in cs;
      Next(t, level[..|level| - 1]) + cs
  }

  /** Children have larger handles, so the next level lies strictly above any bound on this one. */
  lemma {:induction false} NextAbove(t: Arena, level: seq<int>, d: int)
    requires Valid(t) && d >= 0 && InRange(t, level, d)
    ensures InRange(t, Next(t, level), d + 1)
    decreases |level|
  {
    if level != [] {
      var last := level[|level| - 1];
      var cs := t.children[last];
      assert NodeOk(t, last);
      assert forall j :: 0 <= j < |cs| ==> cs[j] in cs;
      NextAbove(t, level[..|level| - 1], d);
    }
  }

  /** The keys of a level, in order. */
  function KeysOf(t: Arena, level: seq<int>): (r: seq<KeyType>)
    requires InRange(t, level, 0)
    ensures |r| == |level| && forall i :: 0 <= i < |level| ==> r[i] == t.key[level[i]]
  {
    seq(|level|, i requires 0 <= i < |level| => t.key[level[i]])
  }

  /** The lines `print` writes from `level` on, one per depth, until a level is empty. */
  function Levels(t: Arena, level: seq<int>, depth: int): seq<seq<KeyType>>
    requires Valid(t) && depth >= 0 && InRange(t, level, depth)
    decreases |t.key| - depth
  {
    if level == [] then []
    else
      NextAbove(t, level, depth);
      [KeysOf(t, level)] + Levels(t, Next(t, level), depth + 1)
  }

  /** `print`: nothing for an empty tree, else the levels from the root down. */
  function PrintSpec(t: Arena): (r: seq<seq<KeyType>>)
    requires Valid(t)
    ensures t.root != -1 ==> r != [] && r[0] == [t.key[t.root]]
    ensures forall line :: line in r ==> line != []
  {
    if t.root == -1 then [] else LevelsNonEmpty(t, [t.root], 0); Levels(t, [t.root], 0)
  }

  lemma {:induction false} LevelsNonEmpty(t: Arena, level: seq<int>, depth: int)
    requires Valid(t) && depth >= 0 && InRange(t, level, depth)
    ensures forall line :: line in Levels(t, level, depth) ==> line != []
    decreases |t.key| - depth
  {
    if level != [] {
      NextAbove(t, level, depth);
      LevelsNonEmpty(t, Next(t, level), depth + 1);
    }
  }

  /** A level of a chain has at most one node, and so has the level below it. */
  lemma {:induction false} ChainNext(t: Arena, level: seq<int>)
    requires Valid(t) && Chain(t) && |level| <= 1 && InRange(t, level, 0)
    ensures |Next(t, level)| <= 1
  {
    if level != [] {
      assert level[..0] == [];
    }
  }

  /** Printing a chain writes one key per line. */
  lemma {:induction false} ChainLevels(t: Arena, level: seq<int>, depth: int)
    requires Valid(t) && Chain(t) && |level| <= 1 && depth >= 0 && InRange(t, level, depth)
    ensures forall line :: line in Levels(t, level, depth) ==> |line| == 1
    decreases |t.key| - depth
  {
    if level != [] {
      NextAbove(t, level, depth);
      ChainNext(t, level);
      ChainLevels(t, Next(t, level), depth + 1);
    }
  }
}
