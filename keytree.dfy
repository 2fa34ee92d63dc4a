/**
 * keytree.cpp: `KeyTree`, whose `KeyNode`s are linked by `parent` pointers and `children`
 * vectors that `insert` and `remove` change in place. The nodes live in an arena indexed by
 * handle (see `KeyTreeSpec`); every method is proved against the function there that says what
 * it does.
 */
module KeyTrees {
  import opened Keys
  import opened KeyTreeSpec
  import opened CppTypes

  class KeyTree {
    var key: seq<KeyType>
    var parent: seq<int>
    var children: seq<seq<nat>>
    var root: int

    /** The nodes and the root as a value. */
    function Tree(): Arena
      reads this
    {
      Arena(key, parent, children, root)
    }

    predicate Valid()
      reads this
    {
      KeyTreeSpec.Valid(Tree())
    }

    /** `KeyTree()`: the root is a fresh node whose key is `NULL`, the integer 0. */
    constructor()
      ensures Valid() && Tree() == Arena([IntKey(0)], [-1], [[]], 0)
    {
      key, parent, children, root := [IntKey(0)], [-1], [[]], 0;
      new;
      assert NodeOk(Tree(), 0);
    }

    /** `KeyTree(KeyType root_key)`: the root is a fresh node carrying `k`. */
    constructor FromKey(k: KeyType)
      ensures Valid() && Tree() == Arena([k], [-1], [[]], 0)
    {
      key, parent, children, root := [k], [-1], [[]], 0;
      new;
      assert NodeOk(Tree(), 0);
    }

    /** `KeyTree(nullptr)`: no root. */
    constructor Empty()
      ensures Valid() && Tree() == Arena([], [], [], -1)
    {
      key, parent, children, root := [], [], [], -1;
    }

    /**
     * `insert(new KeyNode(k))`: walks from the root, smaller keys to the first child and larger
     * keys to the last; attaches the node at a leaf, or returns the node with an equal key.
     */
    method Insert(k: KeyType) returns (r: int)
      requires Valid()
      modifies this
      ensures Valid() && (Tree(), r) == InsertSpec(old(Tree()), k)
    {
      ghost var t := Tree();
      LessIrreflexive(k);
      var n := |key|;
      key, parent, children := key + [k], parent + [-1], children + [[]];
      assert Tree() == Allocate(t, k);
      if root == -1 {
        root := n;
        assert Tree() == InsertSpec(t, k).0;
        return n;
      }
      var current := root;
      while true
        invariant 0 <= current < n && key == t.key + [k] && parent == t.parent + [-1]
        invariant children == t.children + [[]] && root == t.root
        invariant PathEnd(t, k, current) == PathEnd(t, k, t.root)
        decreases n - current
      {
        assert NodeOk(t, current);
        var cs := children[current];
        if Less(k, key[current]) {
          if |cs| == 0 {
            assert PathEnd(t, k, current) == current;
            children := children[current := [n]];
            parent := parent[n := current];
            assert Tree() == Attach(t, k, current);
            return n;
          }
          assert cs[0] in cs;
          current := cs[0];
        } else if Less(key[current], k) {
          if |cs| == 0 {
            assert PathEnd(t, k, current) == current;
            children := children[current := [n]];
            parent := parent[n := current];
            assert Tree() == Attach(t, k, current);
            return n;
          }
          assert cs[|cs| - 1] in cs;
          current := cs[|cs| - 1];
        } else {
          Trichotomy(k, key[current]);
          return current;
        }
      }
    }

    /** `search(k)`: the same walk; the node carrying `k` where it stops, or -1 (`nullptr`). */
    method Search(k: KeyType) returns (r: int)
      requires Valid()
      ensures r == Found(Tree(), k)
    {
      LessIrreflexive(k);
      if root == -1 {
        return -1;
      }
      var current := root;
      while true
        invariant 0 <= current < |key|
        invariant PathEnd(Tree(), k, current) == PathEnd(Tree(), k, root)
        decreases |key| - current
      {
        assert NodeOk(Tree(), current);
        var cs := children[current];
        if Less(k, key[current]) {
          if |cs| == 0 {
            return -1;
          }
          assert cs[0] in cs;
          current := cs[0];
        } else if Less(key[current], k) {
          if |cs| == 0 {
            return -1;
          }
          assert cs[|cs| - 1] in cs;
          current := cs[|cs| - 1];
        } else {
          Trichotomy(k, key[current]);
          return current;
        }
      }
    }

    /** `hasDescendant(id)` on `node`: some node of its subtree, itself included, carries `id`. */
    method HasDescendantFrom(node: int, id: KeyType) returns (b: bool)
      requires Valid() && 0 <= node < |key|
      ensures b == HasDescendant(Tree(), node, id)
      decreases |key| - node
    {
      if key[node] == id {
        return true;
      }
      assert NodeOk(Tree(), node);
      var cs := children[node];
      assert forall a :: 0 <= a < |cs| ==> cs[a] in cs;
      var j := 0;
      while j < |cs|
        invariant 0 <= j <= |cs|
        invariant forall a :: 0 <= a < |cs| ==> node < cs[a] < |key|
        invariant forall a :: 0 <= a < j ==> !HasDescendant(Tree(), cs[a], id)
      {
        assert cs[j] in cs;
        b := HasDescendantFrom(cs[j], id);
        if b {
          return true;
        }
        j := j + 1;
      }
      return false;
    }

    /**
     * One pass of the unlinking code: a lone child of `p` is cleared whatever it is; otherwise
     * the first occurrence of `c` is erased.
     */
    method Detach(p: int, c: nat)
      requires Valid() && 0 <= p < |key|
      modifies this
      ensures Valid() && Tree() == Detached(old(Tree()), p, c)
    {
      ghost var t := Tree();
      var cs := children[p];
      if |cs| == 1 {
        children := children[p := []];
        assert Tree() == Detached(t, p, c);
        return;
      }
      var i := 0;
      while i < |cs|
        invariant 0 <= i <= |cs| && c !in cs[..i] && Tree() == t
      {
        if cs[i] == c {
          EraseFirstAt(cs, c, i);
          children := children[p := cs[..i] + cs[i + 1..]];
          assert Tree() == Detached(t, p, c);
          return;
        }
        assert cs[..i + 1] == cs[..i] + [cs[i]];
        i := i + 1;
      }
      assert cs[..i] == cs;
    }

    /** The replacement: from `c`, the last child again and again down to a leaf. */
    method FindReplacement(c: int) returns (rep: int)
      requires Valid() && 0 <= c < |key|
      ensures rep == RightmostLeaf(Tree(), c)
    {
      rep := c;
      while |children[rep]| > 0
        invariant c <= rep < |key| && RightmostLeaf(Tree(), rep) == RightmostLeaf(Tree(), c)
        decreases |key| - rep
      {
        assert NodeOk(Tree(), rep);
        var cs := children[rep];
        assert cs[|cs| - 1] in cs;
        rep := cs[|cs| - 1];
      }
    }

    /** The matched node is unlinked from its parent `p`, and again on the loop's next pass. */
    method UnlinkTwice(p: int, c: nat)
      requires Valid() && 0 <= p < |key|
      modifies this
      ensures Valid() && Tree() == Detached(Detached(old(Tree()), p, c), p, c)
    {
      Detach(p, c);
      Detach(p, c);
    }

    /**
     * The promotion step: `current` takes the key of its replacement, which is unlinked from its
     * parent; in the `char` overload, a replacement with siblings is undefined behaviour instead.
     */
    method Promote(current: int, charOverload: bool) returns (undefined: bool)
      requires Valid() && 0 <= current < |key| && |children[current]| >= 2
      modifies this
      ensures Valid()
      ensures var t := old(Tree());
        var rep := Replacement(t, current);
        && undefined == (charOverload && |t.children[t.parent[rep]]| != 1)
        && Tree() == if undefined then Promoted(t, current, rep)
                     else Detached(Promoted(t, current, rep), t.parent[rep], rep)
      ensures !undefined ==> Edges(children) < Edges(old(children))
    {
      ghost var t := Tree();
      assert NodeOk(t, current) && children[current][0] in children[current];
      var replacement := FindReplacement(children[current][0]);
      assert replacement == Replacement(t, current);
      var p := parent[replacement];
      key := key[current := key[replacement]];
      assert Tree() == Promoted(t, current, replacement);
      if charOverload && |children[p]| != 1 {
        return true;
      }
      Detach(p, replacement);
      return false;
    }

    /** The loop shared by the three `remove` overloads; `charOverload` selects `remove(char)`. */
    method RemoveLoop(id: KeyType, charOverload: bool) returns (outcome: Outcome)
      requires Valid()
      modifies this
      ensures Valid() && (outcome, Tree()) == RemoveSpec(old(Tree()), id, charOverload)
    {
      if root == -1 {
        return Returned;
      }
      var current := root;
      var found := HasDescendantFrom(current, id);
      if !found {
        return Returned;
      }
      while true
        invariant Valid() && 0 <= current < |key|
        invariant RemoveFrom(Tree(), current, id, charOverload) == RemoveSpec(old(Tree()), id, charOverload)
        decreases Edges(children), |key| - current
      {
        var done, result, next := RemoveStep(current, id, charOverload);
        if done {
          return result;
        }
        current := next;
      }
    }

    /**
     * One pass of `remove`'s loop at `current`: either the loop ends with `result`, or it goes on
     * at `next`, one level down or at the same node with one edge fewer.
     */
    method RemoveStep(current: int, id: KeyType, charOverload: bool) returns (done: bool, result: Outcome, next: int)
      requires Valid() && 0 <= current < |key|
      modifies this
      ensures Valid() && |key| == old(|key|)
      ensures done ==> (result, Tree()) == RemoveFrom(old(Tree()), current, id, charOverload)
      ensures !done ==> 0 <= next < |key| && RemoveFrom(Tree(), next, id, charOverload) == RemoveFrom(old(Tree()), current, id, charOverload)
      ensures !done ==> Edges(children) < old(Edges(children)) || (Edges(children) == old(Edges(children)) && next > current)
    {
      assert NodeOk(Tree(), current);
      var cs := children[current];
      next := current;
      if Less(id, key[current]) {
        if |cs| == 0 {
          return true, Returned, next;
        }
        assert cs[0] in cs;
        return false, Returned, cs[0];
      } else if Less(key[current], id) {
        if |cs| == 0 {
          return true, Returned, next;
        }
        assert cs[|cs| - 1] in cs;
        return false, Returned, cs[|cs| - 1];
      } else if |cs| <= 1 {
        var p := parent[current];
        if p == -1 {
          return true, NullParent, next;
        }
        UnlinkTwice(p, current);
        return true, Diverges, next;
      } else {
        var undefined := Promote(current, charOverload);
        return undefined, Undefined, next;
      }
    }

    /** `remove(int id)`. */
    method RemoveInt(id: int32) returns (outcome: Outcome)
      requires Valid()
      modifies this
      ensures Valid() && (outcome, Tree()) == RemoveSpec(old(Tree()), IntKey(id), false)
    {
      outcome := RemoveLoop(IntKey(id), false);
    }

    /** `remove(char id)`: the overload whose promotion step erases through the wrong vector. */
    method RemoveChar(id: int8) returns (outcome: Outcome)
      requires Valid()
      modifies this
      ensures Valid() && (outcome, Tree()) == RemoveSpec(old(Tree()), CharKey(id), true)
    {
      outcome := RemoveLoop(CharKey(id), true);
    }

    /** `remove(std::string id)`. */
    method RemoveString(id: string) returns (outcome: Outcome)
      requires Valid()
      modifies this
      ensures Valid() && (outcome, Tree()) == RemoveSpec(old(Tree()), StringKey(id), false)
    {
      outcome := RemoveLoop(StringKey(id), false);
    }

    /** `print`: one line per level from the root down, each node's children in vector order. */
    method Print() returns (lines: seq<seq<KeyType>>)
      requires Valid()
      ensures lines == PrintSpec(Tree())
    {
      if root == -1 {
        return [];
      }
      ghost var t := Tree();
      var currentLevel := [root];
      lines := [];
      ghost var depth := 0;
      while |currentLevel| > 0
        invariant depth >= 0 && InRange(t, currentLevel, depth)
        invariant lines + Levels(t, currentLevel, depth) == Levels(t, [root], 0)
        decreases |key| - depth
      {
        var line, nextLevel := PrintLevel(currentLevel);
        NextAbove(t, currentLevel, depth);
        assert Levels(t, currentLevel, depth) == [line] + Levels(t, nextLevel, depth + 1);
        lines := lines + [line];
        currentLevel := nextLevel;
        depth := depth + 1;
      }
    }

    /** One line of `print`: the keys of a level, and the level below it. */
    method PrintLevel(level: seq<int>) returns (line: seq<KeyType>, next: seq<int>)
      requires Valid() && InRange(Tree(), level, 0)
      ensures line == KeysOf(Tree(), level) && next == Next(Tree(), level)
    {
      ghost var t := Tree();
      line, next := [], [];
      var i := 0;
      while i < |level|
        invariant 0 <= i <= |level|
        invariant line == KeysOf(t, level[..i])
        invariant next == Next(t, level[..i])
      {
        var node := level[i];
        line := line + [key[node]];
        next := next + children[node];
        assert level[..i + 1][..i] == level[..i];
        i := i + 1;
      }
      assert level[..i] == level;
    }
  }

  /** `insert` followed by `search` for the same key finds the node `insert` returned. */
  method InsertThenSearchIn(tree: KeyTree, k: KeyType) returns (inserted: int, found: int)
    requires tree.Valid()
    modifies tree
    ensures inserted == found
  {
    ghost var t := tree.Tree();
    inserted := tree.Insert(k);
    InsertThenSearch(t, k);
    found := tree.Search(k);
  }
}
