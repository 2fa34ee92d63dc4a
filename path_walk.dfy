/**
 * The walk from the forest root along a "/"-separated path of child names, which
 * internal/api_helpers.go, internal/helpers.go and app.go each write out as the same loop:
 * every segment must be the Name (not the ID) of a child of the node reached so far.
 * Children live in a Go map, so among children with the same name the walk takes any one.
 */
module PathWalk {
  import opened Wrappers
  import opened Strings
  import opened Core

  /** Following `parts` from `n`, one child of the given name at a time, can end at `t`. */
  ghost predicate Reaches(n: Node, parts: seq<string>, t: Node)
    requires n.Valid()
    reads n.repr
    decreases |parts|
  {
    if parts == [] then t == n
    else exists c :: c in n.children.Values && c.name == parts[0] && Reaches(c, parts[1..], t)
  }

  /** Following `parts` from `n` can arrive at a node that has no child named by the next part. */
  ghost predicate Blocked(n: Node, parts: seq<string>)
    requires n.Valid()
    reads n.repr
    decreases |parts|
  {
    parts != [] &&
    ((forall c :: c in n.children.Values ==> c.name != parts[0]) ||
     exists c :: c in n.children.Values && c.name == parts[0] && Blocked(c, parts[1..]))
  }

  /** A node reached along a path is part of the subtree and a valid node itself. */
  lemma {:induction false} ReachedInside(n: Node, parts: seq<string>, t: Node)
    requires n.Valid() && Reaches(n, parts, t)
    ensures t in n.repr && t.Valid() && t.repr <= n.repr
    decreases |parts|
  {
    if parts != [] {
      var c :| c in n.children.Values && c.name == parts[0] && Reaches(c, parts[1..], t);
      ReachedInside(c, parts[1..], t);
    }
  }

  /** One more step: a child named by the next segment extends the walk. */
  lemma {:induction false} ReachesExtend(n: Node, parts: seq<string>, i: nat, t: Node, c: Node)
    requires n.Valid() && i < |parts| && Reaches(n, parts[..i], t)
    requires t.Valid() && c in t.children.Values && c.name == parts[i]
    ensures Reaches(n, parts[..i + 1], c)
    decreases i
  {
    if i == 0 {
      assert parts[..0] == [] && t == n;
      assert parts[..1][1..] == [] && Reaches(c, parts[..1][1..], c);
    } else {
      var d :| d in n.children.Values && d.name == parts[0] && Reaches(d, parts[..i][1..], t);
      assert parts[..i][1..] == parts[1..][..i - 1];
      ReachesExtend(d, parts[1..], i - 1, t, c);
      assert parts[..i + 1][1..] == parts[1..][..i];
    }
  }

  /** A node reached by a prefix that has no child named by the next segment blocks the whole path. */
  lemma {:induction false} BlockedAt(n: Node, parts: seq<string>, i: nat, t: Node)
    requires n.Valid() && i < |parts| && Reaches(n, parts[..i], t)
    requires t.Valid() && forall c :: c in t.children.Values ==> c.name != parts[i]
    ensures Blocked(n, parts)
    decreases i
  {
    if i > 0 {
      var d :| d in n.children.Values && d.name == parts[0] && Reaches(d, parts[..i][1..], t);
      assert parts[..i][1..] == parts[1..][..i - 1];
      BlockedAt(d, parts[1..], i - 1, t);
    }
  }

  /** Every walk either completes or gets stuck somewhere. */
  lemma {:induction false} ReachesOrBlocked(n: Node, parts: seq<string>)
    requires n.Valid()
    ensures Blocked(n, parts) || exists t :: Reaches(n, parts, t)
    decreases |parts|
  {
    if parts == [] {
      assert Reaches(n, parts, n);
    } else if c :| c in n.children.Values && c.name == parts[0] {
      ReachesOrBlocked(c, parts[1..]);
      if !Blocked(c, parts[1..]) {
        var t :| Reaches(c, parts[1..], t);
        assert Reaches(n, parts, t);
      }
    }
  }

  /** No two children of a node in the subtree share a name. */
  ghost predicate UniqueNames(n: Node)
    requires n.Valid()
    reads n.repr
    decreases n.repr
  {
    && (forall c, d :: c in n.children.Values && d in n.children.Values && c.name == d.name ==> c == d)
    && (forall c :: c in n.children.Values ==> UniqueNames(c))
  }

  /** With unique names the walk is determined: it cannot both complete and get stuck. */
  lemma {:induction false} UniqueWalk(n: Node, parts: seq<string>, t: Node)
    requires n.Valid() && UniqueNames(n) && Reaches(n, parts, t)
    ensures !Blocked(n, parts)
    decreases |parts|
  {
    if parts != [] {
      var c :| c in n.children.Values && c.name == parts[0] && Reaches(c, parts[1..], t);
      UniqueWalk(c, parts[1..], t);
    }
  }

  /**
   * The traversal loop of `getNodeFromPath`: the root for an empty path; otherwise, segment by
   * segment, some child with that name, or "node not found" once a segment names no child.
   */
  method Walk(root: Node, path: string) returns (r: Result<Node, Error>)
    requires root.Valid()
    ensures path == "" ==> r == Ok(root)
    ensures path != "" && r.Ok? ==> Reaches(root, Split(path, "/"), r.value)
    ensures path != "" && r.Err? ==> r.error == NodeNotFound(path) && Blocked(root, Split(path, "/"))
  {
    if path == "" {
      return Ok(root);
    }
    var parts := Split(path, "/");
    var current := root;
    var i := 0;
    assert parts[..0] == [];
    while i < |parts|
      invariant 0 <= i <= |parts|
      invariant current.Valid() && Reaches(root, parts[..i], current)
    {
      var part := parts[i];
      var found := false;
      // the children are the values of a Go map, visited in no fixed order
      var todo := current.children.Values;
      while todo != {}
        invariant todo <= current.children.Values
        invariant forall c :: c in current.children.Values && c !in todo ==> c.name != part
        decreases |todo|
      {
        var child :| child in todo;
        if child.name == part {
          ReachesExtend(root, parts, i, current, child);
          current, found := child, true;
          break;
        }
        todo := todo - {child};
      }
      if !found {
        BlockedAt(root, parts, i, current);
        return Err(NodeNotFound(path));
      }
      ReachedInside(root, parts[..i + 1], current);
      i := i + 1;
    }
    assert parts[..i] == parts;
    return Ok(current);
  }
}
