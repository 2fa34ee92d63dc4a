/**
 * internal/core/node_add.go: adding activity entries, children, parents and users to a `Node`.
 */
module NodeAdd {
  import opened Wrappers
  import opened Core
  import opened NodeSpec
  import NodeFn

  /** The parent map after recording `parentId -> parentName`; a nil map is created first. */
  function WithParent(parents: Option<map<string, string>>, parentId: string, parentName: string): (r: map<string, string>)
    ensures parentId in r && r[parentId] == parentName
    ensures parents.Some? ==> r.Keys == parents.value.Keys + {parentId}
    ensures parents.None? ==> r.Keys == {parentId}
    ensures parents.Some? ==> forall k :: k in parents.value && k != parentId ==> r[k] == parents.value[k]
  {
    var m := if parents.None? then map[] else parents.value;
    m[parentId := parentName]
  }

  /** Appends one entry with the given content, metadata and user, stamped `now`. */
  method AddActivity(n: Node, content: Dyn, metadata: Metadata, userId: string, now: int)
    modifies n`entries
    ensures n.entries == old(n.entries) + [Entry(content, metadata, userId, now, [])]
  {
    var entry := Entry(content, metadata, userId, now, []);
    n.entries := n.entries + [entry];
  }

  /** Records `parent` in the node's parent map, creating the map when it is nil. */
  method AddParent(n: Node, parent: Node)
    modifies n`parents
    ensures n.parents == Some(WithParent(old(n.parents), old(parent.id), old(parent.name)))
  {
    if n.parents == None {
      n.parents := Some(map[]);
    }
    n.parents := Some(n.parents.value[parent.id := parent.name]);
  }

  /**
   * Links `child` below `n`: the child records `n` as a parent and is stored under its own ID,
   * replacing any child with that ID. When `n` was a valid tree, the child is one and does not
   * contain `n`, the result is again a valid tree.
   */
  method AddChild(n: Node, child: Node) returns (err: Outcome<Error>)
    modifies n`children, n`repr, child`parents
    ensures err == Pass
    ensures child.parents == Some(WithParent(old(child.parents), old(n.id), old(n.name)))
    ensures n.children == old(n.children)[old(child.id) := child]
    ensures n.repr == old(n.repr) + old(child.repr)
    ensures old(n.Valid() && child.Valid() && n !in child.repr) ==> n.Valid()
  {
    AddParent(child, n);
    n.children := n.children[child.id := child];
    n.repr := n.repr + child.repr;
    return Pass;
  }

  /** The same permissive assignment as node_fn.go's `AssignUser`; the passed permissions are dropped. */
  method AddUser(n: Node, user: User, permission: Permission) returns (err: Outcome<Error>)
    modifies n`users
    ensures err == Pass && n.users == AssignPermissive(old(n.users), user, permission)
  {
    err := NodeFn.AssignUser(n, user, permission);
  }
}
