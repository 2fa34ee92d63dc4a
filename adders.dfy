/**
 * internal/core/adders.go: the same three adders as node_add.go, with the same bodies.
 */
module Adders {
  import opened Wrappers
  import opened Core
  import NodeAdd

  method AddActivity(n: Node, content: Dyn, metadata: Metadata, userId: string, now: int)
    modifies n`entries
    ensures n.entries == old(n.entries) + [Entry(content, metadata, userId, now, [])]
  {
    NodeAdd.AddActivity(n, content, metadata, userId, now);
  }

  method AddChild(n: Node, child: Node) returns (err: Outcome<Error>)
    modifies n`children, n`repr, child`parents
    ensures err == Pass
    ensures child.parents == Some(NodeAdd.WithParent(old(child.parents), old(n.id), old(n.name)))
    ensures n.children == old(n.children)[old(child.id) := child]
    ensures n.repr == old(n.repr) + old(child.repr)
    ensures old(n.Valid() && child.Valid() && n !in child.repr) ==> n.Valid()
  {
    err := NodeAdd.AddChild(n, child);
  }

  method AddParent(n: Node, parent: Node)
    modifies n`parents
    ensures n.parents == Some(NodeAdd.WithParent(old(n.parents), old(parent.id), old(parent.name)))
  {
    NodeAdd.AddParent(n, parent);
  }
}
