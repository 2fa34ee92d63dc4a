/**
 * types/graph.c: a `Graph` of node and connection pointers, each array reallocated to one more
 * slot on every append.
 */
module TypesGraph {
  import opened Memory
  import opened CHeap
  import opened CConnections

  /** A `Graph *`. */
  class Graph {
    var nodes: array?<Node?>
    var nNodes: int
    var connections: array?<Connection?>
    var nConnections: int

    /** Each array has exactly as many slots as elements, and is null when empty. */
    predicate Valid()
      reads this
    {
      && 0 <= nNodes && (nodes == null <==> nNodes == 0) && (nodes != null ==> nodes.Length == nNodes)
      && 0 <= nConnections && (connections == null <==> nConnections == 0)
      && (connections != null ==> connections.Length == nConnections)
    }

    function Nodes(): (r: seq<Node?>)
      requires Valid()
      reads this, nodes
      ensures |r| == nNodes
    {
      if nodes == null then [] else nodes[..]
    }

    function Connections(): (r: seq<Connection?>)
      requires Valid()
      reads this, connections
      ensures |r| == nConnections
    {
      if connections == null then [] else connections[..]
    }

    /** `newGraph`: zero nodes and zero connections. */
    constructor()
      ensures Valid() && Nodes() == [] && Connections() == []
    {
      nodes, nNodes, connections, nConnections := null, 0, null, 0;
    }

    /** `addNode`: `n` goes in at the old count; the earlier nodes are kept and the connections untouched. */
    method AddNode(n: Node?)
      requires Valid()
      modifies this
      ensures Valid() && nNodes == old(nNodes) + 1
      ensures Nodes() == old(Nodes()) + [n]
      ensures connections == old(connections) && nConnections == old(nConnections)
    {
      nodes := Expand(nodes, nNodes, nNodes + 1);
      nodes[nNodes] := n;
      nNodes := nNodes + 1;
    }

    /** `addConnection`: `c` goes in at the old count; the earlier connections are kept and the nodes untouched. */
    method AddConnection(c: Connection?)
      requires Valid()
      modifies this
      ensures Valid() && nConnections == old(nConnections) + 1
      ensures Connections() == old(Connections()) + [c]
      ensures nodes == old(nodes) && nNodes == old(nNodes)
    {
      connections := Expand(connections, nConnections, nConnections + 1);
      connections[nConnections] := c;
      nConnections := nConnections + 1;
    }
  }
}
