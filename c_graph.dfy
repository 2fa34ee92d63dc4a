/**
 * deprecated/types/graph.c: a `Graph` keeps arrays of node and connection pointers and
 * `Graphs` an array of graph pointers; each append reallocates its array to one more slot.
 */
module CGraphs {
  import opened Memory
  import opened CHeap
  import CKeys
  import opened CConnections

  /** A `Graph *`. */
  class Graph {
    var key: CKeys.Key?
    var nodes: array?<Node?>
    var nNodes: int
    var connections: array?<Connection?>
    var nConnections: int

    /** Each array has exactly as many slots as elements, and is null when empty. */
    predicate Valid()
      reads this
    {
      && 0 <= nNodes && (nodes == null <==> nNodes == 0) && (nodes != null ==> nodes.Length == nNodes)
      && 0 <= nConnections && (connections == null <==> nConnections == 0)
      && (connections != null ==> connections.Length == nConnections)
    }

    function Nodes(): (r: seq<Node?>)
      requires Valid()
      reads this, nodes
      ensures |r| == nNodes
    {
      if nodes == null then [] else nodes[..]
    }

    function Connections(): (r: seq<Connection?>)
      requires Valid()
      reads this, connections
      ensures |r| == nConnections
    {
      if connections == null then [] else connections[..]
    }

    /** `newGraph`: a freshly allocated graph passed through `initGraph`. */
    constructor()
      ensures Valid() && key == null && Nodes() == [] && Connections() == []
    {
      key, nodes, nNodes, connections, nConnections := null, null, 0, null, 0;
    }

    /** `initGraph`: no key, no nodes, no connections. */
    method Init()
      modifies this
      ensures Valid() && key == null && Nodes() == [] && Connections() == []
    {
      key, nodes, nNodes, connections, nConnections := null, null, 0, null, 0;
    }

    /** `addNode`: one more slot, holding `n`; the earlier nodes are kept and the connections untouched. */
    method AddNode(n: Node?)
      requires Valid()
      modifies this
      ensures Valid() && nNodes == old(nNodes) + 1
      ensures Nodes() == old(Nodes()) + [n]
      ensures key == old(key) && connections == old(connections) && nConnections == old(nConnections)
    {
      nodes := Expand(nodes, nNodes, nNodes + 1);
      nodes[nNodes] := n;
      nNodes := nNodes + 1;
    }

    /** `addConnection`: one more slot, holding `c`; the earlier connections are kept and the nodes untouched. */
    method AddConnection(c: Connection?)
      requires Valid()
      modifies this
      ensures Valid() && nConnections == old(nConnections) + 1
      ensures Connections() == old(Connections()) + [c]
      ensures key == old(key) && nodes == old(nodes) && nNodes == old(nNodes)
    {
      connections := Expand(connections, nConnections, nConnections + 1);
      connections[nConnections] := c;
      nConnections := nConnections + 1;
    }
  }

  /** `Graphs`: an array of exactly `nGraphs` graph pointers. */
  class Graphs {
    var graph: array?<Graph?>
    var nGraphs: int

    predicate Valid()
      reads this
    {
      0 <= nGraphs && (graph == null <==> nGraphs == 0) && (graph != null ==> graph.Length == nGraphs)
    }

    function Contents(): (r: seq<Graph?>)
      requires Valid()
      reads this, graph
      ensures |r| == nGraphs
    {
      if graph == null then [] else graph[..]
    }

    /** A `Graphs` declared and passed to `initGraphs`. */
    constructor()
      ensures Valid() && Contents() == []
    {
      graph, nGraphs := null, 0;
    }

    /** `initGraphs`: no graphs. */
    method Init()
      modifies this
      ensures Valid() && Contents() == []
    {
      graph, nGraphs := null, 0;
    }

    /** `addGraph`: exactly one more slot, holding `g` at the old count; the earlier graphs are kept. */
    method AddGraph(g: Graph?)
      requires Valid()
      modifies this
      ensures Valid() && nGraphs == old(nGraphs) + 1
      ensures Contents() == old(Contents()) + [g]
    {
      graph := Expand(graph, nGraphs, nGraphs + 1);
      graph[nGraphs] := g;
      nGraphs := nGraphs + 1;
    }
  }
}
