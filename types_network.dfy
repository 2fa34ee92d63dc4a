/** types/network.c: a `Network` holds an array of exactly `n` graph pointers. */
module TypesNetwork {
  import opened Memory
  import TypesGraph

  /** A `Network *`. */
  class Network {
    var graphs: array?<TypesGraph.Graph?>
    var n: int

    predicate Valid()
      reads this
    {
      0 <= n && (graphs == null <==> n == 0) && (graphs != null ==> graphs.Length == n)
    }

    function Graphs(): (r: seq<TypesGraph.Graph?>)
      requires Valid()
      reads this, graphs
      ensures |r| == n
    {
      if graphs == null then [] else graphs[..]
    }

    /** `createNetwork`: no graphs and `n` = 0. */
    constructor()
      ensures Valid() && n == 0 && Graphs() == []
    {
      graphs, n := null, 0;
    }

    /** `addGraph`: `n` grows by exactly one and `graph` is stored at the old `n`; earlier graphs are kept. */
    method AddGraph(graph: TypesGraph.Graph?)
      requires Valid()
      modifies this
      ensures Valid() && n == old(n) + 1
      ensures Graphs() == old(Graphs()) + [graph]
    {
      graphs := Expand(graphs, n, n + 1);
      graphs[n] := graph;
      n := n + 1;
    }
  }
}
