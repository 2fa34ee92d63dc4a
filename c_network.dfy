/** deprecated/types/network.c: `Networks`, an array of exactly `nNetworks` network pointers. */
module CNetworks {
  import opened Memory
  import CGraphs

  /** A `Network *`: its graphs and their count. */
  class Network {
    var graphs: CGraphs.Graphs?
    var nGraphs: int

    constructor(graphs: CGraphs.Graphs?, nGraphs: int)
      ensures this.graphs == graphs && this.nGraphs == nGraphs
    {
      this.graphs, this.nGraphs := graphs, nGraphs;
    }
  }

  class Networks {
    var network: array?<Network?>
    var nNetworks: int

    predicate Valid()
      reads this
    {
      0 <= nNetworks && (network == null <==> nNetworks == 0) && (network != null ==> network.Length == nNetworks)
    }

    function Contents(): (r: seq<Network?>)
      requires Valid()
      reads this, network
      ensures |r| == nNetworks
    {
      if network == null then [] else network[..]
    }

    /** A `Networks` declared and passed to `initNetworks`. */
    constructor()
      ensures Valid() && nNetworks == 0 && Contents() == []
    {
      network, nNetworks := null, 0;
    }

    /** `initNetworks`: no networks and a count of 0. */
    method Init()
      modifies this
      ensures Valid() && nNetworks == 0 && Contents() == []
    {
      network, nNetworks := null, 0;
    }

    /** `addNetwork`: the count grows by one and `net` is stored at the old count; earlier entries are kept. */
    method AddNetwork(net: Network?)
      requires Valid()
      modifies this
      ensures Valid() && nNetworks == old(nNetworks) + 1
      ensures Contents() == old(Contents()) + [net]
    {
      network := Expand(network, nNetworks, nNetworks + 1);
      network[nNetworks] := net;
      nNetworks := nNetworks + 1;
    }
  }
}
