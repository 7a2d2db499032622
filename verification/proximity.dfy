/** The read-only adjacency lists of `proximity.json` (`ProximityGraph`). */
module Proximity {

  /** Zone name to the zones listed as its neighbours. Edges are directed:
      nothing adds the reverse edges. */
  datatype ProximityGraph = ProximityGraph(data: map<string, seq<string>>)

  /** `hasNode`: an own key of the data. */
  function HasNode(g: ProximityGraph, name: string): (r: bool)
    ensures r <==> name in g.data
  {
    name in g.data
  }

  /** `getAllNodes`: the keys of the data (as a set; see README on order). */
  function GetAllNodes(g: ProximityGraph): (r: set<string>)
    ensures forall n :: n in r <==> HasNode(g, n)
  {
    g.data.Keys
  }

  /** `getNeighbors`: the stored list of a node, the empty list otherwise.
      Only members of the node set have neighbours, and nothing is added to
      or dropped from a node's stored list. */
  function GetNeighbors(g: ProximityGraph, name: string): (r: seq<string>)
    ensures HasNode(g, name) ==> r == g.data[name]
    ensures !HasNode(g, name) ==> r == []
    ensures name !in GetAllNodes(g) ==> r == []
    ensures r != [] ==> name in GetAllNodes(g)
  {
    if name in g.data then g.data[name] else []
  }

  /** A zone with neighbours is a node: a non-node has none. */
  lemma NeighborsOnlyOfNodes(g: ProximityGraph, a: string, b: string)
    requires b in GetNeighbors(g, a)
    ensures a in GetAllNodes(g)
  {
  }

  /** Adjacency is not symmetrised: with the single edge A -> B, B is a
      neighbour of A but A is not a neighbour of B. */
  lemma NoImplicitReverseEdge()
    ensures var g := ProximityGraph(map["A" := ["B"], "B" := []]);
            "B" in GetNeighbors(g, "A") && "A" !in GetNeighbors(g, "B")
  {
  }
}
