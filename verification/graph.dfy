/**
 * The part of an undirected networkx `Graph` that the network page uses:
 * nodes keyed by name with a type, a colour and a size, and a set of
 * unordered edges.
 */
module Graphs {

  /** The `type` attribute: 'energy', 'Country' or 'sentiment'. */
  datatype Kind = EnergyKind | CountryKind | SentimentKind

  /** The `color` attribute. */
  datatype Color = SkyBlue | Blue | Green | Red

  datatype NodeAttrs = NodeAttrs(kind: Kind, color: Color, size: int)

  /** An undirected edge: the set of its endpoints (a self-loop has one). */
  type Edge = set<string>

  function Pair(u: string, v: string): (p: Edge)
    ensures u in p && v in p
    ensures forall x :: x in p ==> x == u || x == v
  {
    {u, v}
  }

  /** Edges are unordered. */
  lemma PairSymmetric(u: string, v: string)
    ensures Pair(u, v) == Pair(v, u)
  {
  }

  class Graph {
    var nodes: map<string, NodeAttrs>
    var edges: set<Edge>

    /** Every edge joins nodes that are in the graph. */
    ghost predicate Valid()
      reads this
    {
      forall p :: p in edges ==> p <= nodes.Keys
    }

    /** `nx.Graph()`: no nodes and no edges. */
    constructor ()
      ensures Valid()
      ensures nodes == map[] && edges == {}
    {
      nodes := map[];
      edges := {};
    }

    /**
     * `G.add_node(id, type=.., color=.., size=..)`. On a node already present
     * networkx updates its attribute dictionary; every caller passes all three
     * attributes, so the update replaces them.
     */
    method AddNode(id: string, attrs: NodeAttrs)
      requires Valid()
      modifies this
      ensures Valid()
      ensures nodes == old(nodes)[id := attrs]
      ensures edges == old(edges)
    {
      nodes := nodes[id := attrs];
    }

    /**
     * `G.add_edge(u, v)` between two nodes already present. The edge set is a
     * set of unordered pairs, so adding `(v, u)` after `(u, v)`, or either one
     * twice, leaves the graph as it was.
     */
    method AddEdge(u: string, v: string)
      requires Valid()
      requires u in nodes && v in nodes
      modifies this
      ensures Valid()
      ensures nodes == old(nodes)
      ensures edges == old(edges) + {Pair(u, v)}
      ensures old(Pair(v, u) in edges) ==> edges == old(edges)
    {
      PairSymmetric(u, v);
      edges := edges + {Pair(u, v)};
    }
  }
}
