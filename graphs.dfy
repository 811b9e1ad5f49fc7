/** The adjacency dict shared by the conflict graph builder and the colourer: ROI name -> neighbour names. */
module Graphs {

  type Graph = map<string, set<string>>

  /** Every edge is stored at both ends. */
  predicate Symmetric(g: Graph)
  {
    forall a, b :: a in g && b in g[a] ==> b in g && a in g[b]
  }

  predicate Loopless(g: Graph)
  {
    forall a :: a in g ==> a !in g[a]
  }
}
