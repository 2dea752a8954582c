/** What can be reached in a graph given by its set of edges. */
module Reachability {

  type Edges = iset<(string, string)>

  ghost predicate IsPath(edges: Edges, path: seq<string>) {
    path != [] && forall k :: 0 <= k < |path| - 1 ==> (path[k], path[k+1]) in edges
  }

  ghost predicate Reachable(edges: Edges, roots: set<string>, node: string) {
    exists path :: IsPath(edges, path) && path[0] in roots && path[|path|-1] == node
  }

  /** Every edge that leaves `nodes` ends in `within`. */
  ghost predicate Closed(edges: Edges, nodes: set<string>, within: set<string>) {
    forall edge :: edge in edges && edge.0 in nodes ==> edge.1 in within
  }

  lemma RootIsReachable(edges: Edges, roots: set<string>, root: string)
    requires root in roots
    ensures Reachable(edges, roots, root)
  {
    assert IsPath(edges, [root]) && [root][0] in roots;
  }

  lemma EdgeIsReachable(edges: Edges, roots: set<string>, from: string, to: string)
    requires Reachable(edges, roots, from) && (from, to) in edges
    ensures Reachable(edges, roots, to)
  {
    var path :| IsPath(edges, path) && path[0] in roots && path[|path|-1] == from;
    var longer := path + [to];
    assert IsPath(edges, longer) && longer[0] in roots && longer[|longer|-1] == to;
  }

  lemma MoreRootsReachMore(edges: Edges, roots: set<string>, more: set<string>, node: string)
    requires roots <= more && Reachable(edges, roots, node)
    ensures Reachable(edges, more, node)
  {
    var path :| IsPath(edges, path) && path[0] in roots && path[|path|-1] == node;
    assert path[0] in more;
  }

  lemma {:induction false} ClosedHoldsPath(edges: Edges, nodes: set<string>, path: seq<string>)
    requires Closed(edges, nodes, nodes) && IsPath(edges, path) && path[0] in nodes
    ensures path[|path|-1] in nodes
    decreases |path|
  {
    if |path| > 1 {
      assert (path[0], path[1]) in edges;
      ClosedHoldsPath(edges, nodes, path[1..]);
    }
  }

  /** A closed set that holds the roots holds everything reachable from them. */
  lemma ClosedHoldsReachable(edges: Edges, roots: set<string>, nodes: set<string>)
    requires roots <= nodes && Closed(edges, nodes, nodes)
    ensures forall node :: Reachable(edges, roots, node) ==> node in nodes
  {
    forall node | Reachable(edges, roots, node) ensures node in nodes {
      var path :| IsPath(edges, path) && path[0] in roots && path[|path|-1] == node;
      ClosedHoldsPath(edges, nodes, path);
    }
  }
}
