/**
  Which style modules are in use: those imported directly, and those whose classes a module in use
  composes.  Production and test use are traced in one loop.
 */
module Composes {
  import opened Reachability

  datatype Edge = Edge(source: string, target: string)

  ghost function Pairs(edges: seq<Edge>): Edges {
    iset k | 0 <= k < |edges| :: (edges[k].source, edges[k].target)
  }

  ghost function Targets(edges: seq<Edge>): set<string> {
    set k | 0 <= k < |edges| :: edges[k].target
  }

  /** Grown from the seeds along edges, so nothing in it is unreachable. */
  ghost predicate Traced(edges: seq<Edge>, seeds: set<string>, reached: set<string>) {
    seeds <= reached && forall m :: m in reached ==> Reachable(Pairs(edges), seeds, m)
  }

  /** The first `n` edges lead nowhere new. */
  ghost predicate Settled(edges: seq<Edge>, n: nat, reached: set<string>) {
    forall k :: 0 <= k < |edges| && k < n && edges[k].source in reached ==> edges[k].target in reached
  }

  /** The least set that holds the seeds and is closed under the edges, and exactly what paths reach. */
  ghost predicate IsClosure(edges: seq<Edge>, seeds: set<string>, reached: set<string>) {
    && (forall m :: m in reached <==> Reachable(Pairs(edges), seeds, m))
    && seeds <= reached && Settled(edges, |edges|, reached)
    && (forall other: set<string> :: seeds <= other && Settled(edges, |edges|, other) ==> reached <= other)
  }

  lemma SettledIsClosed(edges: seq<Edge>, reached: set<string>)
    requires Settled(edges, |edges|, reached)
    ensures Closed(Pairs(edges), reached, reached)
  {
  }

  lemma TracedIsClosure(edges: seq<Edge>, seeds: set<string>, reached: set<string>)
    requires Traced(edges, seeds, reached) && Settled(edges, |edges|, reached)
    ensures IsClosure(edges, seeds, reached)
  {
    SettledIsClosed(edges, reached);
    ClosedHoldsReachable(Pairs(edges), seeds, reached);
    forall other: set<string> | seeds <= other && Settled(edges, |edges|, other) ensures reached <= other {
      SettledIsClosed(edges, other);
      ClosedHoldsReachable(Pairs(edges), seeds, other);
    }
  }

  lemma Follow(edges: seq<Edge>, seeds: set<string>, reached: set<string>, k: nat)
    requires k < |edges| && Traced(edges, seeds, reached) && edges[k].source in reached
    ensures Traced(edges, seeds, reached + {edges[k].target})
  {
    assert (edges[k].source, edges[k].target) in Pairs(edges);
    EdgeIsReachable(Pairs(edges), seeds, edges[k].source, edges[k].target);
  }

  /** One more edge looked at: followed if it leads somewhere new. */
  method Follows(edges: seq<Edge>, i: nat, ghost seeds: set<string>, reached: set<string>)
    returns (grown: set<string>, changed: bool)
    requires i < |edges| && Traced(edges, seeds, reached)
    ensures changed <==> edges[i].source in reached && edges[i].target !in reached
    ensures grown == if changed then reached + {edges[i].target} else reached
    ensures Traced(edges, seeds, grown)
    ensures !changed && Settled(edges, i, reached) ==> Settled(edges, i + 1, reached)
    ensures changed ==> Targets(edges) - grown < Targets(edges) - reached
  {
    grown, changed := reached, false;
    if edges[i].source in reached && edges[i].target !in reached {
      Follow(edges, seeds, reached, i);
      grown, changed := reached + {edges[i].target}, true;
      assert edges[i].target in Targets(edges);
    }
  }

  lemma SeedsAreTraced(edges: seq<Edge>, seeds: set<string>)
    ensures Traced(edges, seeds, seeds)
  {
    forall m | m in seeds ensures Reachable(Pairs(edges), seeds, m) {
      RootIsReachable(Pairs(edges), seeds, m);
    }
  }

  method Trace(edges: seq<Edge>, production: set<string>, test: set<string>)
    returns (productionReachable: set<string>, testReachable: set<string>)
    ensures IsClosure(edges, production, productionReachable)
    ensures IsClosure(edges, test, testReachable)
  {
    hide Traced, IsClosure;
    productionReachable, testReachable := production, test;
    SeedsAreTraced(edges, production);
    SeedsAreTraced(edges, test);
    var changed := true;
    while changed
      invariant Traced(edges, production, productionReachable) && Traced(edges, test, testReachable)
      invariant !changed ==> Settled(edges, |edges|, productionReachable) && Settled(edges, |edges|, testReachable)
      decreases Targets(edges) - productionReachable, Targets(edges) - testReachable, changed
    {
      changed := false;
      ghost var p0, t0 := productionReachable, testReachable;
      var i := 0;
      while i < |edges|
        invariant 0 <= i <= |edges|
        invariant Traced(edges, production, productionReachable) && Traced(edges, test, testReachable)
        invariant p0 <= productionReachable && t0 <= testReachable
        invariant !changed ==> productionReachable == p0 && testReachable == t0
        invariant !changed ==> Settled(edges, i, p0) && Settled(edges, i, t0)
        invariant changed ==> Targets(edges) - productionReachable < Targets(edges) - p0
                              || (productionReachable == p0 && Targets(edges) - testReachable < Targets(edges) - t0)
      {
        var inProduction, inTest;
        productionReachable, inProduction := Follows(edges, i, production, productionReachable);
        testReachable, inTest := Follows(edges, i, test, testReachable);
        changed := changed || inProduction || inTest;
        i := i + 1;
      }
    }
    TracedIsClosure(edges, production, productionReachable);
    TracedIsClosure(edges, test, testReachable);
  }
}
