/**
  The route a search returns, and when its total is a shortest distance.
 */
module Routes {
  import opened Options
  import opened Graphs
  import opened ShortestPath
  import opened SearchInvariant
  import opened SearchTree
  import opened ShortestLabels

  /** `weight` is the route_weight field: the cost from this vertex to the target, except at the target. */
  datatype RouteNode = RouteNode(id: Id, weight: int, hops: nat)

  type Route = seq<RouteNode>

  /**
    The route_ptr list, target first: distinct vertices joined by real edges, hop counts rising by one,
    and every remaining weight the exact sum of the edge weights down to the target.  The target itself
    carries the total.
   */
  ghost predicate IsRoute(g: Graph, s: Id, t: Id, r: Route) {
    && |r| >= 2
    && r[0].id == t && r[|r| - 1].id == s
    && DistinctIds(r)
    && (forall k :: 0 <= k < |r| ==> r[k].hops == k)
    && r[0].weight == r[|r| - 1].weight
    && forall k {:trigger RouteHop(g, r, k)} :: RouteHop(g, r, k)
  }

  ghost predicate RouteHop(g: Graph, r: Route, k: int) {
    0 < k < |r| ==>
      && HasEdge(g, r[k].id, r[k - 1].id)
      && r[k].weight == (if k == 1 then 0 else r[k - 1].weight) + EdgeWeight(g, r[k].id, r[k - 1].id)
  }

  ghost predicate DifferentIds(r: Route, i: int, j: int) {
    0 <= i < j < |r| ==> r[i].id != r[j].id
  }

  ghost predicate DistinctIds(r: Route) {
    forall i, j {:trigger DifferentIds(r, i, j)} :: DifferentIds(r, i, j)
  }

  /** The list built while walking up from the last vertex of `p`. */
  ghost function RouteAlong(s: Search, p: seq<Id>): (r: Route)
    requires p != []
    ensures |r| == |p|
  {
    var total := Label(s, p[|p| - 1]);
    seq(|p|, k requires 0 <= k < |p| =>
      RouteNode(p[|p| - 1 - k], if k == 0 then total else total - Label(s, p[|p| - 1 - k]), k))
  }

  lemma RouteAlongAt(s: Search, p: seq<Id>, k: nat)
    requires 0 < k < |p|
    ensures RouteAlong(s, p)[k] ==
            RouteNode(p[|p| - 1 - k], Label(s, p[|p| - 1]) - Label(s, p[|p| - 1 - k]), k)
  {
  }

  /** The route_root links from a found vertex up to the source, listed source first. */
  ghost function RootPath(g: Graph, s: Id, t: Id): (p: seq<Id>)
    requires WellFormed(g) && s in g && t in SearchFrom(g, s).root
    ensures FollowsRoots(SearchFrom(g, s), p) && p[0] == s && p[|p| - 1] == t && |p| >= 2 && NoDup(p)
  {
    var f := SearchFrom(g, s);
    assert t != s && t in f.settled by {
      assert Placed(g, f, t);
    }
    var j :| 0 <= j < |f.settled| && f.settled[j] == t;
    Chain(g, f, j)
  }

  /** What shortest_path_algorithm returns, NULL as None. */
  ghost function FindRoute(g: Graph, s: Id, t: Id): (r: Option<Route>)
    requires WellFormed(g) && s in g
    ensures r.Some? <==> s != t && Reachable(g, s, t)
    ensures r.Some? ==> IsRoute(g, s, t, r.value)
    ensures r.Some? ==> r.value[0].weight == Label(SearchFrom(g, s), t)
  {
    var f := SearchFrom(g, s);
    SettledIsReachable(g, f, t);
    assert Placed(g, f, t);
    if t !in f.root then None
    else
      var p := RootPath(g, s, t);
      ChainGivesRoute(g, f, p);
      Some(RouteAlong(f, p))
  }

  lemma ChainGivesRoute(g: Graph, s: Search, p: seq<Id>)
    requires Shape(g, s) && Tree(g, s)
    requires |p| >= 2 && NoDup(p) && FollowsRoots(s, p)
    ensures IsRoute(g, p[0], p[|p| - 1], RouteAlong(s, p))
  {
    var r := RouteAlong(s, p);
    assert Label(s, p[0]) == 0;
    forall i, j ensures DifferentIds(r, i, j) {
      assert Differ(p, |p| - 1 - j, |p| - 1 - i);
    }
    forall k ensures RouteHop(g, r, k) {
      if 0 < k < |r| {
        assert Rooted(s, p, |p| - 1 - k) && Hangs(g, s, p[|p| - k]);
      }
    }
  }

  // ---------------------------------------------------------------- when the returned totals are shortest

  ghost predicate RoutesShortest(g: Graph, s: Id)
    requires WellFormed(g) && s in g
  {
    forall t, p :: FindRoute(g, s, t).Some? && PathFromTo(g, p, s, t)
      ==> FindRoute(g, s, t).value[0].weight <= PathWeight(g, p)
  }

  lemma {:induction false} PathWeightNonNegative(g: Graph, p: seq<Id>)
    requires Positive(g) && IsPath(g, p)
    ensures PathWeight(g, p) >= 0
  {
    if |p| > 1 {
      PathPrefix(g, p, |p| - 1);
      PathWeightNonNegative(g, p[..|p| - 1]);
      assert PositiveVertex(g, p[|p| - 2]);
      assert Hop(g, p, |p| - 2);
    }
  }

  /** Every route returned from `s` is a shortest path exactly when the visited flag suppressed no update. */
  lemma RoutesShortestIffNoneSuppressed(g: Graph, s: Id)
    requires WellFormed(g) && Positive(g) && s in g
    ensures RoutesShortest(g, s) <==> NoneSuppressed(g, SearchFrom(g, s))
  {
    var f := SearchFrom(g, s);
    ShortestIffNoneSuppressed(g, f);
    if AllShortest(g, f) {
      forall t, p | FindRoute(g, s, t).Some? && PathFromTo(g, p, s, t)
        ensures FindRoute(g, s, t).value[0].weight <= PathWeight(g, p)
      {
        assert Label(f, p[|p| - 1]) <= PathWeight(g, p);
      }
    }
    if RoutesShortest(g, s) {
      forall p | IsPath(g, p) && p[0] == s
        ensures Label(f, p[|p| - 1]) <= PathWeight(g, p)
      {
        var t := p[|p| - 1];
        assert PathFromTo(g, p, s, t);
        PathWeightNonNegative(g, p);
        if t != s {
          assert FindRoute(g, s, t).Some?;
        }
      }
    }
  }
}
