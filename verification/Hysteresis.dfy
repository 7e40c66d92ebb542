/**
  What configuring a route guarantees about the installed path: it exists and costs at most one and a half
  times the freshly found route; and what rebuilding gives back after an install.
 */
module Hysteresis {
  import opened Options
  import opened Graphs
  import opened Routes
  import opened FlowTables
  import opened LoopFreedom
  import opened RouteUpdates
  import opened TableSafety
  import opened UpdatePass

  /** The vertices of the first `i + 1` route nodes, source side first. */
  ghost function Upward(r: Route, i: nat): (p: seq<Id>)
    requires i < |r|
    ensures |p| == i + 1 && forall j :: 0 <= j <= i ==> p[j] == r[i - j].id
  {
    if i == 0 then [r[0].id] else [r[i].id] + Upward(r, i - 1)
  }

  lemma {:induction false} PathCons(g: Graph, u: Id, p: seq<Id>)
    requires IsPath(g, p) && HasEdge(g, u, p[0])
    ensures IsPath(g, [u] + p) && PathWeight(g, [u] + p) == EdgeWeight(g, u, p[0]) + PathWeight(g, p)
    decreases |p|
  {
    forall i ensures Hop(g, [u] + p, i) {
      assert Hop(g, p, i - 1);
    }
    if |p| == 1 {
      assert ([u] + p)[..1] == [u];
    } else {
      var q := p[..|p| - 1];
      PathPrefix(g, p, |p| - 1);
      PathCons(g, u, q);
      assert ([u] + p)[..|p|] == [u] + q;
    }
  }

  lemma HopFacts(g: Graph, s: Id, d: Id, r: Route, i: nat)
    requires IsRoute(g, s, d, r) && 0 < i < |r|
    ensures HasEdge(g, r[i].id, r[i - 1].id)
    ensures r[i].weight == EdgeWeight(g, r[i].id, r[i - 1].id) + if i == 1 then 0 else r[i - 1].weight
  {
    assert RouteHop(g, r, i);
  }

  /** The route weight of a node is the true weight of the path from it down to the target. */
  lemma {:induction false} RouteWeightIsPathWeight(g: Graph, s: Id, d: Id, r: Route, i: nat)
    requires IsRoute(g, s, d, r) && i < |r|
    ensures IsPath(g, Upward(r, i)) && PathWeight(g, Upward(r, i)) == if i == 0 then 0 else r[i].weight
  {
    hide IsRoute;
    if i > 0 {
      HopFacts(g, s, d, r, i);
      RouteWeightIsPathWeight(g, s, d, r, i - 1);
      PathCons(g, r[i].id, Upward(r, i - 1));
    }
  }

  lemma InstalledEntry(t: Table, self: Id, k: Id, r: Route, i: nat)
    requires DistinctIds(r) && 0 < i < |r|
    ensures var o := Lookup(Install(t, self, k, r), r[i].id, k);
            && o.Some? && o.value.source == r[i].id && o.value.key == k && o.value.nextHop == r[i - 1].id
            && o.value.action == Forward && o.value.weight == r[i].weight && o.value.hops == r[i].hops
  {
    var v := r[i].id;
    InstallLookup(t, self, k, r, v, k);
    assert r[i].id == v;
    assert Lookup(Install(t, self, k, r), v, k) ==
           Some(PutEntry(t, self, v, k, r[i - 1].id, Forward, r[i].weight, r[i].hops));
  }

  lemma InstalledPath(g: Graph, t: Table, self: Id, s: Id, k: Id, d: Id, r: Route)
    requires IsRoute(g, s, d, r)
    ensures var p := Upward(r, |r| - 1);
            && PathFromTo(g, p, s, d) && FollowsTable(Install(t, self, k, r), k, p)
            && PathWeight(g, p) == r[|r| - 1].weight
  {
    hide Install;
    hide DistinctIds;
    hide PathWeight;
    hide FollowsTable;
    RouteWeightIsPathWeight(g, s, d, r, |r| - 1);
    UpwardFollowsTable(t, self, k, r);
  }

  lemma UpwardFollowsTable(t: Table, self: Id, k: Id, r: Route)
    requires DistinctIds(r) && r != []
    ensures FollowsTable(Install(t, self, k, r), k, Upward(r, |r| - 1))
  {
    var u, p, n := Install(t, self, k, r), Upward(r, |r| - 1), |r| - 1;
    forall i ensures TableHop(u, k, p, i) {
      if 0 <= i < n {
        InstalledEntry(t, self, k, r, n - i);
      }
    }
  }

  /**
    After configuring route `r` from `s` the next hops of the table form a path from `s` that exists in the
    digraph, and its true weight is at most (1 + SENSIBILITY) times the weight of `r`.  With one target for
    the key the path ends at that target.
   */
  lemma HysteresisBound(kind: Kind, g: Graph, t: Table, self: Id, s: Id, k: Id, d: Id, r: Route) returns (p: seq<Id>)
    requires EntriesOk(t) && IsRoute(g, s, d, r) && Positive(g)
    ensures IsPath(g, p) && p[0] == s && |p| >= 2 && FollowsTable(Configure(g, t, self, k, r), k, p)
    ensures PathWeight(g, p) as real <= (1.0 + SENSIBILITY) * r[|r| - 1].weight as real
    ensures TableOk(kind, t) && Targets(kind, k) == [d] ==> p[|p| - 1] == d
  {
    hide Install;
    hide Rebuild;
    hide TableOk;
    hide EntriesOk;
    var i := Find(t, s, k);
    p := Upward(r, |r| - 1);
    InstalledPath(g, t, self, s, k, d, r);
    PathWeightNonNegative(g, p);
    if i >= 0 && !RouteLost(g, t, t[i]) {
      var w := PathWeight(g, Ids(Rebuild(t, t[i]).value));
      InstalledPath(g, t[i := t[i].(weight := w)], self, s, k, d, r);
      if !ClearlyBetter(r[|r| - 1].weight, w) {
        p := KeptPath(kind, g, t, i, w, d);
      }
    }
  }

  /** The current route of an entry, when it is kept. */
  lemma KeptPath(kind: Kind, g: Graph, t: Table, i: nat, w: int, d: Id) returns (p: seq<Id>)
    requires EntriesOk(t) && i < |t| && !RouteLost(g, t, t[i])
    ensures p == Ids(Rebuild(t, t[i]).value) && IsPath(g, p) && p[0] == t[i].source && |p| >= 2
    ensures FollowsTable(t[i := t[i].(weight := w)], t[i].key, p)
    ensures TableOk(kind, t) && Targets(kind, t[i].key) == [d] ==> p[|p| - 1] == d
  {
    p := Ids(Rebuild(t, t[i]).value);
    RebuildFollowsTable(t, t[i]);
    ReweighKeepsTablePath(t, i, w, t[i].key, p);
    if TableOk(kind, t) && Targets(kind, t[i].key) == [d] {
      KeptRouteDelivers(kind, g, t, t[i], d);
    }
  }

  lemma ReweighKeepsTablePath(t: Table, i: nat, w: int, k: Id, p: seq<Id>)
    requires i < |t| && FollowsTable(t, k, p)
    ensures FollowsTable(t[i := t[i].(weight := w)], k, p)
  {
    var u := t[i := t[i].(weight := w)];
    forall j ensures TableHop(u, k, p, j) {
      assert TableHop(t, k, p, j);
      if 0 <= j < |p| {
        MarkKeepsRoutes(t, i, t[i].(weight := w), k, p[j]);
      }
    }
  }

  // ---------------------------------------------------------------- round trip

  /** The rebuilt list for the first `i + 1` nodes: source side first, the target with weight 0. */
  ghost function Reversed(r: Route, i: nat): Route
    requires i < |r|
  {
    if i == 0 then [RouteNode(r[0].id, 0, 0)] else [r[i]] + Reversed(r, i - 1)
  }

  lemma HeadUntouched(t: Table, self: Id, k: Id, r: Route)
    requires DistinctIds(r) && r != []
    ensures Lookup(Install(t, self, k, r), r[0].id, k) == Lookup(t, r[0].id, k)
  {
    HeadStandsAlone(r);
    InstallLookup(t, self, k, r, r[0].id, k);
  }

  /** Rebuilding from any installed node gives the reversed route with the same hops and weights. */
  lemma {:induction false} RebuildAfterInstall(t: Table, self: Id, k: Id, r: Route, i: nat)
    requires DistinctIds(r) && (forall j :: 0 <= j < |r| ==> r[j].hops == j) && 0 < i < |r|
    requires Lookup(t, r[0].id, k) == None
    ensures var u := Install(t, self, k, r);
            && Lookup(u, r[i].id, k).Some?
            && Rebuild(u, Lookup(u, r[i].id, k).value) == Some(Reversed(r, i))
  {
    InstalledEntry(t, self, k, r, i);
    if i > 1 {
      InstalledEntry(t, self, k, r, i - 1);
      RebuildAfterInstall(t, self, k, r, i - 1);
    } else {
      HeadUntouched(t, self, k, r);
      assert Reversed(r, 0) == [RouteNode(r[0].id, 0, 0)];
      assert Reversed(r, 1) == [r[1]] + Reversed(r, 0) == [r[1], RouteNode(r[0].id, 0, 0)];
    }
  }

  /**
    Installing a route and rebuilding it from the source gives the route back exactly when the destination
    has no entry of its own; otherwise the rebuilt route is discarded.
   */
  lemma RoundTrip(kind: Kind, g: Graph, t: Table, self: Id, s: Id, k: Id, d: Id, r: Route)
    requires TableOk(kind, t) && Targets(kind, k) == [d] && IsRoute(g, s, d, r)
    ensures var u := Install(t, self, k, r);
            && Lookup(u, s, k).Some?
            && Rebuild(u, Lookup(u, s, k).value) ==
               if Lookup(t, d, k).None? then Some(Reversed(r, |r| - 1)) else None
  {
    var u := Install(t, self, k, r);
    InstallLookup(t, self, k, r, s, k);
    if Lookup(t, d, k).None? {
      RebuildAfterInstall(t, self, k, r, |r| - 1);
    } else {
      assert KeyOk(kind, t, k);
      HopsFit(r);
      DiscardedAtDestination(t, self, k, r, |r| - 1);
    }
  }

  lemma {:induction false} DiscardedAtDestination(t: Table, self: Id, k: Id, r: Route, i: nat)
    requires EntriesOk(t) && DistinctIds(r) && |r| <= ROUTE_MAX_HOPS + 1
    requires (forall j :: 0 <= j < |r| ==> r[j].hops == j) && 0 < i < |r|
    requires Lookup(t, r[0].id, k).Some? && Hop1(t, k, r[0].id) == None
    ensures var u := Install(t, self, k, r);
            Lookup(u, r[i].id, k).Some? && Rebuild(u, Lookup(u, r[i].id, k).value) == None
  {
    InstalledEntry(t, self, k, r, i);
    if i > 1 {
      InstalledEntry(t, self, k, r, i - 1);
      DiscardedAtDestination(t, self, k, r, i - 1);
    } else {
      HeadUntouched(t, self, k, r);
      var j := Find(t, r[0].id, k);
      assert t[j].action == Drop;
    }
  }
}
