/**
  What the bound on kept routes is worth at the end of a pass, after later iterations have rerouted vertices
  on the way: if the searches find shortest routes, every entry is within the factor of every path.
 */
module PassBound {
  import opened Options
  import opened Graphs
  import opened EqualWeights
  import opened Routes
  import opened NeighborReports
  import opened FlowTables
  import opened LoopFreedom
  import opened RouteUpdates
  import opened TableSafety
  import opened SetupPushes
  import opened UpdatePass
  import opened Hysteresis

  // ---------------------------------------------------------------- what the next hops cost

  /** The next hops from `v` reach `d` in `n` hops over existing edges of total weight `w`. */
  ghost predicate Costs(g: Graph, t: Table, k: Id, d: Id, v: Id, n: nat, w: int)
    decreases n
  {
    if v == d then n == 0 && w == 0
    else
      var x := Hop1(t, k, v);
      n > 0 && x.Some? && HasEdge(g, v, x.value) && Costs(g, t, k, d, x.value, n - 1, w - EdgeWeight(g, v, x.value))
  }

  /** No path from `s` to `d` is lighter than `b`. */
  ghost predicate NoLighter(g: Graph, s: Id, d: Id, b: real) {
    forall p {:trigger PathFromTo(g, p, s, d)} :: PathFromTo(g, p, s, d) ==> b <= PathWeight(g, p) as real
  }

  /** The next hops from `v` lead to `d` as cheaply as any path, or dearer by the factor `f` at most. */
  ghost predicate Within(g: Graph, t: Table, k: Id, d: Id, v: Id, f: real)
    requires f > 0.0
  {
    exists n: nat, w: int :: Costs(g, t, k, d, v, n, w) && NoLighter(g, v, d, w as real / f)
  }

  lemma {:induction false} CostsIsPath(g: Graph, t: Table, k: Id, d: Id, v: Id, n: nat, w: int) returns (p: seq<Id>)
    requires Costs(g, t, k, d, v, n, w)
    ensures PathFromTo(g, p, v, d) && PathWeight(g, p) == w
    decreases n
  {
    if v == d {
      p := [v];
    } else {
      var x := Hop1(t, k, v).value;
      var q := CostsIsPath(g, t, k, d, x, n - 1, w - EdgeWeight(g, v, x));
      PathCons(g, v, q);
      p := [v] + q;
    }
  }

  /** Chains get no dearer when every rerouted vertex has a lightest chain or was on no chain. */
  lemma {:induction false} NoDearer(g: Graph, t: Table, u: Table, k: Id, d: Id, v: Id, n: nat, w: int)
    returns (n2: nat, w2: int)
    requires Costs(g, t, k, d, v, n, w)
    requires forall x: Id {:trigger Within(g, u, k, d, x, 1.0)} ::
      Hop1(t, k, x) == Hop1(u, k, x) || Within(g, u, k, d, x, 1.0) || !Reachable(g, x, d)
    ensures Costs(g, u, k, d, v, n2, w2) && w2 <= w
    decreases n
  {
    var p := CostsIsPath(g, t, k, d, v, n, w);
    if v == d {
      n2, w2 := 0, 0;
    } else if Within(g, u, k, d, v, 1.0) {
      n2, w2 :| Costs(g, u, k, d, v, n2, w2) && NoLighter(g, v, d, w2 as real / 1.0);
      assert w2 as real / 1.0 == w2 as real;
    } else {
      assert Reachable(g, v, d);
      var x := Hop1(t, k, v).value;
      var n3, w3 := NoDearer(g, t, u, k, d, x, n - 1, w - EdgeWeight(g, v, x));
      n2, w2 := n3 + 1, w3 + EdgeWeight(g, v, x);
    }
  }

  lemma StaysWithin(g: Graph, t: Table, u: Table, k: Id, d: Id, v: Id, f: real)
    requires f >= 1.0 && Within(g, t, k, d, v, f)
    requires forall x: Id {:trigger Within(g, u, k, d, x, 1.0)} ::
      Hop1(t, k, x) == Hop1(u, k, x) || Within(g, u, k, d, x, 1.0) || !Reachable(g, x, d)
    ensures Within(g, u, k, d, v, f)
  {
    var n: nat, w: int :| Costs(g, t, k, d, v, n, w) && NoLighter(g, v, d, w as real / f);
    var n2, w2 := NoDearer(g, t, u, k, d, v, n, w);
    assert w2 as real / f <= w as real / f;
    assert NoLighter(g, v, d, w2 as real / f) by {
      forall p | PathFromTo(g, p, v, d) ensures w2 as real / f <= PathWeight(g, p) as real {
      }
    }
  }

  // ---------------------------------------------------------------- shortest routes

  /** Every search of the digraph finds a shortest route. */
  ghost predicate Optimal(n: Net)
    requires GoodNet(n)
  {
    forall s: Id, d: Id {:trigger Total(n, s, d)} :: s != d ==> NoLighter(n.out, s, d, Total(n, s, d) as real)
  }

  lemma SameEdgesSamePaths(g: Graph, h: Graph, p: seq<Id>)
    requires SameEdges(g, h)
    ensures IsPath(g, p) <==> IsPath(h, p)
    ensures PathWeight(g, p) == PathWeight(h, p)
    decreases |p|
  {
    forall i ensures Hop(g, p, i) <==> Hop(h, p, i) {
      if 0 <= i < |p| - 1 {
        assert Out(g, p[i]) == Out(h, p[i]);
      }
    }
    if |p| > 1 {
      assert Out(g, p[|p| - 2]) == Out(h, p[|p| - 2]);
      SameEdgesSamePaths(g, h, p[..|p| - 1]);
    }
  }

  lemma SameEdgesNoLighter(g: Graph, h: Graph, s: Id, d: Id, b: real)
    requires SameEdges(g, h) && NoLighter(g, s, d, b)
    ensures NoLighter(h, s, d, b)
  {
    forall p | PathFromTo(h, p, s, d) ensures b <= PathWeight(h, p) as real {
      SameEdgesSamePaths(g, h, p);
      assert PathFromTo(g, p, s, d);
    }
  }

  lemma SameEdgesOptimal(n: Net, m: Net)
    requires GoodNet(n) && GoodNet(m) && SameEdges(n.out, m.out) && Optimal(n)
    ensures Optimal(m)
  {
    forall s: Id, d: Id | s != d ensures NoLighter(m.out, s, d, Total(m, s, d) as real) {
      TotalSameEdges(n, m, s, d);
      assert NoLighter(n.out, s, d, Total(n, s, d) as real);
      SameEdgesNoLighter(n.out, m.out, s, d, Total(n, s, d) as real);
    }
  }

  /** The rest of a shortest route is shortest. */
  lemma {:induction false} SuffixIsShortest(g: Graph, s: Id, d: Id, r: Route, i: nat)
    requires IsRoute(g, s, d, r) && 0 < i < |r| && NoLighter(g, s, d, r[|r| - 1].weight as real)
    ensures NoLighter(g, r[i].id, d, r[i].weight as real)
    decreases |r| - i
  {
    if i < |r| - 1 {
      SuffixIsShortest(g, s, d, r, i + 1);
      assert RouteHop(g, r, i + 1);
      forall p | PathFromTo(g, p, r[i].id, d) ensures r[i].weight as real <= PathWeight(g, p) as real {
        PathCons(g, r[i + 1].id, p);
        assert PathFromTo(g, [r[i + 1].id] + p, r[i + 1].id, d);
      }
    }
  }

  lemma {:induction false} InstalledCosts(g: Graph, t: Table, self: Id, s: Id, k: Id, d: Id, r: Route, i: nat)
    requires IsRoute(g, s, d, r) && i < |r|
    ensures Costs(g, Install(t, self, k, r), k, d, r[i].id, i, if i == 0 then 0 else r[i].weight)
  {
    if i > 0 {
      InstallLookup(t, self, k, r, r[i].id, k);
      assert DifferentIds(r, 0, i) && RouteHop(g, r, i);
      InstalledCosts(g, t, self, s, k, d, r, i - 1);
    }
  }

  /** Installing a shortest route leaves a lightest chain at every vertex of it. */
  lemma InstalledWithin(g: Graph, t: Table, self: Id, s: Id, k: Id, d: Id, r: Route, i: nat)
    requires IsRoute(g, s, d, r) && 0 < i < |r| && NoLighter(g, s, d, r[|r| - 1].weight as real)
    ensures Within(g, Install(t, self, k, r), k, d, r[i].id, 1.0)
  {
    InstalledCosts(g, t, self, s, k, d, r, i);
    SuffixIsShortest(g, s, d, r, i);
    assert r[i].weight as real / 1.0 == r[i].weight as real;
  }

  lemma {:induction false} TablePathCosts(g: Graph, t: Table, k: Id, d: Id, p: seq<Id>)
    requires p != [] && FollowsTable(t, k, p) && IsPath(g, p) && p[|p| - 1] == d && Hop1(t, k, d) == None
    ensures Costs(g, t, k, d, p[0], |p| - 1, PathWeight(g, p))
    decreases |p|
  {
    if |p| >= 2 {
      TableTail(t, k, p);
      assert Hop(g, p, 0);
      forall i ensures Hop(g, p[1..], i) {
        assert Hop(g, p, i + 1);
      }
      TablePathCosts(g, t, k, d, p[1..]);
      PathCons(g, p[0], p[1..]);
      assert [p[0]] + p[1..] == p;
    }
  }

  // ---------------------------------------------------------------- one iteration

  const FACTOR := 1.0 + SENSIBILITY

  /** A FORWARD entry whose next hops cost at most FACTOR times as much as any path. */
  ghost predicate Near(g: Graph, t: Table, e: Entry) {
    e.action == Forward ==> Within(g, t, e.key, e.key, e.source, FACTOR)
  }

  lemma StaysNear(g: Graph, t: Table, u: Table, e: Entry, f: Entry)
    requires Near(g, t, e) && SameSetup(e, f)
    requires forall x: Id {:trigger Within(g, u, e.key, e.key, x, 1.0)} ::
      Hop1(t, e.key, x) == Hop1(u, e.key, x) || Within(g, u, e.key, e.key, x, 1.0) || !Reachable(g, x, e.key)
    ensures Near(g, u, f)
  {
    if e.action == Forward {
      StaysWithin(g, t, u, e.key, e.key, e.source, FACTOR);
    }
  }

  lemma LightestIsNear(g: Graph, t: Table, e: Entry)
    requires Positive(g) && Within(g, t, e.key, e.key, e.source, 1.0)
    ensures Near(g, t, e)
  {
    var k, s := e.key, e.source;
    var n: nat, w: int :| Costs(g, t, k, k, s, n, w) && NoLighter(g, s, k, w as real / 1.0);
    var q := CostsIsPath(g, t, k, k, s, n, w);
    PathWeightNonNegative(g, q);
    assert w as real / FACTOR <= w as real / 1.0;
    forall p | PathFromTo(g, p, s, k) ensures w as real / FACTOR <= PathWeight(g, p) as real {
    }
    assert NoLighter(g, s, k, w as real / FACTOR);
  }

  lemma InstallNear(g: Graph, t: Table, self: Id, s: Id, k: Id, r: Route, j: nat)
    requires Unique(t) && Positive(g) && IsRoute(g, s, k, r) && NoLighter(g, s, k, r[|r| - 1].weight as real)
    ensures var u := Install(t, self, k, r);
            && |t| <= |u|
            && (j < |u| && u[j].key == k && OnRoute(r, u[j].source) > 0 ==> Near(g, u, u[j]))
            && (j < |u| && !(u[j].key == k && OnRoute(r, u[j].source) > 0) ==> j < |t| && u[j] == t[j])
            && (j < |t| && Near(g, t, t[j]) ==> Near(g, u, u[j]))
  {
    var u := Install(t, self, k, r);
    InstallSettles(g, t, self, s, k, r, j);
    if j < |u| {
      var e := u[j];
      if e.key == k && OnRoute(r, e.source) > 0 {
        InstalledWithin(g, t, self, s, k, k, r, OnRoute(r, e.source));
        LightestIsNear(g, u, e);
      } else if Near(g, t, t[j]) {
        forall x: Id
          ensures Hop1(t, e.key, x) == Hop1(u, e.key, x) || Within(g, u, e.key, e.key, x, 1.0)
                  || !Reachable(g, x, e.key)
        {
          InstallLookup(t, self, k, r, x, e.key);
          if e.key == k && OnRoute(r, x) > 0 {
            InstalledWithin(g, t, self, s, k, k, r, OnRoute(r, x));
          }
        }
        StaysNear(g, t, u, t[j], e);
      }
    }
  }

  lemma ReweighNear(g: Graph, t: Table, i: nat, w: int, j: nat)
    requires i < |t| && j < |t| && Near(g, t, t[j])
    ensures var u := t[i := t[i].(weight := w)]; Near(g, u, u[j])
  {
    var u := t[i := t[i].(weight := w)];
    forall x: Id ensures Hop1(t, t[j].key, x) == Hop1(u, t[j].key, x) {
      MarkKeepsRoutes(t, i, t[i].(weight := w), t[j].key, x);
    }
    StaysNear(g, t, u, t[j], u[j]);
  }

  /** A current route that is kept is near. */
  lemma KeptIsNear(g: Graph, t: Table, i: nat, r: Route)
    requires TableOk(ByAddress, t) && i < |t| && IsRoute(g, t[i].source, t[i].key, r) && !RouteLost(g, t, t[i])
    requires NoLighter(g, t[i].source, t[i].key, r[|r| - 1].weight as real)
    requires !ClearlyBetter(r[|r| - 1].weight, PathWeight(g, Ids(Rebuild(t, t[i]).value)))
    ensures Near(g, t, t[i])
  {
    var s, k := t[i].source, t[i].key;
    var p := Ids(Rebuild(t, t[i]).value);
    KeptRouteDelivers(ByAddress, g, t, t[i], k);
    assert KeyOk(ByAddress, t, k);
    TablePathCosts(g, t, k, k, p);
    forall q | PathFromTo(g, q, s, k) ensures PathWeight(g, p) as real / FACTOR <= PathWeight(g, q) as real {
    }
    assert NoLighter(g, s, k, PathWeight(g, p) as real / FACTOR);
  }

  lemma ConfigureNear(g: Graph, t: Table, self: Id, i: nat, r: Route, j: nat)
    requires TableOk(ByAddress, t) && Positive(g) && i < |t| && IsRoute(g, t[i].source, t[i].key, r)
    requires NoLighter(g, t[i].source, t[i].key, r[|r| - 1].weight as real)
    ensures var u := Configure(g, t, self, t[i].key, r);
            && |t| <= |u|
            && (j == i ==> Near(g, u, u[j]))
            && (j < |t| && Near(g, t, t[j]) ==> Near(g, u, u[j]))
            && (j < |u| && u[j].changed && !(j < |t| && t[j].changed) ==> Near(g, u, u[j]))
  {
    hide Near;
    var s, k := t[i].source, t[i].key;
    FindAt(t, i);
    if RouteLost(g, t, t[i]) {
      InstallNear(g, t, self, s, k, r, j);
      InstallExtends(t, self, k, r);
    } else {
      var w := PathWeight(g, Ids(Rebuild(t, t[i]).value));
      var u := t[i := t[i].(weight := w)];
      MarkKeepsTableOk(ByAddress, t, i, t[i].(weight := w));
      if j < |t| && Near(g, t, t[j]) {
        ReweighNear(g, t, i, w, j);
      }
      if ClearlyBetter(r[|r| - 1].weight, w) {
        InstallNear(g, u, self, s, k, r, j);
        InstallExtends(u, self, k, r);
      } else if j == i {
        KeptIsNear(g, t, i, r);
        ReweighNear(g, t, i, w, j);
      }
    }
  }

  lemma DropNear(g: Graph, t: Table, self: Id, s: Id, k: Id, j: nat)
    requires Unique(t) && (s == k || !Reachable(g, s, k)) && Lookup(t, s, k).Some? && Positive(g)
    ensures var u := Put(t, self, s, k, s, Drop, ROUTE_MAX_WEIGHT, ROUTE_MAX_HOPS);
            && |u| == |t|
            && (j < |t| && Matches(t[j], s, k) ==> Near(g, u, u[j]))
            && (j < |t| && !Matches(t[j], s, k) ==> u[j] == t[j])
            && (j < |t| && Near(g, t, t[j]) ==> Near(g, u, u[j]))
  {
    var u := Put(t, self, s, k, s, Drop, ROUTE_MAX_WEIGHT, ROUTE_MAX_HOPS);
    if j < |t| {
      FindAt(t, j);
      if Near(g, t, t[j]) && !Matches(t[j], s, k) {
        var e := t[j];
        forall x: Id
          ensures Hop1(t, e.key, x) == Hop1(u, e.key, x) || Within(g, u, e.key, e.key, x, 1.0)
                  || !Reachable(g, x, e.key)
        {
          PutLookup(t, self, s, k, s, Drop, ROUTE_MAX_WEIGHT, ROUTE_MAX_HOPS, x, e.key);
          if x == s == k && e.key == k {
            NothingCostsNothing(g, u, k);
          }
        }
        StaysNear(g, t, u, e, u[j]);
      }
    }
  }

  lemma NothingCostsNothing(g: Graph, t: Table, k: Id)
    requires Positive(g)
    ensures Within(g, t, k, k, k, 1.0)
  {
    assert Costs(g, t, k, k, k, 0, 0);
    forall p | PathFromTo(g, p, k, k) ensures 0.0 <= PathWeight(g, p) as real {
      PathWeightNonNegative(g, p);
    }
    assert NoLighter(g, k, k, 0 as real / 1.0);
  }

  /** The route a request for one target gets has the total of the search. */
  lemma SingleTotal(n: Net, s: Id, d: Id)
    requires GoodNet(n)
    ensures var r := BestRoute(n, s, [d], None).1; r.Some? ==> r.value[0].weight == Total(n, s, d)
  {
    WithVertexKeepsGood(n, s);
    assert [d][1..] == [];
    var (m, r) := OneTarget(n, s, d, None);
    assert BestRoute(n, s, [d], None) == BestRoute(m, s, [], r) == (m, r);
  }

  /** The route to a single target that can be reached. */
  lemma SingleRoute(n: Net, s: Id, d: Id) returns (m: Net, r: Route)
    requires GoodNet(n) && s != d && Reachable(n.out, s, d)
    ensures BestRoute(n, s, [d], None) == (m, Some(r)) && GoodNet(m) && SameEdges(n.out, m.out)
    ensures |r| >= 2 && IsRoute(n.out, s, d, r) && IsRoute(m.out, s, d, r)
    ensures r[|r| - 1].weight == Total(n, s, d)
  {
    hide BestRoute;
    hide Reachable;
    hide SameEdges;
    FreshRoute(n, s, [d]);
    SingleTotal(n, s, d);
    assert d in [d] && Feasible(n.out, s, [d]);
    m := BestRoute(n, s, [d], None).0;
    r := BestRoute(n, s, [d], None).1.value;
    var e :| e in [d] && IsRoute(m.out, s, e, r);
    SameEdgesSameRoute(n.out, m.out, s, d, r);
  }

  /** The route served is shortest when the searches are. */
  lemma ServedIsShortest(n: Net, s: Id, k: Id) returns (m: Net, r: Route)
    requires GoodNet(n) && Optimal(n) && s != k && Reachable(n.out, s, k)
    ensures BestRoute(n, s, [k], None) == (m, Some(r)) && SameEdges(n.out, m.out) && GoodNet(m)
    ensures |r| >= 2 && IsRoute(m.out, s, k, r) && NoLighter(m.out, s, k, r[|r| - 1].weight as real)
  {
    hide BestRoute;
    hide Optimal;
    hide NoLighter;
    hide SameEdges;
    hide GoodNet;
    hide Reachable;
    hide IsRoute;
    m, r := SingleRoute(n, s, k);
    OptimalTotal(n, s, k);
    SameEdgesNoLighter(n.out, m.out, s, k, Total(n, s, k) as real);
  }

  lemma OptimalTotal(n: Net, s: Id, d: Id)
    requires GoodNet(n) && Optimal(n) && s != d
    ensures NoLighter(n.out, s, d, Total(n, s, d) as real)
  {
  }

  lemma ServeNear(n: Net, self: Id, t: Table, i: nat, j: nat)
    requires GoodNet(n) && Optimal(n) && TableOk(ByAddress, t) && i < |t|
    ensures var (m, u) := Serve(n, ByAddress, self, t, t[i].source, t[i].key);
            && |t| <= |u|
            && (j == i ==> Near(m.out, u, u[j]))
            && (j < |t| && Near(m.out, t, t[j]) ==> Near(m.out, u, u[j]))
            && (j < |u| && u[j].changed && !(j < |t| && t[j].changed) ==> Near(m.out, u, u[j]))
  {
    hide BestRoute;
    hide Near;
    hide Optimal;
    hide Configure;
    hide SameEdges;
    hide Reachable;
    var s, k := t[i].source, t[i].key;
    assert k in [k];
    FreshRoute(n, s, [k]);
    if s != k && Reachable(n.out, s, k) {
      var m, r := ServedIsShortest(n, s, k);
      ConfigureNear(m.out, t, self, i, r, j);
    } else {
      var m := BestRoute(n, s, [k], None).0;
      SameEdgesSameReach(n.out, m.out, s, k);
      FindAt(t, i);
      DropNear(m.out, t, self, s, k, j);
    }
  }

  // ---------------------------------------------------------------- the whole pass

  lemma SameEdgesNear(g: Graph, h: Graph, t: Table, e: Entry)
    requires SameEdges(g, h) && Near(g, t, e)
    ensures Near(h, t, e)
  {
    if e.action == Forward {
      var n: nat, w: int :|
        Costs(g, t, e.key, e.key, e.source, n, w) && NoLighter(g, e.source, e.key, w as real / FACTOR);
      SameEdgesCosts(g, h, t, e.key, e.key, e.source, n, w);
      SameEdgesNoLighter(g, h, e.source, e.key, w as real / FACTOR);
    }
  }

  lemma {:induction false} SameEdgesCosts(g: Graph, h: Graph, t: Table, k: Id, d: Id, v: Id, n: nat, w: int)
    requires SameEdges(g, h) && Costs(g, t, k, d, v, n, w)
    ensures Costs(h, t, k, d, v, n, w)
    decreases n
  {
    if v != d {
      assert Out(g, v) == Out(h, v);
      var x := Hop1(t, k, v).value;
      SameEdgesCosts(g, h, t, k, d, x, n - 1, w - EdgeWeight(g, v, x));
    }
  }

  ghost predicate NearUpTo(g: Graph, t: Table, i: nat) {
    forall j {:trigger Near(g, t, t[j])} :: 0 <= j < |t| && (j < i || t[j].changed) ==> Near(g, t, t[j])
  }

  lemma ServeNearMore(n: Net, self: Id, t: Table, i: nat)
    requires GoodNet(n) && Optimal(n) && TableOk(ByAddress, t) && NearUpTo(n.out, t, i) && i < |t|
    ensures var (m, u) := Serve(n, ByAddress, self, t, t[i].source, t[i].key); NearUpTo(m.out, u, i + 1)
  {
    hide Serve;
    hide Near;
    hide Optimal;
    hide SameEdges;
    var (m, u) := Serve(n, ByAddress, self, t, t[i].source, t[i].key);
    ServeKeepsTableOk(n, ByAddress, self, t, t[i].source, t[i].key);
    forall j | 0 <= j < |u| && (j < i + 1 || u[j].changed) ensures Near(m.out, u, u[j]) {
      ServeNear(n, self, t, i, j);
      if j < |t| && (j < i || t[j].changed) {
        SameEdgesNear(n.out, m.out, t, t[j]);
      }
    }
  }

  lemma {:induction false} WalkNear(n: Net, self: Id, t: Table, i: nat)
    requires GoodNet(n) && Optimal(n) && TableOk(ByAddress, t) && NearUpTo(n.out, t, i)
    ensures var (m, u) := Walk(n, ByAddress, self, t, i); NearUpTo(m.out, u, |u|)
    decreases Waiting(t, i), |t| - i
  {
    hide Serve;
    hide TableOk;
    hide GoodNet;
    hide Near;
    hide Optimal;
    if i < |t| {
      if t[i].changed {
        MarkedIsSkipped(t, i);
        WalkNear(n, self, t, i + 1);
      } else {
        var (m, u) := Serve(n, ByAddress, self, t, t[i].source, t[i].key);
        ServeKeepsTableOk(n, ByAddress, self, t, t[i].source, t[i].key);
        ServeExtends(n, ByAddress, self, t, t[i].source, t[i].key);
        ServeNearMore(n, self, t, i);
        SameEdgesOptimal(n, m);
        WaitingShrinks(t, u, i);
        WalkNear(m, self, u, i + 1);
      }
    }
  }

  /**
    If the searches find shortest routes, then after a pass that starts without marks the next hops of every
    FORWARD entry lead to its target over existing edges and cost at most FACTOR times as much as any path.
   */
  lemma PassIsNear(c: Site, st: State)
    requires Safe(st) && st.kind == ByAddress && NoMarks(st.table) && Optimal(st.net)
    ensures var x := Pass(c, st); forall j :: 0 <= j < |x.table| ==> Near(x.net.out, x.table, x.table[j])
  {
    hide Walk;
    hide FlushFrom;
    hide TableOk;
    hide GoodNet;
    hide InSync;
    hide Near;
    hide Optimal;
    var w, x := Walked(c, st), Pass(c, st);
    WalkNear(st.net, c.self, st.table, 0);
    FlushClears(c, w, 0);
    forall j | 0 <= j < |x.table| ensures Near(x.net.out, x.table, x.table[j]) {
      assert Near(w.net.out, w.table, w.table[j]);
      SameEdgesNear(w.net.out, x.net.out, w.table, w.table[j]);
      UnmarkedNear(x.net.out, w.table, x.table, j);
    }
  }

  lemma UnmarkedNear(g: Graph, t: Table, u: Table, j: nat)
    requires OnlyUnmarked(t, u) && j < |t| && Near(g, t, t[j])
    ensures Near(g, u, u[j])
  {
    forall v: Id ensures Hop1(t, t[j].key, v) == Hop1(u, t[j].key, v) {
      UnmarkedSameHops(t, u, t[j].key, v);
    }
    StaysNear(g, t, u, t[j], u[j]);
  }

  /** When all edges have the same positive weight the searches do find shortest routes. */
  lemma EqualWeightsAreOptimal(n: Net, w: int)
    requires GoodNet(n) && AllWeigh(n.out, w) && w > 0
    ensures Optimal(n)
  {
    forall s: Id, d: Id | s != d ensures NoLighter(n.out, s, d, Total(n, s, d) as real) {
      EqualWeightsTotal(n, w, s, d);
    }
  }

  lemma EqualWeightsTotal(n: Net, w: int, s: Id, d: Id)
    requires GoodNet(n) && AllWeigh(n.out, w) && w > 0
    ensures NoLighter(n.out, s, d, Total(n, s, d) as real)
  {
    WithVertexKeepsGood(n, s);
    WithVertexSameEdges(n, s);
    var m := WithVertex(n, s);
    assert AllWeigh(m.out, w) by {
      forall v: Id, e: Edge | e in Out(m.out, v) ensures e.weight == w {
        assert Out(n.out, v) == Out(m.out, v);
      }
    }
    EqualWeightsGiveShortest(m.out, s, w);
    forall p | PathFromTo(n.out, p, s, d) ensures Total(n, s, d) as real <= PathWeight(n.out, p) as real {
      SameEdgesSamePaths(n.out, m.out, p);
    }
  }
}
