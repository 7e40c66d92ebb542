/**
  What every request and every single step of an update pass keep true of a flow table.
 */
module TableSafety {
  import opened Options
  import opened Graphs
  import opened Routes
  import opened NeighborReports
  import opened FlowTables
  import opened LoopFreedom
  import opened RouteUpdates

  /** A key without target has no FORWARD entry; a key with one target is loop free. */
  ghost predicate KeyOk(kind: Kind, t: Table, k: Id) {
    var ts := Targets(kind, k);
    && (ts == [] ==> forall v: Id :: Hop1(t, k, v) == None)
    && (|ts| == 1 ==> Loopfree(t, k, ts[0]))
  }

  ghost predicate TableOk(kind: Kind, t: Table) {
    EntriesOk(t) && forall k: Id {:trigger KeyOk(kind, t, k)} :: KeyOk(kind, t, k)
  }

  // ---------------------------------------------------------------- entries

  lemma PutKeepsEntriesOk(t: Table, self: Id, s: Id, k: Id, nextHop: Id, a: Action, w: int, h: nat)
    requires EntriesOk(t) && a != Receive && h <= ROUTE_MAX_HOPS && (a == Drop ==> h == ROUTE_MAX_HOPS)
    ensures EntriesOk(Put(t, self, s, k, nextHop, a, w, h))
  {
    PutKeepsUnique(t, self, s, k, nextHop, a, w, h);
  }

  lemma {:induction false} InstallKeepsEntriesOk(t: Table, self: Id, k: Id, r: Route)
    requires EntriesOk(t) && forall i :: 0 <= i < |r| ==> r[i].hops <= ROUTE_MAX_HOPS
    ensures EntriesOk(Install(t, self, k, r))
    decreases |r|
  {
    if |r| >= 2 {
      PutKeepsEntriesOk(t, self, r[1].id, k, r[0].id, Forward, r[1].weight, r[1].hops);
      InstallKeepsEntriesOk(Put(t, self, r[1].id, k, r[0].id, Forward, r[1].weight, r[1].hops), self, k, r[1..]);
    }
  }

  ghost function IdsBelow(n: nat): (s: set<Id>)
    requires n <= 0x1_0000
    ensures |s| == n && forall x: Id :: x in s <==> x < n
  {
    if n == 0 then {} else IdsBelow(n - 1) + {n - 1}
  }

  lemma {:induction false} DistinctIdsCount(r: Route) returns (s: set<Id>)
    requires DistinctIds(r)
    ensures |s| == |r| && forall x :: x in s ==> exists i :: 0 <= i < |r| && r[i].id == x
    decreases |r|
  {
    if r == [] {
      return {};
    }
    var q := r[..|r| - 1];
    forall i, j ensures DifferentIds(q, i, j) {
      assert DifferentIds(r, i, j);
    }
    var a := DistinctIdsCount(q);
    var last := r[|r| - 1].id;
    forall i | 0 <= i < |q| ensures q[i].id != last {
      assert DifferentIds(r, i, |r| - 1);
    }
    s := a + {last};
    forall x | x in s ensures exists i :: 0 <= i < |r| && r[i].id == x {
      if x in a {
        var i :| 0 <= i < |q| && q[i].id == x;
        assert r[i].id == x;
      }
    }
  }

  /** Two-byte addresses keep every hop count below the hop count of a DROP entry. */
  lemma HopsFit(r: Route)
    requires DistinctIds(r)
    ensures |r| <= ROUTE_MAX_HOPS + 1
  {
    var s := DistinctIdsCount(r);
    SubsetCount(s, IdsBelow(0x1_0000));
  }

  lemma {:induction false} SubsetCount<T>(a: set<T>, b: set<T>)
    requires a <= b
    ensures |a| <= |b|
  {
    if a != {} {
      var x :| x in a;
      SubsetCount(a - {x}, b - {x});
    }
  }

  // ---------------------------------------------------------------- keys

  lemma UntouchedKeyStaysOk(kind: Kind, t: Table, u: Table, k: Id)
    requires KeyOk(kind, t, k)
    requires forall v: Id :: Lookup(u, v, k) == Lookup(t, v, k)
    ensures KeyOk(kind, u, k)
  {
    var ts := Targets(kind, k);
    if |ts| == 1 {
      forall x: Id ensures SameRoute(t, u, k, x) {
        assert Lookup(u, x, k) == Lookup(t, x, k);
      }
      assert SameRoute(t, u, k, ts[0]);
      ChangeKeepsLoopfree(t, u, k, ts[0]);
    }
    if ts == [] {
      forall v: Id ensures Hop1(u, k, v) == None {
        assert Lookup(u, v, k) == Lookup(t, v, k) && Hop1(t, k, v) == None;
      }
    }
  }

  lemma DropKeepsTableOk(kind: Kind, t: Table, self: Id, s: Id, k: Id)
    requires TableOk(kind, t)
    ensures TableOk(kind, Put(t, self, s, k, s, Drop, ROUTE_MAX_WEIGHT, ROUTE_MAX_HOPS))
  {
    var u := Put(t, self, s, k, s, Drop, ROUTE_MAX_WEIGHT, ROUTE_MAX_HOPS);
    PutKeepsEntriesOk(t, self, s, k, s, Drop, ROUTE_MAX_WEIGHT, ROUTE_MAX_HOPS);
    forall k': Id ensures KeyOk(kind, u, k') {
      assert KeyOk(kind, t, k');
      forall v: Id ensures Lookup(u, v, k') == if v == s && k' == k then Lookup(u, s, k) else Lookup(t, v, k') {
        PutLookup(t, self, s, k, s, Drop, ROUTE_MAX_WEIGHT, ROUTE_MAX_HOPS, v, k');
      }
      if k' != k {
        UntouchedKeyStaysOk(kind, t, u, k');
      } else {
        PutLookup(t, self, s, k, s, Drop, ROUTE_MAX_WEIGHT, ROUTE_MAX_HOPS, s, k);
        if |Targets(kind, k)| == 1 {
          DropKeepsLoopfree(t, self, s, k, Targets(kind, k)[0]);
        }
        forall v: Id | Targets(kind, k) == [] ensures Hop1(u, k, v) == None {
          assert Hop1(t, k, v) == None;
        }
      }
    }
  }

  lemma InstallKeepsTableOk(kind: Kind, t: Table, self: Id, k: Id, r: Route)
    requires TableOk(kind, t) && r != [] && DistinctIds(r) && r[0].id in Targets(kind, k)
    requires forall i :: 0 <= i < |r| ==> r[i].hops == i
    ensures TableOk(kind, Install(t, self, k, r))
  {
    var u := Install(t, self, k, r);
    HopsFit(r);
    InstallKeepsEntriesOk(t, self, k, r);
    forall k': Id ensures KeyOk(kind, u, k') {
      assert KeyOk(kind, t, k');
      if k' != k {
        forall v: Id ensures Lookup(u, v, k') == Lookup(t, v, k') {
          InstallLookup(t, self, k, r, v, k');
        }
        UntouchedKeyStaysOk(kind, t, u, k');
      } else if |Targets(kind, k)| == 1 {
        InstallKeepsLoopfree(t, self, k, r);
      }
    }
  }

  /** Fields other than key, next hop, action and hops decide nothing about routes. */
  lemma MarkKeepsRoutes(t: Table, i: nat, e: Entry, k: Id, v: Id)
    requires i < |t|
    requires e.source == t[i].source && e.key == t[i].key && e.nextHop == t[i].nextHop && e.action == t[i].action
    ensures Find(t[i := e], v, k) == Find(t, v, k)
    ensures SameRoute(t, t[i := e], k, v)
  {
    var u := t[i := e];
    assert forall j :: 0 <= j < |t| ==> (Matches(u[j], v, k) <==> Matches(t[j], v, k));
    var a := Find(t, v, k);
    if a >= 0 {
      assert Matches(u[a], v, k);
    }
  }

  lemma MarkKeepsTableOk(kind: Kind, t: Table, i: nat, e: Entry)
    requires TableOk(kind, t) && i < |t|
    requires e.source == t[i].source && e.key == t[i].key && e.nextHop == t[i].nextHop && e.action == t[i].action
    requires e.hops == t[i].hops
    ensures TableOk(kind, t[i := e])
  {
    var u := t[i := e];
    forall a, b | SameKey(u, a, b) ensures a == b {
      assert SameKey(t, a, b);
    }
    forall k: Id ensures KeyOk(kind, u, k) {
      assert KeyOk(kind, t, k);
      forall v: Id ensures SameRoute(t, u, k, v) {
        MarkKeepsRoutes(t, i, e, k, v);
      }
      if |Targets(kind, k)| == 1 {
        assert SameRoute(t, u, k, Targets(kind, k)[0]);
        ChangeKeepsLoopfree(t, u, k, Targets(kind, k)[0]);
      }
      forall v: Id | Targets(kind, k) == [] ensures Hop1(u, k, v) == None {
        assert SameRoute(t, u, k, v) && Hop1(t, k, v) == None;
      }
    }
  }

  lemma ConfigureKeepsTableOk(kind: Kind, g: Graph, t: Table, self: Id, k: Id, r: Route)
    requires TableOk(kind, t) && RouteToOne(g, if r == [] then 0 else r[|r| - 1].id, Targets(kind, k), r)
    ensures r != [] && TableOk(kind, Configure(g, t, self, k, r))
  {
    var i := Find(t, r[|r| - 1].id, k);
    InstallKeepsTableOk(kind, t, self, k, r);
    if i >= 0 && !RouteLost(g, t, t[i]) {
      var w := PathWeight(g, Ids(Rebuild(t, t[i]).value));
      MarkKeepsTableOk(kind, t, i, t[i].(weight := w));
      InstallKeepsTableOk(kind, t[i := t[i].(weight := w)], self, k, r);
    }
  }

  // ---------------------------------------------------------------- one request or one step of a pass

  /**
    The common part of a flow request without entry and of one iteration of an update pass: the better
    route over all targets, configured, or DROP when there is none.
   */
  ghost function Serve(n: Net, kind: Kind, self: Id, t: Table, s: Id, k: Id): (Net, Table)
    requires GoodNet(n)
  {
    var (m, r) := BestRoute(n, s, Targets(kind, k), None);
    if r.Some? then (m, Configure(m.out, t, self, k, r.value))
    else (m, if MayDrop(kind, k) then Put(t, self, s, k, s, Drop, ROUTE_MAX_WEIGHT, ROUTE_MAX_HOPS) else t)
  }

  lemma ServeKeepsTableOk(n: Net, kind: Kind, self: Id, t: Table, s: Id, k: Id)
    requires GoodNet(n) && TableOk(kind, t)
    ensures var (m, u) := Serve(n, kind, self, t, s, k);
            GoodNet(m) && SameEdges(n.out, m.out) && TableOk(kind, u)
  {
    hide BestRoute;
    var (m, r) := BestRoute(n, s, Targets(kind, k), None);
    FreshRoute(n, s, Targets(kind, k));
    if r.Some? {
      ConfigureKeepsTableOk(kind, m.out, t, self, k, r.value);
    } else {
      DropKeepsTableOk(kind, t, self, s, k);
    }
  }

  /** The route that gets configured runs over the current digraph from the source to one of the targets. */
  lemma FreshRoute(n: Net, s: Id, ts: seq<Id>)
    requires GoodNet(n)
    ensures var (m, r) := BestRoute(n, s, ts, None);
            && SameEdges(n.out, m.out)
            && (r.Some? <==> Feasible(n.out, s, ts))
            && (r.Some? ==> r.value[|r.value| - 1].id == s && RouteToOne(m.out, s, ts, r.value))
  {
    hide BestRoute;
    var (m, r) := BestRoute(n, s, ts, None);
    BestRouteIsRoute(n, s, ts, None);
    if r.Some? {
      var d :| d in ts && IsRoute(n.out, s, d, r.value);
      SameEdgesSameRoute(n.out, m.out, s, d, r.value);
    }
  }
}
