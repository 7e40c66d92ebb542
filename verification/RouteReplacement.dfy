/**
  When a fresh route replaces the current one, in plain weights: the current route stays, mark for mark, as
  long as it costs at most one and a half times the fresh one, and gives way hop by hop when it costs more.
 */
module RouteReplacement {
  import opened Options
  import opened Graphs
  import opened Routes
  import opened NeighborReports
  import opened FlowTables
  import opened LoopFreedom
  import opened RouteUpdates
  import opened TableSafety
  import opened PassBound

  // ---------------------------------------------------------------- the current route, without rebuilding it

  /** The hop counts fall from entry to entry. */
  ghost predicate Descends(t: Table, k: Id, p: seq<Id>, i: int) {
    0 <= i < |p| - 2 ==>
      var a, b := Lookup(t, p[i], k), Lookup(t, p[i + 1], k);
      a.Some? && b.Some? && b.value.hops < a.value.hops
  }

  /** Next hops with falling hop counts, down to a vertex without entry. */
  ghost predicate IsCurrent(t: Table, k: Id, p: seq<Id>) {
    && |p| >= 2 && FollowsTable(t, k, p) && Lookup(t, p[|p| - 1], k) == None
    && forall i {:trigger Descends(t, k, p, i)} :: Descends(t, k, p, i)
  }

  lemma CurrentTail(t: Table, k: Id, p: seq<Id>)
    requires IsCurrent(t, k, p) && |p| >= 3
    ensures IsCurrent(t, k, p[1..])
  {
    TableTail(t, k, p);
    forall i ensures Descends(t, k, p[1..], i) {
      assert Descends(t, k, p, i + 1);
    }
  }

  lemma {:induction false} RebuiltIsCurrent(t: Table, e: Entry)
    requires EntriesOk(t) && e in t && Rebuild(t, e).Some?
    ensures var p := Ids(Rebuild(t, e).value); IsCurrent(t, e.key, p) && p[0] == e.source
    decreases e.hops
  {
    hide FollowsTable;
    hide EntriesOk;
    hide Descends;
    var p, k := Ids(Rebuild(t, e).value), e.key;
    RebuildFollowsTable(t, e);
    assert Lookup(t, e.source, k) == Some(e) by {
      EntryIsFound(t, e);
    }
    var next := Lookup(t, e.nextHop, k);
    if next.None? || next.value.action != Forward {
      forall i ensures Descends(t, k, p, i) {
        ShortDescends(t, k, p, i);
      }
    } else {
      RebuiltIsCurrent(t, next.value);
      var q := Ids(Rebuild(t, next.value).value);
      assert p == [e.source] + q;
      forall i ensures Descends(t, k, p, i) {
        assert Descends(t, k, q, i - 1);
        LongerDescends(t, k, e, q, i);
      }
    }
  }

  lemma EntryIsFound(t: Table, e: Entry)
    requires EntriesOk(t) && e in t
    ensures Lookup(t, e.source, e.key) == Some(e)
  {
    EntryLookup(t, e);
  }

  lemma ShortDescends(t: Table, k: Id, p: seq<Id>, i: int)
    requires |p| == 2
    ensures Descends(t, k, p, i)
  {
  }

  lemma LongerDescends(t: Table, k: Id, e: Entry, q: seq<Id>, i: int)
    requires Lookup(t, e.source, k) == Some(e) && q != [] && Descends(t, k, q, i - 1)
    requires Lookup(t, q[0], k).Some? && Lookup(t, q[0], k).value.hops < e.hops
    ensures Descends(t, k, [e.source] + q, i)
  {
    var p := [e.source] + q;
    assert forall j :: 0 < j < |p| ==> p[j] == q[j - 1];
  }

  lemma {:induction false} CurrentIsRebuilt(t: Table, e: Entry, p: seq<Id>)
    requires EntriesOk(t) && e in t && IsCurrent(t, e.key, p) && p[0] == e.source
    ensures Rebuild(t, e).Some? && Ids(Rebuild(t, e).value) == p
    decreases |p|
  {
    var k := e.key;
    EntryLookup(t, e);
    assert TableHop(t, k, p, 0);
    var next := Lookup(t, p[1], k);
    if |p| >= 3 {
      assert TableHop(t, k, p, 1) && Descends(t, k, p, 0);
      CurrentTail(t, k, p);
      CurrentIsRebuilt(t, next.value, p[1..]);
      assert Ids(Rebuild(t, e).value) == [e.source] + p[1..];
    } else {
      assert Ids(Rebuild(t, e).value) == [e.source, p[1]];
    }
  }

  /** Rebuilding finds exactly the chains of next hops with falling hop counts that end without entry. */
  lemma RebuildIsExact(t: Table, e: Entry, p: seq<Id>)
    requires EntriesOk(t) && e in t
    ensures Rebuild(t, e).Some? && Ids(Rebuild(t, e).value) == p <==> IsCurrent(t, e.key, p) && p[0] == e.source
  {
    if Rebuild(t, e).Some? && Ids(Rebuild(t, e).value) == p {
      RebuiltIsCurrent(t, e);
    } else if IsCurrent(t, e.key, p) && p[0] == e.source {
      CurrentIsRebuilt(t, e, p);
    }
  }

  // ---------------------------------------------------------------- kept or replaced

  /** The current route of `s`, still there in the digraph. */
  ghost predicate StillThere(g: Graph, t: Table, s: Id, k: Id, p: seq<Id>) {
    IsCurrent(t, k, p) && p[0] == s && IsPath(g, p)
  }

  /** Only the weight of the entry of `s` is different; all next hops, actions and marks are as before. */
  ghost predicate OnlyReweighed(t: Table, u: Table, s: Id, k: Id, w: int) {
    && |u| == |t|
    && forall j :: 0 <= j < |t| ==> u[j] == if Matches(t[j], s, k) then t[j].(weight := w) else t[j]
  }

  /** The entry of route node `j`, marked exactly when it is new, was marked or has changed. */
  ghost predicate NewHop(t: Table, u: Table, self: Id, k: Id, r: Route, j: int) {
    0 < j < |r| ==>
      var o, n := Lookup(t, r[j].id, k), Lookup(u, r[j].id, k);
      && Hop1(u, k, r[j].id) == Some(r[j - 1].id)
      && n.Some? && n.value.weight == r[j].weight && n.value.hops == r[j].hops
      && (n.value.changed <==> o.None? || o.value.changed || Hop1(t, k, r[j].id) != Some(r[j - 1].id))
      && (o.None? || Hop1(t, k, r[j].id) != Some(r[j - 1].id) ==>
            n.value.countdown == 60 && (n.value.online <==> r[j].id == self))
  }

  ghost predicate OffRoute(r: Route, k: Id, v: Id, k': Id) {
    k' != k || forall i :: 0 < i < |r| ==> r[i].id != v
  }

  /** The route is installed hop by hop, and nothing else is different. */
  ghost predicate Replaced(t: Table, u: Table, self: Id, k: Id, r: Route) {
    && (forall j {:trigger NewHop(t, u, self, k, r, j)} :: NewHop(t, u, self, k, r, j))
    && forall v: Id, k': Id {:trigger OffRoute(r, k, v, k')} ::
      OffRoute(r, k, v, k') ==> Lookup(u, v, k') == Lookup(t, v, k')
  }

  lemma InstallReplaces(t: Table, self: Id, k: Id, r: Route)
    requires DistinctIds(r)
    ensures Replaced(t, Install(t, self, k, r), self, k, r)
  {
    var u := Install(t, self, k, r);
    forall j ensures NewHop(t, u, self, k, r, j) {
      if 0 < j < |r| {
        InstallLookup(t, self, k, r, r[j].id, k);
        assert Lookup(u, r[j].id, k) ==
               Some(PutEntry(t, self, r[j].id, k, r[j - 1].id, Forward, r[j].weight, r[j].hops));
      }
    }
    forall v: Id, k': Id | OffRoute(r, k, v, k') ensures Lookup(u, v, k') == Lookup(t, v, k') {
      InstallLookup(t, self, k, r, v, k');
    }
  }

  /** The weight of the entry at the source is written over anyway. */
  lemma ReweighedFirst(t: Table, i: nat, w: int, u: Table, self: Id, k: Id, r: Route)
    requires i < |t| && t[i].key == k && |r| >= 2 && r[|r| - 1].id == t[i].source
    requires Replaced(t[i := t[i].(weight := w)], u, self, k, r)
    ensures Replaced(t, u, self, k, r)
  {
    var t1 := t[i := t[i].(weight := w)];
    forall j ensures NewHop(t, u, self, k, r, j) {
      assert NewHop(t1, u, self, k, r, j);
      if 0 < j < |r| {
        MarkKeepsRoutes(t, i, t1[i], k, r[j].id);
      }
    }
    forall v: Id, k': Id | OffRoute(r, k, v, k') ensures Lookup(u, v, k') == Lookup(t, v, k') {
      MarkKeepsRoutes(t, i, t1[i], k', v);
      assert Lookup(u, v, k') == Lookup(t1, v, k');
    }
  }

  lemma StillThereIsNotLost(g: Graph, t: Table, s: Id, k: Id, p: seq<Id>) returns (i: nat)
    requires EntriesOk(t) && StillThere(g, t, s, k, p)
    ensures i == Find(t, s, k) && i < |t| && Matches(t[i], s, k)
    ensures !RouteLost(g, t, t[i]) && Ids(Rebuild(t, t[i]).value) == p
  {
    assert TableHop(t, k, p, 0);
    i := Find(t, s, k);
    RebuildIsExact(t, t[i], p);
  }

  /**
    With a current route `p` that still exists, configuring the fresh route `r` keeps it when its weight is at
    most one and a half times that of `r`, and replaces it when it is more.
   */
  lemma ReplacedExactly(g: Graph, t: Table, self: Id, s: Id, k: Id, d: Id, r: Route, p: seq<Id>)
    requires EntriesOk(t) && IsRoute(g, s, d, r) && StillThere(g, t, s, k, p)
    ensures var u := Configure(g, t, self, k, r);
            var current := PathWeight(g, p);
            var found := r[|r| - 1].weight;
            && (2 * current <= 3 * found ==> OnlyReweighed(t, u, s, k, current))
            && (2 * current > 3 * found ==> Replaced(t, u, self, k, r))
  {
    hide Install;
    hide Replaced;
    hide Rebuild;
    var i := StillThereIsNotLost(g, t, s, k, p);
    var w := PathWeight(g, p);
    var t1 := t[i := t[i].(weight := w)];
    if 2 * w <= 3 * r[|r| - 1].weight {
      forall j | 0 <= j < |t| && j != i ensures !Matches(t[j], s, k) {
        assert !SameKey(t, i, j);
      }
    } else {
      InstallReplaces(t1, self, k, r);
      ReweighedFirst(t, i, w, Install(t1, self, k, r), self, k, r);
    }
  }

  lemma NotLostIsStillThere(g: Graph, t: Table, i: nat) returns (p: seq<Id>)
    requires EntriesOk(t) && i < |t| && !RouteLost(g, t, t[i])
    ensures StillThere(g, t, t[i].source, t[i].key, p)
  {
    p := Ids(Rebuild(t, t[i]).value);
    RebuildIsExact(t, t[i], p);
  }

  /** Without such a route the fresh one is installed. */
  lemma InstalledWithoutCurrent(g: Graph, t: Table, self: Id, s: Id, k: Id, d: Id, r: Route)
    requires EntriesOk(t) && IsRoute(g, s, d, r) && forall p :: !StillThere(g, t, s, k, p)
    ensures Replaced(t, Configure(g, t, self, k, r), self, k, r)
  {
    hide Install;
    hide Replaced;
    InstallReplaces(t, self, k, r);
    var i := Find(t, s, k);
    if i >= 0 && !RouteLost(g, t, t[i]) {
      var p := NotLostIsStillThere(g, t, i);
    }
  }

  // ---------------------------------------------------------------- the route chosen over all targets

  /** The target is another vertex and can be reached. */
  ghost predicate Offers(g: Graph, s: Id, d: Id) {
    d != s && Reachable(g, s, d)
  }

  lemma OneTargetIsExact(n: Net, s: Id, d: Id, best: Option<Route>)
    requires GoodNet(n) && (best.Some? ==> best.value != [])
    ensures var (m, r) := OneTarget(n, s, d, best);
            && SameEdges(n.out, m.out)
            && if Offers(n.out, s, d) && (best.None? || Total(n, s, d) <= best.value[0].weight)
               then r.Some? && IsRoute(n.out, s, d, r.value) && r.value[0].weight == Total(n, s, d)
               else r == best
  {
    hide FindRoute;
    hide IsRoute;
    hide Reachable;
    WithVertexKeepsGood(n, s);
    WithVertexSameEdges(n, s);
    var n1 := WithVertex(n, s);
    WithVertexSameEdges(n1, d);
    SameEdgesSameReach(n.out, n1.out, s, d);
    var r := FindRoute(n1.out, s, d);
    if r.Some? {
      SameEdgesSameRoute(n.out, n1.out, s, d, r.value);
    }
  }

  /** Target number `j` offers the least total of all, and less than every later one. */
  ghost predicate LastLeast(n: Net, s: Id, ts: seq<Id>, j: int)
    requires GoodNet(n) && 0 <= j < |ts|
  {
    && Offers(n.out, s, ts[j])
    && forall i :: 0 <= i < |ts| && i != j && Offers(n.out, s, ts[i]) ==>
      Total(n, s, ts[j]) <= Total(n, s, ts[i]) && (i > j ==> Total(n, s, ts[j]) < Total(n, s, ts[i]))
  }

  /** All targets that can be reached offer more than `best`. */
  ghost predicate NoneLess(n: Net, s: Id, ts: seq<Id>, best: Option<Route>)
    requires GoodNet(n)
  {
    forall i :: 0 <= i < |ts| && Offers(n.out, s, ts[i]) ==>
      best.Some? && best.value != [] && best.value[0].weight < Total(n, s, ts[i])
  }

  lemma SameEdgesSameOffers(n: Net, m: Net, s: Id, d: Id)
    requires GoodNet(n) && GoodNet(m) && SameEdges(n.out, m.out)
    ensures Offers(n.out, s, d) <==> Offers(m.out, s, d)
    ensures Total(n, s, d) == Total(m, s, d)
  {
    SameEdgesSameReach(n.out, m.out, s, d);
    TotalSameEdges(n, m, s, d);
  }

  lemma {:induction false} BestRouteChoice(n: Net, s: Id, ts: seq<Id>, best: Option<Route>) returns (j: nat)
    requires GoodNet(n) && (best.Some? ==> best.value != [])
    ensures var r := BestRoute(n, s, ts, best).1;
            if j < |ts| then
              && LastLeast(n, s, ts, j) && (best.Some? ==> Total(n, s, ts[j]) <= best.value[0].weight)
              && r.Some? && IsRoute(n.out, s, ts[j], r.value) && r.value[0].weight == Total(n, s, ts[j])
            else r == best && NoneLess(n, s, ts, best)
    decreases |ts|
  {
    hide OneTarget;
    hide Offers;
    hide Total;
    hide IsRoute;
    hide SameEdges;
    if ts == [] {
      return 0;
    }
    var (m, b) := OneTarget(n, s, ts[0], best);
    OneTargetIsExact(n, s, ts[0], best);
    var i := BestRouteChoice(m, s, ts[1..], b);
    forall d: Id ensures (Offers(n.out, s, d) <==> Offers(m.out, s, d)) && Total(n, s, d) == Total(m, s, d) {
      SameEdgesSameOffers(n, m, s, d);
    }
    var r := BestRoute(n, s, ts, best).1;
    assert forall x :: 0 < x < |ts| ==> ts[x] == ts[1..][x - 1];
    if i < |ts| - 1 {
      j := i + 1;
      SameEdgesSameRoute(n.out, m.out, s, ts[j], r.value);
    } else if b == best && NoneLess(n, s, ts[..1], best) {
      j := |ts|;
      assert ts[..1][0] == ts[0];
    } else {
      j := 0;
    }
  }

  // ---------------------------------------------------------------- one iteration of a pass

  /** Some target of the key offers a total that the weight of the current route exceeds by more than half. */
  ghost predicate Undercut(n: Net, s: Id, ts: seq<Id>, current: int)
    requires GoodNet(n)
  {
    exists d :: d in ts && Offers(n.out, s, d) && 3 * Total(n, s, d) < 2 * current
  }

  ghost predicate ReplacedByLeast(n: Net, self: Id, s: Id, k: Id, ts: seq<Id>, t: Table, u: Table)
    requires GoodNet(n)
  {
    exists j: nat, r :: j < |ts| && LastLeast(n, s, ts, j) && IsRoute(n.out, s, ts[j], r) && Replaced(t, u, self, k, r)
  }

  /**
    An iteration for an entry whose current route still exists and for which some target can be reached: the
    route is replaced, by one to the last target of least total, exactly when some target undercuts it.
   */
  lemma IterationReplacesExactly(n: Net, kind: Kind, self: Id, t: Table, s: Id, k: Id, p: seq<Id>)
    requires GoodNet(n) && TableOk(kind, t) && StillThere(n.out, t, s, k, p) && Feasible(n.out, s, Targets(kind, k))
    ensures var u := Serve(n, kind, self, t, s, k).1;
            var (ts, current) := (Targets(kind, k), PathWeight(n.out, p));
            if Undercut(n, s, ts, current) then ReplacedByLeast(n, self, s, k, ts, t, u)
            else OnlyReweighed(t, u, s, k, current)
  {
    hide BestRoute;
    hide Configure;
    hide Replaced;
    hide TableOk;
    hide Total;
    var ts, current := Targets(kind, k), PathWeight(n.out, p);
    var (m, r) := BestRoute(n, s, ts, None);
    FreshRoute(n, s, ts);
    var j := BestRouteChoice(n, s, ts, None);
    assert Offers(n.out, s, ts[j]) && r.value[0].weight == r.value[|r.value| - 1].weight == Total(n, s, ts[j]);
    SameEdgesSamePaths(n.out, m.out, p);
    SameEdgesSameRoute(n.out, m.out, s, ts[j], r.value);
    assert EntriesOk(t) by {
      EntriesAreOk(kind, t);
    }
    ReplacedExactly(m.out, t, self, s, k, ts[j], r.value, p);
    if 2 * current > 3 * Total(n, s, ts[j]) {
      assert ts[j] in ts;
    } else {
      forall d | d in ts && Offers(n.out, s, d) ensures 3 * Total(n, s, d) >= 2 * current {
        var i :| 0 <= i < |ts| && ts[i] == d;
      }
    }
  }

  lemma EntriesAreOk(kind: Kind, t: Table)
    requires TableOk(kind, t)
    ensures EntriesOk(t)
  {
  }

  /** An iteration for an entry without a target to reach: it says DROP then, unless the key leads to the controller. */
  lemma IterationDrops(n: Net, kind: Kind, self: Id, t: Table, s: Id, k: Id, v: Id, k': Id)
    requires GoodNet(n) && forall d :: d in Targets(kind, k) ==> !Offers(n.out, s, d)
    ensures var u := Serve(n, kind, self, t, s, k).1;
            var (a, b) := (Lookup(t, v, k'), Lookup(u, v, k'));
            if v == s && k' == k && (kind.ByAddress? || k != 0) then
              && b.Some? && b.value.action == Drop && b.value.nextHop == s && b.value.hops == 65535
              && (b.value.changed <==> a.None? || a.value.changed || a.value.action != Drop || a.value.nextHop != s)
            else b == a
  {
    hide BestRoute;
    FreshRoute(n, s, Targets(kind, k));
    assert forall d :: d in Targets(kind, k) && d != s && Reachable(n.out, s, d) ==> Offers(n.out, s, d);
    PutLookup(t, self, s, k, s, Drop, ROUTE_MAX_WEIGHT, ROUTE_MAX_HOPS, v, k');
  }

  /** The targets of a key come in the order of their registrations. */
  lemma {:induction false} TargetsOfBoth(a: seq<(Id, Id)>, b: seq<(Id, Id)>, k: Id)
    ensures TargetsIn(a + b, k) == TargetsIn(a, k) + TargetsIn(b, k)
    decreases |b|
  {
    if b == [] {
      assert a + b == a;
    } else {
      assert (a + b)[..|a + b| - 1] == a + b[..|b| - 1];
      TargetsOfBoth(a, b[..|b| - 1], k);
    }
  }
}
