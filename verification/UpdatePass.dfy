/**
  A complete update pass over the table by address (checks_flow_address_table_changes): it walks the list
  while routes append to it, and leaves the table agreeing with reachability in the digraph.
 */
module UpdatePass {
  import opened Options
  import opened Graphs
  import opened Routes
  import opened NeighborReports
  import opened FlowTables
  import opened LoopFreedom
  import opened RouteUpdates
  import opened TableSafety
  import opened SetupPushes
  import opened ControllerRuns

  // ---------------------------------------------------------------- termination of the walk

  /** Positions from `i` on that are not marked as changed. */
  ghost function Waiting(t: Table, i: nat): set<int> {
    set j | i <= j < |t| && !t[j].changed
  }

  /** A step keeps the entries in place and appends or rewrites only entries that are marked. */
  ghost predicate Extends(t: Table, u: Table) {
    && |t| <= |u|
    && (forall j :: 0 <= j < |t| ==> u[j].source == t[j].source && u[j].key == t[j].key)
    && (forall j :: 0 <= j < |u| && !u[j].changed ==> j < |t| && !t[j].changed && SameSetup(t[j], u[j]))
  }

  lemma PutExtends(t: Table, self: Id, s: Id, k: Id, nextHop: Id, a: Action, w: int, h: nat)
    ensures Extends(t, Put(t, self, s, k, nextHop, a, w, h))
  {
  }

  lemma {:induction false} InstallExtends(t: Table, self: Id, k: Id, r: Route)
    ensures Extends(t, Install(t, self, k, r))
    decreases |r|
  {
    if |r| >= 2 {
      var t1 := Put(t, self, r[1].id, k, r[0].id, Forward, r[1].weight, r[1].hops);
      PutExtends(t, self, r[1].id, k, r[0].id, Forward, r[1].weight, r[1].hops);
      InstallExtends(t1, self, k, r[1..]);
      assert Extends(t, Install(t, self, k, r));
    }
  }

  lemma ConfigureExtends(g: Graph, t: Table, self: Id, k: Id, r: Route)
    requires r != []
    ensures Extends(t, Configure(g, t, self, k, r))
  {
    InstallExtends(t, self, k, r);
    var i := Find(t, r[|r| - 1].id, k);
    if i >= 0 && !RouteLost(g, t, t[i]) {
      var u := t[i := t[i].(weight := PathWeight(g, Ids(Rebuild(t, t[i]).value)))];
      assert Extends(t, u);
      InstallExtends(u, self, k, r);
      assert Extends(t, Install(u, self, k, r));
    }
  }

  lemma ServeExtends(n: Net, kind: Kind, self: Id, t: Table, s: Id, k: Id)
    requires GoodNet(n)
    ensures Extends(t, Serve(n, kind, self, t, s, k).1)
  {
    hide BestRoute;
    var (m, r) := BestRoute(n, s, Targets(kind, k), None);
    if r.Some? {
      ConfigureExtends(m.out, t, self, k, r.value);
    }
    PutExtends(t, self, s, k, s, Drop, ROUTE_MAX_WEIGHT, ROUTE_MAX_HOPS);
  }

  lemma ExtendsTwice(t: Table, u: Table, v: Table)
    requires Extends(t, u) && Extends(u, v)
    ensures Extends(t, v)
  {
  }

  lemma MarkedIsSkipped(t: Table, i: nat)
    requires i < |t| && t[i].changed
    ensures Waiting(t, i + 1) == Waiting(t, i)
  {
  }

  lemma WaitingShrinks(t: Table, u: Table, i: nat)
    requires Extends(t, u) && i < |t| && !t[i].changed
    ensures Waiting(u, i + 1) < Waiting(t, i)
  {
    assert i in Waiting(t, i) && i !in Waiting(u, i + 1);
  }

  /** The walk from position `i`: only entries not marked when reached are served. */
  ghost function Walk(n: Net, kind: Kind, self: Id, t: Table, i: nat): (r: (Net, Table))
    requires GoodNet(n) && TableOk(kind, t)
    ensures GoodNet(r.0) && SameEdges(n.out, r.0.out) && TableOk(kind, r.1) && Extends(t, r.1)
    decreases Waiting(t, i), |t| - i
  {
    if i >= |t| then (n, t)
    else if t[i].changed then
      MarkedIsSkipped(t, i);
      Walk(n, kind, self, t, i + 1)
    else
      hide Serve;
      hide Extends;
      var (m, u) := Serve(n, kind, self, t, t[i].source, t[i].key);
      ServeKeepsTableOk(n, kind, self, t, t[i].source, t[i].key);
      ServeExtends(n, kind, self, t, t[i].source, t[i].key);
      WaitingShrinks(t, u, i);
      var r := Walk(m, kind, self, u, i + 1);
      ExtendsTwice(t, u, r.1);
      r
  }

  // ---------------------------------------------------------------- what a served entry is like

  /** FORWARD exactly when the target is another vertex that can be reached, and then delivering. */
  ghost predicate Settled(g: Graph, t: Table, e: Entry) {
    && (e.action == Forward <==> e.source != e.key && Reachable(g, e.source, e.key))
    && (e.action == Forward ==> Delivers(g, t, e.key, e.key, e.source))
  }

  /** The same setup stays settled as long as no delivery for its key is disturbed. */
  lemma StaysSettled(g: Graph, t: Table, u: Table, e: Entry, f: Entry)
    requires Settled(g, t, e) && SameSetup(e, f)
    requires forall x: Id {:trigger Delivers(g, u, e.key, e.key, x)} ::
      Hop1(t, e.key, x) == Hop1(u, e.key, x) || Delivers(g, u, e.key, e.key, x) || !Reachable(g, x, e.key)
    ensures Settled(g, u, f)
  {
    if e.action == Forward {
      var n: nat :| Arrives(g, t, e.key, e.key, e.source, n);
      StillDelivers(g, t, u, e.key, e.key, e.source, n);
    }
  }

  lemma DropSettles(g: Graph, t: Table, self: Id, s: Id, k: Id, j: nat)
    requires Unique(t) && (s == k || !Reachable(g, s, k)) && Lookup(t, s, k).Some?
    ensures var u := Put(t, self, s, k, s, Drop, ROUTE_MAX_WEIGHT, ROUTE_MAX_HOPS);
            && |u| == |t|
            && (j < |t| && Matches(t[j], s, k) ==> Settled(g, u, u[j]))
            && (j < |t| && !Matches(t[j], s, k) ==> u[j] == t[j])
            && (j < |t| && Settled(g, t, t[j]) ==> Settled(g, u, u[j]))
  {
    var u := Put(t, self, s, k, s, Drop, ROUTE_MAX_WEIGHT, ROUTE_MAX_HOPS);
    if j < |t| {
      FindAt(t, j);
      if Settled(g, t, t[j]) && !Matches(t[j], s, k) {
        forall x: Id ensures Hop1(t, t[j].key, x) == Hop1(u, t[j].key, x) || Delivers(g, u, t[j].key, t[j].key, x)
                          || !Reachable(g, x, t[j].key) {
          PutLookup(t, self, s, k, s, Drop, ROUTE_MAX_WEIGHT, ROUTE_MAX_HOPS, x, t[j].key);
          if x == s == k && t[j].key == k {
            assert Arrives(g, u, k, k, x, 0);
          }
        }
        StaysSettled(g, t, u, t[j], u[j]);
      }
    }
  }

  /** The position of a vertex on the installed part of a route, or 0. */
  function OnRoute(r: Route, v: Id): (i: nat)
    ensures i > 0 ==> i < |r| && r[i].id == v
    ensures i == 0 ==> forall j :: 0 < j < |r| ==> r[j].id != v
    decreases |r|
  {
    if |r| <= 1 then 0
    else if r[|r| - 1].id == v then |r| - 1
    else OnRoute(r[..|r| - 1], v)
  }

  lemma InstallSettles(g: Graph, t: Table, self: Id, s: Id, k: Id, r: Route, j: nat)
    requires Unique(t) && IsRoute(g, s, k, r)
    ensures var u := Install(t, self, k, r);
            && |t| <= |u|
            && (j < |u| && u[j].key == k && OnRoute(r, u[j].source) > 0 ==> Settled(g, u, u[j]))
            && (j < |u| && !(u[j].key == k && OnRoute(r, u[j].source) > 0) ==> j < |t| && u[j] == t[j])
            && (j < |t| && Settled(g, t, t[j]) ==> Settled(g, u, u[j]))
  {
    var u := Install(t, self, k, r);
    InstallKeepsUnique(t, self, k, r);
    InstallExtends(t, self, k, r);
    if j < |u| {
      var e := u[j];
      var i := OnRoute(r, e.source);
      FindAt(u, j);
      InstallLookup(t, self, k, r, e.source, e.key);
      if e.key == k && i > 0 {
        InstalledArrives(g, t, self, s, k, k, r, i);
        ArrivesIsReachable(g, u, k, k, e.source, i);
        HeadStandsAlone(r);
      } else {
        assert Lookup(u, e.source, e.key) == Some(e) == Lookup(t, e.source, e.key);
        if j < |t| {
          FindAt(t, j);
        } else {
          FindInBoth(t, u, Find(t, e.source, e.key), j);
        }
        if j < |t| && Settled(g, t, t[j]) {
          forall x: Id ensures Hop1(t, e.key, x) == Hop1(u, e.key, x) || Delivers(g, u, e.key, e.key, x)
                            || !Reachable(g, x, e.key) {
            InstallLookup(t, self, k, r, x, e.key);
            if e.key == k && OnRoute(r, x) > 0 {
              InstalledArrives(g, t, self, s, k, k, r, OnRoute(r, x));
            }
          }
          StaysSettled(g, t, u, t[j], e);
        }
      }
    }
  }

  lemma FindInBoth(t: Table, u: Table, i: int, j: nat)
    requires Extends(t, u) && Unique(u) && 0 <= i < |t| && j < |u|
    requires u[j].source == t[i].source && u[j].key == t[i].key
    ensures i == j
  {
    assert SameKey(u, i, j);
  }

  /** A rebuilt route that still exists in the digraph leads all the way to the only target. */
  lemma KeptRouteDelivers(kind: Kind, g: Graph, t: Table, e: Entry, d: Id)
    requires TableOk(kind, t) && Targets(kind, e.key) == [d] && e in t && !RouteLost(g, t, e)
    ensures Delivers(g, t, e.key, d, e.source) && e.action == Forward && e.source != d
    ensures var p := Ids(Rebuild(t, e).value);
            PathFromTo(g, p, e.source, d) && FollowsTable(t, e.key, p)
  {
    var p, k := Ids(Rebuild(t, e).value), e.key;
    RebuildFollowsTable(t, e);
    EntryLookup(t, e);
    assert KeyOk(kind, t, k);
    assert Hop1(t, k, e.source) == Some(e.nextHop) && Ends(t, k, d, e.source);
    var n: nat :| Leads(t, k, d, e.source, n);
    TablePathEnds(t, k, d, p, n);
    TablePathArrives(g, t, k, d, p);
  }

  lemma ReweighSettles(g: Graph, t: Table, i: nat, w: int, j: nat)
    requires i < |t| && j < |t| && Settled(g, t, t[j])
    ensures var u := t[i := t[i].(weight := w)]; Settled(g, u, u[j])
  {
    var u := t[i := t[i].(weight := w)];
    forall x: Id ensures Hop1(t, t[j].key, x) == Hop1(u, t[j].key, x) {
      MarkKeepsRoutes(t, i, t[i].(weight := w), t[j].key, x);
    }
    StaysSettled(g, t, u, t[j], u[j]);
  }

  /** One served entry: it is settled afterwards, so is every newly marked one, and none gets unsettled. */
  lemma ConfigureSettles(g: Graph, t: Table, self: Id, i: nat, r: Route, j: nat)
    requires TableOk(ByAddress, t) && i < |t| && IsRoute(g, t[i].source, t[i].key, r)
    ensures var u := Configure(g, t, self, t[i].key, r);
            && |t| <= |u|
            && (j == i ==> Settled(g, u, u[j]))
            && (j < |t| && Settled(g, t, t[j]) ==> Settled(g, u, u[j]))
            && (j < |u| && u[j].changed && !(j < |t| && t[j].changed) ==> Settled(g, u, u[j]))
  {
    var s, k := t[i].source, t[i].key;
    FindAt(t, i);
    if RouteLost(g, t, t[i]) {
      InstallSettles(g, t, self, s, k, r, j);
    } else {
      var w := PathWeight(g, Ids(Rebuild(t, t[i]).value));
      var u := t[i := t[i].(weight := w)];
      MarkKeepsTableOk(ByAddress, t, i, t[i].(weight := w));
      if j < |t| && Settled(g, t, t[j]) {
        ReweighSettles(g, t, i, w, j);
      }
      if ClearlyBetter(r[|r| - 1].weight, w) {
        InstallSettles(g, u, self, s, k, r, j);
      } else if j == i {
        KeptRouteDelivers(ByAddress, g, t, t[i], k);
        var n: nat :| Arrives(g, t, k, k, s, n);
        ArrivesIsReachable(g, t, k, k, s, n);
        assert Settled(g, t, t[i]);
        ReweighSettles(g, t, i, w, j);
      }
    }
  }

  lemma ServeSettles(n: Net, self: Id, t: Table, i: nat, j: nat)
    requires GoodNet(n) && TableOk(ByAddress, t) && i < |t|
    ensures var (m, u) := Serve(n, ByAddress, self, t, t[i].source, t[i].key);
            && SameEdges(n.out, m.out) && |t| <= |u|
            && (j == i ==> Settled(m.out, u, u[j]))
            && (j < |t| && Settled(m.out, t, t[j]) ==> Settled(m.out, u, u[j]))
            && (j < |u| && u[j].changed && !(j < |t| && t[j].changed) ==> Settled(m.out, u, u[j]))
  {
    hide BestRoute;
    var s, k := t[i].source, t[i].key;
    var (m, r) := BestRoute(n, s, [k], None);
    FreshRoute(n, s, [k]);
    if r.Some? {
      ConfigureSettles(m.out, t, self, i, r.value, j);
    } else {
      SameEdgesSameReach(n.out, m.out, s, k);
      assert k in [k];
      FindAt(t, i);
      DropSettles(m.out, t, self, s, k, j);
    }
  }

  lemma SameEdgesSameSettled(g: Graph, h: Graph, t: Table, e: Entry)
    requires SameEdges(g, h) && Settled(g, t, e)
    ensures Settled(h, t, e)
  {
    SameEdgesSameReach(g, h, e.source, e.key);
    if e.action == Forward {
      var n: nat :| Arrives(g, t, e.key, e.key, e.source, n);
      SameEdgesSameArrival(g, h, t, e.key, e.key, e.source, n);
    }
  }

  lemma {:induction false} SameEdgesSameArrival(g: Graph, h: Graph, t: Table, k: Id, d: Id, v: Id, n: nat)
    requires SameEdges(g, h) && Arrives(g, t, k, d, v, n)
    ensures Arrives(h, t, k, d, v, n)
    decreases n
  {
    if v != d {
      assert Out(g, v) == Out(h, v);
      SameEdgesSameArrival(g, h, t, k, d, Hop1(t, k, v).value, n - 1);
    }
  }

  // ---------------------------------------------------------------- the whole pass

  /** Everything before position `i`, and everything marked, is settled. */
  ghost predicate SettledUpTo(g: Graph, t: Table, i: nat) {
    forall j {:trigger Settled(g, t, t[j])} :: 0 <= j < |t| && (j < i || t[j].changed) ==> Settled(g, t, t[j])
  }

  /** One iteration of the walk. */
  lemma ServeSettlesMore(n: Net, self: Id, t: Table, i: nat)
    requires GoodNet(n) && TableOk(ByAddress, t) && SettledUpTo(n.out, t, i) && i < |t|
    ensures var (m, u) := Serve(n, ByAddress, self, t, t[i].source, t[i].key); SettledUpTo(m.out, u, i + 1)
  {
    hide Serve;
    hide TableOk;
    hide GoodNet;
    hide SameEdges;
    var (m, u) := Serve(n, ByAddress, self, t, t[i].source, t[i].key);
    forall j | 0 <= j < |u| && (j < i + 1 || u[j].changed) ensures Settled(m.out, u, u[j]) {
      ServeSettles(n, self, t, i, j);
      if j < |t| && (j < i || t[j].changed) {
        SameEdgesSameSettled(n.out, m.out, t, t[j]);
      }
    }
  }

  lemma {:induction false} WalkSettles(n: Net, self: Id, t: Table, i: nat)
    requires GoodNet(n) && TableOk(ByAddress, t) && SettledUpTo(n.out, t, i)
    ensures var (m, u) := Walk(n, ByAddress, self, t, i); SettledUpTo(m.out, u, |u|)
    decreases Waiting(t, i), |t| - i
  {
    hide Serve;
    hide TableOk;
    hide GoodNet;
    hide Settled;
    if i < |t| {
      if t[i].changed {
        MarkedIsSkipped(t, i);
        WalkSettles(n, self, t, i + 1);
      } else {
        var (m, u) := Serve(n, ByAddress, self, t, t[i].source, t[i].key);
        ServeKeepsTableOk(n, ByAddress, self, t, t[i].source, t[i].key);
        ServeExtends(n, ByAddress, self, t, t[i].source, t[i].key);
        ServeSettlesMore(n, self, t, i);
        WaitingShrinks(t, u, i);
        WalkSettles(m, self, u, i + 1);
      }
    }
  }

  lemma UnmarkedSameHops(t: Table, u: Table, k: Id, v: Id)
    requires OnlyUnmarked(t, u)
    ensures Hop1(t, k, v) == Hop1(u, k, v) && Find(t, v, k) == Find(u, v, k)
  {
    assert forall j :: 0 <= j < |t| ==> (Matches(u[j], v, k) <==> Matches(t[j], v, k));
    var a := Find(t, v, k);
    if a >= 0 {
      assert Matches(u[a], v, k);
    }
  }

  lemma {:induction false} WalkKeepsInSync(n: Net, kind: Kind, self: Id, t: Table, i: nat, ps: seq<Push>)
    requires GoodNet(n) && TableOk(kind, t) && InSync(t, ps)
    ensures InSync(Walk(n, kind, self, t, i).1, ps)
    decreases Waiting(t, i), |t| - i
  {
    hide Serve;
    if i < |t| {
      if t[i].changed {
        MarkedIsSkipped(t, i);
        WalkKeepsInSync(n, kind, self, t, i + 1, ps);
      } else {
        var (m, u) := Serve(n, kind, self, t, t[i].source, t[i].key);
        ServeKeepsTableOk(n, kind, self, t, t[i].source, t[i].key);
        ServeKeepsInSync(n, kind, self, t, t[i].source, t[i].key, ps);
        ServeExtends(n, kind, self, t, t[i].source, t[i].key);
        WaitingShrinks(t, u, i);
        WalkKeepsInSync(m, kind, self, u, i + 1, ps);
      }
    }
  }

  /** The walk of checks_flow_*_table_changes. */
  ghost function Walked(c: Site, st: State): (x: State)
    requires Safe(st)
    ensures Safe(x) && Extends(st.table, x.table) && SameEdges(st.net.out, x.net.out)
    ensures x.kind == st.kind && x.pushes == st.pushes
  {
    WalkKeepsInSync(st.net, st.kind, c.self, st.table, 0, st.pushes);
    var (m, u) := Walk(st.net, st.kind, c.self, st.table, 0);
    st.(net := m, table := u)
  }

  /** checks_flow_*_table_changes: the walk, then the pushes. */
  ghost function Pass(c: Site, st: State): State
    requires Safe(st)
  {
    FlushFrom(c, Walked(c, st), 0)
  }

  /** What the pushes of a pass mean for entry `j`. */
  ghost predicate PushedInPass(c: Site, st: State, x: State, j: int)
    requires 0 <= j < |x.table|
  {
    var e := x.table[j];
    var i := LastPush(x.pushes, e.source, e.key);
    && i >= 0 && Carries(x.pushes[i].setup, e)
    && (i < |st.pushes| ==> j < |st.table| && SameSetup(st.table[j], e) && x.pushes[i] == st.pushes[i])
    && (i >= |st.pushes| ==> (x.pushes[i].sent <==> Reachable(st.net.out, c.self, e.source) && c.room(i)))
  }

  /**
    A pass that starts without marks ends without marks and with the table agreeing with the digraph: an
    entry forwards exactly when its target is another, reachable vertex, and its next hops then follow
    existing edges all the way to the target.  An entry the pass has changed was pushed last as it is now,
    and that push was sent exactly when the controller can reach the node and there was room.
   */
  lemma PassMakesConsistent(c: Site, st: State)
    requires Safe(st) && st.kind == ByAddress
    requires forall j :: 0 <= j < |st.table| ==> !st.table[j].changed
    ensures var x := Pass(c, st);
            && Safe(x) && SameEdges(st.net.out, x.net.out) && |st.table| <= |x.table|
            && (forall j :: 0 <= j < |st.table| ==>
                  x.table[j].source == st.table[j].source && x.table[j].key == st.table[j].key)
            && forall j :: 0 <= j < |x.table| ==>
              !x.table[j].changed && Settled(x.net.out, x.table, x.table[j]) && PushedInPass(c, st, x, j)
  {
    hide Settled;
    hide PushedInPass;
    hide SameEdges;
    var x := Pass(c, st);
    PassSettles(c, st);
    forall j | 0 <= j < |x.table| ensures PushedInPass(c, st, x, j) {
      EntryPushedInPass(c, st, j);
    }
  }

  lemma PassSettles(c: Site, st: State)
    requires Safe(st) && st.kind == ByAddress
    requires forall j :: 0 <= j < |st.table| ==> !st.table[j].changed
    ensures var x := Pass(c, st);
            && Safe(x) && SameEdges(st.net.out, x.net.out) && |st.table| <= |x.table|
            && (forall j :: 0 <= j < |st.table| ==>
                  x.table[j].source == st.table[j].source && x.table[j].key == st.table[j].key)
            && forall j :: 0 <= j < |x.table| ==> !x.table[j].changed && Settled(x.net.out, x.table, x.table[j])
  {
    hide Walk;
    hide FlushFrom;
    hide TableOk;
    hide GoodNet;
    hide Settled;
    var w, x := Walked(c, st), Pass(c, st);
    WalkSettles(st.net, c.self, st.table, 0);
    FlushClears(c, w, 0);
    assert forall v :: Out(st.net.out, v) == Out(w.net.out, v) == Out(x.net.out, v);
    forall j | 0 <= j < |x.table| ensures Settled(x.net.out, x.table, x.table[j]) {
      SameEdgesSameSettled(w.net.out, x.net.out, w.table, w.table[j]);
      UnmarkedSettles(x.net.out, w.table, x.table, j);
    }
  }

  lemma UnmarkedSettles(g: Graph, t: Table, u: Table, j: nat)
    requires OnlyUnmarked(t, u) && j < |t| && Settled(g, t, t[j])
    ensures Settled(g, u, u[j])
  {
    forall v: Id ensures Hop1(t, t[j].key, v) == Hop1(u, t[j].key, v) {
      UnmarkedSameHops(t, u, t[j].key, v);
    }
    StaysSettled(g, t, u, t[j], u[j]);
  }

  lemma EntryPushedInPass(c: Site, st: State, j: nat)
    requires Safe(st) && j < |Pass(c, st).table|
    requires forall i :: 0 <= i < |st.table| ==> !st.table[i].changed
    ensures PushedInPass(c, st, Pass(c, st), j)
  {
    hide Walk;
    hide FlushFrom;
    hide TableOk;
    hide GoodNet;
    hide LastPush;
    hide SameEdges;
    var w, x := Walked(c, st), Pass(c, st);
    assert Extends(st.table, w.table) && w.pushes == st.pushes;
    FlushClears(c, w, 0);
    FlushPushesMarked(c, w, 0, j);
    assert Pushed(x.table[j], x.pushes);
    SameEdgesSameReach(st.net.out, w.net.out, c.self, x.table[j].source);
  }

  // ---------------------------------------------------------------- a pass is a part of a run

  /** The walk from position `i` as single steps of the controller. */
  lemma {:induction false} WalkIsSteps(c: Site, st: State, i: nat) returns (events: seq<Event>)
    requires GoodNet(st.net) && TableOk(st.kind, st.table)
    ensures var (m, u) := Walk(st.net, st.kind, c.self, st.table, i);
            Run(c, st, events) == st.(net := m, table := u)
    decreases Waiting(st.table, i), |st.table| - i
  {
    hide Serve;
    var t := st.table;
    events := [];
    if i < |t| {
      if t[i].changed {
        MarkedIsSkipped(t, i);
        events := WalkIsSteps(c, st, i + 1);
      } else {
        var (m, u) := Serve(st.net, st.kind, c.self, t, t[i].source, t[i].key);
        ServeKeepsTableOk(st.net, st.kind, c.self, t, t[i].source, t[i].key);
        ServeExtends(st.net, st.kind, c.self, t, t[i].source, t[i].key);
        WaitingShrinks(t, u, i);
        var rest := WalkIsSteps(c, st.(net := m, table := u), i + 1);
        events := [Recheck(i)] + rest;
        assert events[1..] == rest && Step(c, st, Recheck(i)) == st.(net := m, table := u);
      }
    }
  }

  lemma {:induction false} FlushIsSteps(c: Site, st: State, i: nat) returns (events: seq<Event>)
    requires Safe(st)
    ensures Run(c, st, events) == FlushFrom(c, st, i)
    decreases |st.table| - i
  {
    events := [];
    if i < |st.table| {
      FlushEntryKeepsSafe(c, st, i);
      var rest := FlushIsSteps(c, FlushEntry(c, st, i), i + 1);
      events := [Flush(i)] + rest;
      assert events[1..] == rest && Step(c, st, Flush(i)) == FlushEntry(c, st, i);
    }
  }

  /** Every pass is a list of single steps, so what holds in every state of every run holds around passes. */
  lemma PassIsSteps(c: Site, st: State) returns (events: seq<Event>)
    requires Safe(st)
    ensures Run(c, st, events) == Pass(c, st)
  {
    var a := WalkIsSteps(c, st, 0);
    var b := FlushIsSteps(c, Walked(c, st), 0);
    events := a + b;
    RunJoin(c, st, a, b);
  }
}
