/**
  The check of a current route (checks_shortest_route) reads the header edge of every vertex but the last
  without testing it for NULL: when that goes wrong, and what keeps it from going wrong.
 */
module HeaderReads {
  import opened Options
  import opened Graphs
  import opened Routes
  import opened NeighborReports
  import opened FlowTables
  import opened RouteUpdates
  import opened TableSafety
  import opened UpdatePass

  // ---------------------------------------------------------------- where a header is read

  /** The current route of entry `e` is rebuilt and its check reads a NULL header. */
  ghost predicate CheckFails(g: Graph, t: Table, e: Entry) {
    var r := Rebuild(t, e);
    r.Some? && ReadsNull(g, Ids(r.value))
  }

  /** configure_flow_*_route checks the current route of the source of `r`, if it has one. */
  ghost predicate ConfigureFails(g: Graph, t: Table, k: Id, r: Route)
    requires r != []
  {
    var i := Find(t, r[|r| - 1].id, k);
    i >= 0 && CheckFails(g, t, t[i])
  }

  /** One request without entry or one iteration of a pass reads a NULL header. */
  ghost predicate ServeFails(n: Net, kind: Kind, t: Table, s: Id, k: Id)
    requires GoodNet(n)
  {
    var (m, r) := BestRoute(n, s, Targets(kind, k), None);
    r.Some? && ConfigureFails(m.out, t, k, r.value)
  }

  /** The walk of a pass from position `i` reads a NULL header. */
  ghost predicate WalkFails(n: Net, kind: Kind, self: Id, t: Table, i: nat)
    requires GoodNet(n) && TableOk(kind, t)
    decreases Waiting(t, i), |t| - i
  {
    if i >= |t| then false
    else if t[i].changed then
      MarkedIsSkipped(t, i);
      WalkFails(n, kind, self, t, i + 1)
    else
      hide Serve;
      hide Extends;
      var (m, u) := Serve(n, kind, self, t, t[i].source, t[i].key);
      ServeKeepsTableOk(n, kind, self, t, t[i].source, t[i].key);
      ServeExtends(n, kind, self, t, t[i].source, t[i].key);
      WaitingShrinks(t, u, i);
      ServeFails(n, kind, t, t[i].source, t[i].key) || WalkFails(m, kind, self, u, i + 1)
  }

  /** A request without entry checks nothing. */
  lemma FirstRequestNeverFails(n: Net, kind: Kind, t: Table, s: Id, k: Id)
    requires GoodNet(n) && Lookup(t, s, k) == None
    ensures !ServeFails(n, kind, t, s, k)
  {
    hide BestRoute;
    FreshRoute(n, s, Targets(kind, k));
  }

  // ---------------------------------------------------------------- exactly when an iteration fails

  /** One iteration reads a NULL header exactly when it finds a fresh route and the check of the entry fails. */
  lemma ServeFailsExactly(n: Net, kind: Kind, t: Table, i: nat)
    requires GoodNet(n) && Unique(t) && i < |t|
    ensures ServeFails(n, kind, t, t[i].source, t[i].key) <==>
              Feasible(n.out, t[i].source, Targets(kind, t[i].key)) && CheckFails(n.out, t, t[i])
  {
    hide BestRoute;
    var s, k := t[i].source, t[i].key;
    FreshRoute(n, s, Targets(kind, k));
    FindAt(t, i);
    var (m, r) := BestRoute(n, s, Targets(kind, k), None);
    if Rebuild(t, t[i]).Some? {
      SameEdgesSameReads(n.out, m.out, Ids(Rebuild(t, t[i]).value));
    }
  }

  lemma SameEdgesSameReads(g: Graph, h: Graph, p: seq<Id>)
    requires SameEdges(g, h)
    ensures ReadsNull(g, p) <==> ReadsNull(h, p)
  {
    forall k ensures ReadsNullAt(g, p, k) <==> ReadsNullAt(h, p, k) {
      assert forall i :: Hop(g, p, i) <==> Hop(h, p, i);
    }
  }

  ghost predicate Silent(g: Graph, v: Id) {
    Out(g, v) == []
  }

  /** The path comes to `v` behind its start and before its end, over existing edges. */
  ghost predicate ComesTo(g: Graph, p: seq<Id>, v: Id, k: int) {
    0 < k < |p| - 1 && p[k] == v && forall j {:trigger Hop(g, p, j)} :: j < k ==> Hop(g, p, j)
  }

  /** The current route of an entry of another vertex comes to `v` over existing edges. */
  ghost predicate LeadsThrough(g: Graph, t: Table, e: Entry, v: Id) {
    Rebuild(t, e).Some? && exists k :: ComesTo(g, Ids(Rebuild(t, e).value), v, k)
  }

  /** Serving entry `i` finds a fresh route, and the current route leads through `v`. */
  ghost predicate MeetsOnTheWay(n: Net, kind: Kind, t: Table, i: nat, v: Id)
    requires i < |t|
  {
    Feasible(n.out, t[i].source, Targets(kind, t[i].key)) && LeadsThrough(n.out, t, t[i], v)
  }

  lemma SilentReachesNothing(g: Graph, s: Id, ts: seq<Id>)
    requires Silent(g, s)
    ensures !Feasible(g, s, ts)
  {
    forall d: Id, p: seq<Id> | d != s ensures !PathFromTo(g, p, s, d) {
      assert IsPath(g, p) ==> Hop(g, p, 0);
    }
  }

  lemma RebuiltStart(t: Table, e: Entry)
    requires Rebuild(t, e).Some?
    ensures |Rebuild(t, e).value| > 0 && Rebuild(t, e).value[0].id == e.source
  {
  }

  /**
    On any table an iteration reads a NULL header exactly when it finds a fresh route and the current route
    leads through a vertex without out-edge.
   */
  lemma IterationFailsExactly(n: Net, kind: Kind, t: Table, i: nat)
    requires GoodNet(n) && Unique(t) && i < |t|
    ensures ServeFails(n, kind, t, t[i].source, t[i].key) <==>
              exists v :: Silent(n.out, v) && MeetsOnTheWay(n, kind, t, i, v)
  {
    hide ServeFails;
    var e, ts := t[i], Targets(kind, t[i].key);
    ServeFailsExactly(n, kind, t, i);
    if Feasible(n.out, e.source, ts) && Rebuild(t, e).Some? {
      var p := Ids(Rebuild(t, e).value);
      RebuiltStart(t, e);
      assert !Silent(n.out, e.source) by {
        if Silent(n.out, e.source) {
          SilentReachesNothing(n.out, e.source, ts);
        }
      }
      if CheckFails(n.out, t, e) {
        var k :| ReadsNullAt(n.out, p, k);
        assert Silent(n.out, p[k]) && ComesTo(n.out, p, p[k], k);
        assert MeetsOnTheWay(n, kind, t, i, p[k]);
      }
      if v :| Silent(n.out, v) && MeetsOnTheWay(n, kind, t, i, v) {
        var k :| ComesTo(n.out, p, v, k);
        assert ReadsNullAt(n.out, p, k);
      }
    }
  }

  /** The own entry of a vertex without out-edge is never checked: it reaches no target. */
  lemma OwnEntryIsNotChecked(n: Net, kind: Kind, t: Table, i: nat)
    requires GoodNet(n) && Unique(t) && i < |t| && Silent(n.out, t[i].source)
    ensures !ServeFails(n, kind, t, t[i].source, t[i].key)
  {
    SilentReachesNothing(n.out, t[i].source, Targets(kind, t[i].key));
    ServeFailsExactly(n, kind, t, i);
  }

  // ---------------------------------------------------------------- exactly when a pass fails

  /** One iteration of a pass: the digraph and the table it finds, and the entry it serves. */
  datatype Iteration = Iteration(net: Net, table: Table, index: nat)

  /** All iterations of the walk from position `i` that serve an entry, in order. */
  ghost function Iterations(n: Net, kind: Kind, self: Id, t: Table, i: nat): (its: seq<Iteration>)
    requires GoodNet(n) && TableOk(kind, t)
    ensures forall it :: it in its ==> it.index < |it.table| && SameEdges(n.out, it.net.out)
    decreases Waiting(t, i), |t| - i
  {
    if i >= |t| then []
    else if t[i].changed then
      MarkedIsSkipped(t, i);
      Iterations(n, kind, self, t, i + 1)
    else
      hide Serve;
      hide Extends;
      var (m, u) := Serve(n, kind, self, t, t[i].source, t[i].key);
      ServeKeepsTableOk(n, kind, self, t, t[i].source, t[i].key);
      ServeExtends(n, kind, self, t, t[i].source, t[i].key);
      WaitingShrinks(t, u, i);
      [Iteration(n, t, i)] + Iterations(m, kind, self, u, i + 1)
  }

  /** Some iteration of the pass meets `v` on the way. */
  ghost predicate PassMeets(n: Net, kind: Kind, self: Id, t: Table, i: nat, v: Id)
    requires GoodNet(n) && TableOk(kind, t)
  {
    exists it :: it in Iterations(n, kind, self, t, i) && MeetsOnTheWay(it.net, kind, it.table, it.index, v)
  }

  lemma SameEdgesSilent(g: Graph, h: Graph)
    requires SameEdges(g, h)
    ensures forall v: Id :: Silent(g, v) <==> Silent(h, v)
  {
    forall v: Id ensures Silent(g, v) <==> Silent(h, v) {
      assert Out(g, v) == Out(h, v);
    }
  }

  /**
    Whatever the table, a pass reads a NULL header exactly when one of its iterations, with the table as it
    then is, meets a vertex without out-edge on the way.
   */
  lemma {:induction false} PassFailsExactly(n: Net, kind: Kind, self: Id, t: Table, i: nat)
    requires GoodNet(n) && TableOk(kind, t)
    ensures WalkFails(n, kind, self, t, i) <==> exists v :: Silent(n.out, v) && PassMeets(n, kind, self, t, i, v)
    decreases Waiting(t, i), |t| - i
  {
    hide Serve;
    hide ServeFails;
    hide MeetsOnTheWay;
    hide Silent;
    if i < |t| {
      if t[i].changed {
        MarkedIsSkipped(t, i);
        PassFailsExactly(n, kind, self, t, i + 1);
        assert forall v: Id :: PassMeets(n, kind, self, t, i, v) <==> PassMeets(n, kind, self, t, i + 1, v);
      } else {
        var (m, u) := Serve(n, kind, self, t, t[i].source, t[i].key);
        ServeKeepsTableOk(n, kind, self, t, t[i].source, t[i].key);
        ServeExtends(n, kind, self, t, t[i].source, t[i].key);
        WaitingShrinks(t, u, i);
        IterationFailsExactly(n, kind, t, i);
        PassFailsExactly(m, kind, self, u, i + 1);
        SameEdgesSilent(n.out, m.out);
        forall v: Id
          ensures PassMeets(n, kind, self, t, i, v) <==>
                    MeetsOnTheWay(n, kind, t, i, v) || PassMeets(m, kind, self, u, i + 1, v)
        {
          FirstIteration(n, kind, self, t, i, m, u, v);
        }
      }
    }
  }

  lemma FirstIteration(n: Net, kind: Kind, self: Id, t: Table, i: nat, m: Net, u: Table, v: Id)
    requires GoodNet(n) && TableOk(kind, t) && i < |t| && !t[i].changed
    requires (m, u) == Serve(n, kind, self, t, t[i].source, t[i].key) && GoodNet(m) && TableOk(kind, u)
    ensures PassMeets(n, kind, self, t, i, v) <==>
              MeetsOnTheWay(n, kind, t, i, v) || PassMeets(m, kind, self, u, i + 1, v)
  {
    hide Serve;
    hide MeetsOnTheWay;
    var first, rest := Iteration(n, t, i), Iterations(m, kind, self, u, i + 1);
    assert Iterations(n, kind, self, t, i) == [first] + rest;
    assert forall it :: it in [first] + rest <==> it == first || it in rest;
    assert first in [first] + rest;
  }

  // ---------------------------------------------------------------- after a report

  /** The vertex has no out-edge after a report: an empty one of its own, or none before and not named. */
  ghost predicate GoesSilent(n: Net, src: Id, ns: seq<Neighbor>, v: Id) {
    if v == src then ns == [] else Silent(n.out, v) && !Reported(ns, v)
  }

  lemma SilentAfterReport(n: Net, metric: Metric, src: Id, ns: seq<Neighbor>, v: Id)
    requires GoodNet(n) && GoodMetric(metric)
    ensures Silent(Report(n, metric, src, ns).out, v) <==> GoesSilent(n, src, ns, v)
  {
    hide Report;
    var g := Report(n, metric, src, ns).out;
    var other: Id := if src == 0 then 1 else 0;
    if v != src {
      ReportIsExact(n, metric, src, ns, 0, v);
    } else if ns != [] {
      ReportIsExact(n, metric, src, ns, ns[0].id, other);
      assert HasEdge(g, src, ns[0].id);
    } else {
      forall x: Id ensures !HasEdge(g, src, x) {
        ReportIsExact(n, metric, src, ns, x, other);
      }
      assert Out(g, src) != [] ==> HasEdge(g, src, Out(g, src)[0].to);
    }
  }

  /**
    On any table, one iteration after a report reads a NULL header exactly when it finds a fresh route and
    the current route comes over existing edges to a vertex that has no out-edge any more.
   */
  lemma IterationFailsAfterReport(n: Net, metric: Metric, src: Id, ns: seq<Neighbor>, kind: Kind, t: Table, i: nat)
    requires GoodNet(n) && GoodMetric(metric) && Unique(t) && i < |t|
    ensures var m := Report(n, metric, src, ns);
            && GoodNet(m)
            && (ServeFails(m, kind, t, t[i].source, t[i].key) <==>
                  exists v :: GoesSilent(n, src, ns, v) && MeetsOnTheWay(m, kind, t, i, v))
  {
    hide Report;
    hide ServeFails;
    hide MeetsOnTheWay;
    hide GoesSilent;
    var m := Report(n, metric, src, ns);
    ReportKeepsGood(n, metric, src, ns);
    IterationFailsExactly(m, kind, t, i);
    forall v: Id ensures Silent(m.out, v) <==> GoesSilent(n, src, ns, v) {
      SilentAfterReport(n, metric, src, ns, v);
    }
  }

  /**
    On any table, the pass after a report reads a NULL header exactly when one of its iterations, with the
    table as it then is, finds a fresh route while the current route comes over existing edges to a vertex
    that has no out-edge any more.
   */
  lemma PassFailsAfterReport(n: Net, metric: Metric, src: Id, ns: seq<Neighbor>, kind: Kind, self: Id, t: Table)
    requires GoodNet(n) && GoodMetric(metric) && TableOk(kind, t)
    ensures var m := Report(n, metric, src, ns);
            && GoodNet(m)
            && (WalkFails(m, kind, self, t, 0) <==>
                  exists v :: GoesSilent(n, src, ns, v) && PassMeets(m, kind, self, t, 0, v))
  {
    hide Report;
    hide WalkFails;
    hide PassMeets;
    hide GoesSilent;
    var m := Report(n, metric, src, ns);
    ReportKeepsGood(n, metric, src, ns);
    PassFailsExactly(m, kind, self, t, 0);
    forall v: Id ensures Silent(m.out, v) <==> GoesSilent(n, src, ns, v) {
      SilentAfterReport(n, metric, src, ns, v);
    }
  }

  // ---------------------------------------------------------------- forwarding vertices have edges

  ghost predicate HasHeader(g: Graph, e: Entry) {
    e.action == Forward ==> !Silent(g, e.source)
  }

  /**
    Every forwarding entry for a key of `keys` has an out-edge at its source, those in `silent` excepted.  The
    keys are those a table of kind `keys` may drop; for `ByAddress` these are all.
   */
  ghost predicate HeadedBut(keys: Kind, g: Graph, t: Table, silent: set<Id>) {
    forall i {:trigger HasHeader(g, t[i])} ::
      0 <= i < |t| && MayDrop(keys, t[i].key) ==> t[i].source in silent || HasHeader(g, t[i])
  }

  /** Every vertex that forwards has an out-edge. */
  ghost predicate Headed(g: Graph, t: Table) {
    HeadedBut(ByAddress, g, t, {})
  }

  lemma {:induction false} RebuiltHeaded(keys: Kind, g: Graph, t: Table, silent: set<Id>, e: Entry, j: nat)
    requires HeadedBut(keys, g, t, silent) && MayDrop(keys, e.key) && e in t && Rebuild(t, e).Some?
    ensures |Rebuild(t, e).value| >= 2
    ensures j < |Rebuild(t, e).value| - 1 ==>
              var v := Rebuild(t, e).value[j].id; v in silent || !Silent(g, v)
    decreases e.hops
  {
    var i :| 0 <= i < |t| && t[i] == e;
    assert e.source in silent || HasHeader(g, t[i]);
    var next := Lookup(t, e.nextHop, e.key);
    if next.Some? && next.value.action == Forward {
      RebuiltHeaded(keys, g, t, silent, next.value, if j > 0 then j - 1 else 0);
    }
  }

  /** On such a table an iteration for one of the keys meets no vertex without out-edge outside `silent`. */
  lemma HeadedMeetsOnlySilent(keys: Kind, kind: Kind, n: Net, t: Table, silent: set<Id>, i: nat, v: Id)
    requires HeadedBut(keys, n.out, t, silent) && i < |t| && MayDrop(keys, t[i].key)
    requires Silent(n.out, v) && MeetsOnTheWay(n, kind, t, i, v)
    ensures v in silent
  {
    var p := Ids(Rebuild(t, t[i]).value);
    var k :| ComesTo(n.out, p, v, k);
    RebuiltHeaded(keys, n.out, t, silent, t[i], k);
  }

  // ---------------------------------------------------------------- what a pass leaves headed

  /** Between the tables only entries at vertices with out-edges are new or have changed. */
  ghost predicate OnlyHeadedChange(g: Graph, t: Table, u: Table) {
    && |t| <= |u|
    && forall j {:trigger u[j]} :: 0 <= j < |u| ==>
      (j < |t| ==> u[j].source == t[j].source && u[j].key == t[j].key)
      && (!Silent(g, u[j].source) || (j < |t| && u[j].action == t[j].action && u[j].changed == t[j].changed))
  }

  lemma PutOnlyHeaded(g: Graph, t: Table, self: Id, s: Id, k: Id, nextHop: Id, w: int, h: nat)
    requires !Silent(g, s)
    ensures OnlyHeadedChange(g, t, Put(t, self, s, k, nextHop, Forward, w, h))
  {
  }

  lemma {:induction false} InstallOnlyHeaded(g: Graph, t: Table, self: Id, k: Id, r: Route)
    requires forall i :: 0 < i < |r| ==> !Silent(g, r[i].id)
    ensures OnlyHeadedChange(g, t, Install(t, self, k, r))
    decreases |r|
  {
    hide Silent;
    if |r| >= 2 {
      hide Put;
      var u := Put(t, self, r[1].id, k, r[0].id, Forward, r[1].weight, r[1].hops);
      PutOnlyHeaded(g, t, self, r[1].id, k, r[0].id, r[1].weight, r[1].hops);
      InstallOnlyHeaded(g, u, self, k, r[1..]);
    }
  }

  lemma ConfigureOnlyHeaded(g: Graph, t: Table, self: Id, k: Id, s: Id, d: Id, r: Route)
    requires IsRoute(g, s, d, r)
    ensures OnlyHeadedChange(g, t, Configure(g, t, self, k, r)) && !Silent(g, s)
  {
    forall i | 0 < i < |r| ensures !Silent(g, r[i].id) {
      assert RouteHop(g, r, i);
    }
    InstallOnlyHeaded(g, t, self, k, r);
    var i := Find(t, s, k);
    if i >= 0 && !RouteLost(g, t, t[i]) {
      InstallOnlyHeaded(g, t[i := t[i].(weight := PathWeight(g, Ids(Rebuild(t, t[i]).value)))], self, k, r);
    }
  }

  /** The entry is headed as far as a pass can see to it: the controller flow is never dropped. */
  ghost predicate FitHeader(kind: Kind, g: Graph, e: Entry) {
    MayDrop(kind, e.key) ==> HasHeader(g, e)
  }

  /** Serving keeps entries fit, makes new and newly marked ones fit, and the served one as well. */
  lemma ServeFits(n: Net, keys: Kind, kind: Kind, self: Id, t: Table, s: Id, k: Id, j: nat)
    requires GoodNet(n)
    ensures var (m, u) := Serve(n, kind, self, t, s, k);
            && SameEdges(n.out, m.out) && |t| <= |u|
            && (j < |t| && FitHeader(keys, n.out, t[j]) ==> FitHeader(keys, m.out, u[j]))
            && (j < |u| && u[j].changed && !(j < |t| && t[j].changed) ==> FitHeader(keys, m.out, u[j]))
            && (j < |u| && !(j < |t|) ==> FitHeader(keys, m.out, u[j]))
            && (j < |t| && j == Find(t, s, k) ==> FitHeader(kind, m.out, u[j]))
  {
    hide BestRoute;
    hide Configure;
    var (m, r) := BestRoute(n, s, Targets(kind, k), None);
    FreshRoute(n, s, Targets(kind, k));
    SameEdgesSilent(n.out, m.out);
    if r.Some? {
      var d :| d in Targets(kind, k) && IsRoute(m.out, s, d, r.value);
      ConfigureOnlyHeaded(m.out, t, self, k, s, d, r.value);
    }
  }

  /** Everything before position `i`, and everything marked, is fit. */
  ghost predicate FitUpTo(kind: Kind, g: Graph, t: Table, i: nat) {
    forall j {:trigger FitHeader(kind, g, t[j])} ::
      0 <= j < |t| && (j < i || t[j].changed) ==> FitHeader(kind, g, t[j])
  }

  /** After the walk of a pass that starts without marks every entry is fit. */
  lemma {:induction false} WalkFits(n: Net, kind: Kind, self: Id, t: Table, i: nat)
    requires GoodNet(n) && TableOk(kind, t) && FitUpTo(kind, n.out, t, i)
    ensures var (m, u) := Walk(n, kind, self, t, i); FitUpTo(kind, m.out, u, |u|)
    decreases Waiting(t, i), |t| - i
  {
    hide Serve;
    hide FitHeader;
    if i < |t| {
      if t[i].changed {
        MarkedIsSkipped(t, i);
        WalkFits(n, kind, self, t, i + 1);
      } else {
        var (m, u) := Serve(n, kind, self, t, t[i].source, t[i].key);
        ServeKeepsTableOk(n, kind, self, t, t[i].source, t[i].key);
        ServeExtends(n, kind, self, t, t[i].source, t[i].key);
        WaitingShrinks(t, u, i);
        FindAt(t, i);
        forall j | 0 <= j < |u| && (j < i + 1 || u[j].changed) ensures FitHeader(kind, m.out, u[j]) {
          ServeFits(n, kind, kind, self, t, t[i].source, t[i].key, j);
        }
        WalkFits(m, kind, self, u, i + 1);
      }
    }
  }

  // ---------------------------------------------------------------- passes over headed tables

  lemma SameEdgesKeepsHeaded(keys: Kind, g: Graph, h: Graph, t: Table, silent: set<Id>)
    requires SameEdges(g, h) && HeadedBut(keys, g, t, silent)
    ensures HeadedBut(keys, h, t, silent)
  {
    SameEdgesSilent(g, h);
    forall i | 0 <= i < |t| && MayDrop(keys, t[i].key) ensures t[i].source in silent || HasHeader(h, t[i]) {
      assert t[i].source in silent || HasHeader(g, t[i]);
    }
  }

  lemma ServeKeepsHeaded(n: Net, keys: Kind, kind: Kind, self: Id, t: Table, silent: set<Id>, s: Id, k: Id)
    requires GoodNet(n) && HeadedBut(keys, n.out, t, silent)
    ensures var (m, u) := Serve(n, kind, self, t, s, k); HeadedBut(keys, m.out, u, silent)
  {
    hide Serve;
    var (m, u) := Serve(n, kind, self, t, s, k);
    forall j | 0 <= j < |u| && MayDrop(keys, u[j].key) ensures u[j].source in silent || HasHeader(m.out, u[j]) {
      ServeFits(n, keys, kind, self, t, s, k, j);
      ServeExtends(n, kind, self, t, s, k);
      assert j < |t| ==> t[j].source in silent || HasHeader(n.out, t[j]);
    }
  }

  /** In a pass the entries of these keys stay headed but for those of `silent`. */
  lemma {:induction false} WalkStaysHeaded(n: Net, keys: Kind, kind: Kind, self: Id, t: Table, silent: set<Id>, i: nat)
    requires GoodNet(n) && TableOk(kind, t) && HeadedBut(keys, n.out, t, silent)
    ensures forall it :: it in Iterations(n, kind, self, t, i) ==> HeadedBut(keys, it.net.out, it.table, silent)
    ensures var (m, u) := Walk(n, kind, self, t, i); HeadedBut(keys, m.out, u, silent)
    decreases Waiting(t, i), |t| - i
  {
    hide Serve;
    hide HeadedBut;
    if i < |t| {
      if t[i].changed {
        MarkedIsSkipped(t, i);
        WalkStaysHeaded(n, keys, kind, self, t, silent, i + 1);
      } else {
        var (m, u) := Serve(n, kind, self, t, t[i].source, t[i].key);
        ServeKeepsTableOk(n, kind, self, t, t[i].source, t[i].key);
        ServeExtends(n, kind, self, t, t[i].source, t[i].key);
        WaitingShrinks(t, u, i);
        ServeKeepsHeaded(n, keys, kind, self, t, silent, t[i].source, t[i].key);
        WalkStaysHeaded(m, keys, kind, self, u, silent, i + 1);
      }
    }
  }

  /** No pass that starts with an out-edge at every forwarding vertex reads a NULL header. */
  lemma HeadedPassIsSafe(n: Net, kind: Kind, self: Id, t: Table, i: nat)
    requires GoodNet(n) && TableOk(kind, t) && Headed(n.out, t)
    ensures !WalkFails(n, kind, self, t, i)
    ensures var (m, u) := Walk(n, kind, self, t, i); Headed(m.out, u)
  {
    hide Walk;
    hide WalkFails;
    hide HeadedBut;
    hide MeetsOnTheWay;
    PassFailsExactly(n, kind, self, t, i);
    WalkStaysHeaded(n, ByAddress, kind, self, t, {}, i);
    if v :| Silent(n.out, v) && PassMeets(n, kind, self, t, i, v) {
      var it :| it in Iterations(n, kind, self, t, i) && MeetsOnTheWay(it.net, kind, it.table, it.index, v);
      SameEdgesSilent(n.out, it.net.out);
      HeadedMeetsOnlySilent(ByAddress, kind, it.net, it.table, {}, it.index, v);
    }
  }

  /** The vertex holds no FORWARD entry. */
  ghost predicate ForwardsNothing(t: Table, v: Id) {
    forall i :: 0 <= i < |t| && t[i].source == v ==> t[i].action != Forward
  }

  /** A report keeps entries headed but for those of a sender that names nobody. */
  lemma ReportKeepsHeadedBut(keys: Kind, n: Net, metric: Metric, src: Id, ns: seq<Neighbor>, t: Table)
    requires GoodNet(n) && GoodMetric(metric) && HeadedBut(keys, n.out, t, {})
    ensures HeadedBut(keys, Report(n, metric, src, ns).out, t, if ns == [] then {src} else {})
  {
    hide Report;
    var g := Report(n, metric, src, ns).out;
    forall i | 0 <= i < |t| && MayDrop(keys, t[i].key)
      ensures (ns == [] && t[i].source == src) || HasHeader(g, t[i])
    {
      assert HasHeader(n.out, t[i]);
      SilentAfterReport(n, metric, src, ns, t[i].source);
    }
  }

  /**
    A report leaves no forwarding vertex without an out-edge exactly when it names a neighbour or its sender
    forwards nothing: a sender of an empty report loses its last edge.
   */
  lemma ReportKeepsHeaded(n: Net, metric: Metric, src: Id, ns: seq<Neighbor>, t: Table)
    requires GoodNet(n) && GoodMetric(metric) && Headed(n.out, t)
    ensures Headed(Report(n, metric, src, ns).out, t) <==> ns != [] || ForwardsNothing(t, src)
  {
    hide Report;
    var g := Report(n, metric, src, ns).out;
    ReportKeepsHeadedBut(ByAddress, n, metric, src, ns, t);
    SilentAfterReport(n, metric, src, ns, src);
    if ForwardsNothing(t, src) {
      forall i | 0 <= i < |t| ensures HasHeader(g, t[i]) {
        assert t[i].source == src || HasHeader(g, t[i]);
      }
    } else if ns == [] {
      var i :| 0 <= i < |t| && t[i].source == src && t[i].action == Forward;
      assert !HasHeader(g, t[i]);
    }
  }

  /** A pass over entries of one vertex without out-edge, whatever they say, reads no NULL header. */
  lemma {:induction false} OwnEntriesDoNotFail(n: Net, kind: Kind, self: Id, t: Table, v: Id, i: nat)
    requires GoodNet(n) && TableOk(kind, t) && Silent(n.out, v)
    requires forall j :: 0 <= j < |t| ==> t[j].source == v
    ensures !WalkFails(n, kind, self, t, i)
    decreases Waiting(t, i), |t| - i
  {
    hide BestRoute;
    hide ServeFails;
    if i < |t| {
      if t[i].changed {
        MarkedIsSkipped(t, i);
        OwnEntriesDoNotFail(n, kind, self, t, v, i + 1);
      } else {
        var (m, u) := Serve(n, kind, self, t, v, t[i].key);
        ServeKeepsTableOk(n, kind, self, t, v, t[i].key);
        ServeExtends(n, kind, self, t, v, t[i].key);
        WaitingShrinks(t, u, i);
        OwnEntryIsNotChecked(n, kind, t, i);
        SilentReachesNothing(n.out, v, Targets(kind, t[i].key));
        FreshRoute(n, v, Targets(kind, t[i].key));
        SameEdgesSilent(n.out, m.out);
        OwnEntriesDoNotFail(m, kind, self, u, v, i + 1);
      }
    }
  }
}
