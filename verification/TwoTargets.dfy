/**
  A flow is free of loops in all runs exactly when it has at most one registered target: with two, there is
  a run that routes them to each other.
 */
module TwoTargets {
  import opened Options
  import opened Graphs
  import opened NeighborReports
  import opened ReportNotice
  import opened FlowTables
  import opened LoopFreedom
  import opened RouteUpdates
  import opened TableSafety
  import opened SetupPushes
  import opened ControllerRuns
  import opened RunSafety
  import opened UpdatePass
  import opened HeaderReads
  import opened Operations
  import opened PairDigraphs

  /** The next hops of some vertex lead back to it. */
  ghost predicate Circles(t: Table, k: Id) {
    exists v: Id, m: nat :: m > 0 && Forwards(t, k, v, m) && After(t, k, v, m) == v
  }

  // ---------------------------------------------------------------- two hops that go round

  ghost predicate Opposed(t: Table, k: Id, a: Id, b: Id) {
    Hop1(t, k, a) == Some(b) && Hop1(t, k, b) == Some(a)
  }

  lemma {:induction false} OpposedNeverLeads(t: Table, k: Id, a: Id, b: Id, d: Id, n: nat)
    requires Opposed(t, k, a, b)
    ensures !Leads(t, k, d, a, n)
    decreases n
  {
    if n > 0 {
      OpposedNeverLeads(t, k, b, a, d, n - 1);
    }
  }

  lemma OpposedCircles(t: Table, k: Id, a: Id, b: Id)
    requires Opposed(t, k, a, b)
    ensures Circles(t, k) && forall d: Id :: !Ends(t, k, d, a) && !Ends(t, k, d, b)
  {
    assert After(t, k, b, 1) == a && After(t, k, a, 1) == b;
    assert Forwards(t, k, a, 2) && After(t, k, a, 2) == a;
    forall d: Id, n: nat ensures !Leads(t, k, d, a, n) && !Leads(t, k, d, b, n) {
      OpposedNeverLeads(t, k, a, b, d, n);
      OpposedNeverLeads(t, k, b, a, d, n);
    }
  }

  // ---------------------------------------------------------------- the operations of the run

  const START: State := State(Net(map[], map[]), ByFlow([]), [], [])

  lemma StartIsSafe()
    ensures Safe(START)
  {
    InitialIsSafe(START);
  }

  /** All of `ts` are registered while nothing is linked. */
  lemma {:induction false} RegisterAll(c: Site, metric: Metric, st: State, done: seq<(Id, Id)>, ts: seq<(Id, Id)>)
    returns (ops: seq<Operation>)
    requires Safe(st) && GoodMetric(metric) && st.kind == ByFlow(done) && NoDup(done + ts)
    requires Unlinked(st.net.out) && AllRest(st.table, c.self)
    ensures RunsThrough(c, metric, st, ops) && forall op :: op in ops ==> op.Registration?
    ensures var x := OperateAll(c, metric, st, ops);
            x.kind == ByFlow(done + ts) && x.table == st.table && Unlinked(x.net.out)
    decreases |ts|
  {
    ops := [];
    if ts == [] {
      assert done + ts == done;
    } else {
      forall i | 0 <= i < |done| ensures done[i] != ts[0] {
        assert Differ(done + ts, i, |done|) && (done + ts)[|done|] == ts[0];
      }
      assert done + [ts[0]] + ts[1..] == done + ts;
      var op := Registration(ts[0].0, ts[0].1);
      RestingPass(c, Prepared(c, metric, st, op));
      var rest := RegisterAll(c, metric, Operate(c, metric, st, op), done + [ts[0]], ts[1..]);
      ops := [op] + rest;
      assert ops[1..] == rest;
    }
  }

  /** The digraph joins just the two. */
  ghost predicate Paired(n: Net, a: Id, b: Id) {
    a != b && GoodNet(n) && OnlyBetween(n.out, a, b) && HasEdge(n.out, a, b) && HasEdge(n.out, b, a)
  }

  lemma SameEdgesPaired(n: Net, m: Net, a: Id, b: Id)
    requires SameEdges(n.out, m.out) && GoodNet(m) && Paired(n, a, b)
    ensures Paired(m, a, b) && Paired(m, b, a)
  {
    SameEdgesSamePair(n.out, m.out, a, b);
  }

  /** A request of one of two linked targets routes it to the other. */
  lemma RequestPaired(c: Site, metric: Metric, st: State, s: Id, o: Id, k: Id)
    requires Safe(st) && GoodMetric(metric) && Paired(st.net, s, o)
    requires o in Targets(st.kind, k) && Lookup(st.table, s, k) == None
    ensures var x := Operate(c, metric, st, Request(s, k));
            && x.kind == st.kind && Paired(x.net, o, s) && Hop1(x.table, k, s) == Some(o)
            && Hop1(x.table, k, o) == Hop1(st.table, k, o)
            && (Find(st.table, o, k) < 0 ==> Lookup(x.table, o, k) == None)
  {
    hide Serve;
    hide PushSetup;
    var m, w, h := ServeBetween(st.net, st.kind, c.self, st.table, s, o, k);
    var y := Prepared(c, metric, st, Request(s, k));
    assert y.table == Put(st.table, c.self, s, k, o, Forward, w, h);
    PutLookup(st.table, c.self, s, k, o, Forward, w, h, s, k);
    PutLookup(st.table, c.self, s, k, o, Forward, w, h, o, k);
    FlushClears(c, y, 0);
    var x := FlushFrom(c, y, 0);
    UnmarkedSameHops(y.table, x.table, k, s);
    UnmarkedSameHops(y.table, x.table, k, o);
    SameEdgesPaired(st.net, y.net, s, o);
    SameEdgesPaired(y.net, x.net, s, o);
  }

  /** A pass over the resting entries of two linked targets routes each to the other. */
  lemma PassPaired(c: Site, st: State, k: Id, a: Id, b: Id)
    requires Safe(st) && Paired(st.net, a, b) && a in Targets(st.kind, k) && b in Targets(st.kind, k)
    requires AllRest(st.table, c.self) && |st.table| == 2
    requires Matches(st.table[0], a, k) && Matches(st.table[1], b, k)
    ensures Pass(c, st).kind == st.kind && Opposed(Pass(c, st).table, k, a, b)
    ensures !WalkFails(st.net, st.kind, c.self, st.table, 0)
  {
    hide FlushFrom;
    hide TableOk;
    hide InSync;
    HeadedPassIsSafe(st.net, st.kind, c.self, st.table, 0);
    var w := Walked(c, st);
    WalkPaired(st.net, st.kind, c.self, st.table, k, a, b);
    FlushClears(c, w, 0);
    UnmarkedSameHops(w.table, Pass(c, st).table, k, a);
    UnmarkedSameHops(w.table, Pass(c, st).table, k, b);
  }

  lemma WalkPaired(n: Net, kind: Kind, self: Id, t: Table, k: Id, a: Id, b: Id)
    requires TableOk(kind, t) && Paired(n, a, b) && a in Targets(kind, k) && b in Targets(kind, k)
    requires AllRest(t, self) && |t| == 2 && Matches(t[0], a, k) && Matches(t[1], b, k)
    ensures Opposed(Walk(n, kind, self, t, 0).1, k, a, b)
  {
    hide Serve;
    hide TableOk;
    var m, w, h := ServeBetween(n, kind, self, t, a, b, k);
    var u := Put(t, self, a, k, b, Forward, w, h);
    ServeKeepsTableOk(n, kind, self, t, a, k);
    assert |u| == 2 && u[1] == t[1];
    PutLookup(t, self, a, k, b, Forward, w, h, a, k);
    PutLookup(t, self, a, k, b, Forward, w, h, b, k);
    SameEdgesPaired(n, m, a, b);
    var m2, w2, h2 := ServeBetween(m, kind, self, u, b, a, k);
    var v := Put(u, self, b, k, a, Forward, w2, h2);
    ServeKeepsTableOk(m, kind, self, u, b, k);
    assert |v| == 2;
    PutLookup(u, self, b, k, a, Forward, w2, h2, a, k);
    PutLookup(u, self, b, k, a, Forward, w2, h2, b, k);
    assert Walk(n, kind, self, t, 0) == Walk(m, kind, self, u, 1);
    assert Walk(m, kind, self, u, 1) == Walk(m2, kind, self, v, 2) == (m2, v);
  }

  // ---------------------------------------------------------------- the run

  /** Both targets ask for the flow before it is registered and get DROP entries. */
  lemma BothAskEarly(c: Site, metric: Metric, k: Id, a: Id, b: Id) returns (x: State)
    requires a != b && k != CONTROLLER_FLOW && GoodMetric(metric) && Safe(START)
    ensures x == OperateAll(c, metric, START, [Request(a, k), Request(b, k)])
    ensures RunsThrough(c, metric, START, [Request(a, k), Request(b, k)])
    ensures Safe(x) && x.kind == ByFlow([]) && Unlinked(x.net.out) && AllRest(x.table, c.self)
    ensures |x.table| == 2 && Matches(x.table[0], a, k) && Matches(x.table[1], b, k)
  {
    hide Operate;
    RequestUnlinked(c, metric, START, a, k);
    var y := Operate(c, metric, START, Request(a, k));
    RequestUnlinked(c, metric, y, b, k);
    x := Operate(c, metric, y, Request(b, k));
    assert x.table[..1][0] == y.table[0];
    assert [Request(a, k)] + [Request(b, k)] == [Request(a, k), Request(b, k)];
    OperateJoin(c, metric, START, [Request(a, k)], [Request(b, k)]);
    OperateOne(c, metric, START, Request(a, k));
    OperateOne(c, metric, y, Request(b, k));
  }

  /** A report links the two that hold DROP entries, and the pass after it routes them. */
  lemma LinkWithEntries(c: Site, metric: Metric, st: State, k: Id, a: Id, b: Id, etx: nat)
    requires Safe(st) && GoodMetric(metric) && Unlinked(st.net.out) && AllRest(st.table, c.self)
    requires a != b && a in Targets(st.kind, k) && b in Targets(st.kind, k)
    requires |st.table| == 2 && Matches(st.table[0], a, k) && Matches(st.table[1], b, k)
    ensures var op := NeighborReport(a, [Neighbor(b, etx)]);
            && RunsThrough(c, metric, st, [op])
            && var x := OperateAll(c, metric, st, [op]);
               x.kind == st.kind && Opposed(x.table, k, a, b)
  {
    hide Report;
    hide Pass;
    hide WalkFails;
    var op := NeighborReport(a, [Neighbor(b, etx)]);
    hide Noticed;
    NewLinkIsNoticed(st.net, metric, a, [Neighbor(b, etx)], 0);
    var m := PairByReport(st.net, metric, a, b, etx);
    PassPaired(c, Prepared(c, metric, st, op), k, a, b);
    OperateOne(c, metric, st, op);
  }

  /** A report links the two, and then both ask. */
  lemma LinkThenAsk(c: Site, metric: Metric, st: State, k: Id, a: Id, b: Id, etx: nat) returns (ops: seq<Operation>)
    requires Safe(st) && GoodMetric(metric) && Unlinked(st.net.out) && st.table == []
    requires a != b && a in Targets(st.kind, k) && b in Targets(st.kind, k)
    ensures RunsThrough(c, metric, st, ops)
    ensures var x := OperateAll(c, metric, st, ops); x.kind == st.kind && Opposed(x.table, k, a, b)
  {
    hide Report;
    hide Operate;
    hide Crashes;
    hide TableOk;
    hide InSync;
    hide Unlinked;
    var op, p, q := NeighborReport(a, [Neighbor(b, etx)]), Request(a, k), Request(b, k);
    var m := PairByReport(st.net, metric, a, b, etx);
    var y := ReportOnEmpty(c, metric, st, op);
    RequestPaired(c, metric, y, a, b, k);
    var z := Operate(c, metric, y, p);
    RequestPaired(c, metric, z, b, a, k);
    ops := [op] + ([p] + [q]);
    OperateJoin(c, metric, st, [op], [p] + [q]);
    OperateJoin(c, metric, y, [p], [q]);
    OperateOne(c, metric, st, op);
    OperateOne(c, metric, y, p);
    OperateOne(c, metric, z, q);
    RequestsNeverCrash(c, metric, y, a, k);
    RequestsNeverCrash(c, metric, z, b, k);
  }

  lemma LoopWithRequestsFirst(c: Site, metric: Metric, etx: nat, ts: seq<(Id, Id)>, k: Id, a: Id, b: Id)
    returns (ops: seq<Operation>)
    requires GoodMetric(metric) && NoDup(ts) && a != b && a in TargetsIn(ts, k) && b in TargetsIn(ts, k)
    requires Safe(START) && k != CONTROLLER_FLOW
    ensures RunsThrough(c, metric, START, ops)
    ensures var x := OperateAll(c, metric, START, ops); x.kind == ByFlow(ts) && Opposed(x.table, k, a, b)
    ensures forall i, j :: 0 <= i < j < |ops| && ops[j].Request? ==> ops[i].Request?
  {
    hide OperateAll;
    hide RunsThrough;
    hide Safe;
    hide Opposed;
    hide Unlinked;
    hide AllRest;
    assert [] + ts == ts;
    var early := [Request(a, k), Request(b, k)];
    var y := BothAskEarly(c, metric, k, a, b);
    var registered := RegisterAll(c, metric, y, [], ts);
    var z := OperateAll(c, metric, y, registered);
    var late := [NeighborReport(a, [Neighbor(b, etx)])];
    LinkWithEntries(c, metric, z, k, a, b, etx);
    ops := early + (registered + late);
    OperateJoin(c, metric, START, early, registered + late);
    OperateJoin(c, metric, y, registered, late);
    RequestsComeFirst(early, registered + late);
  }

  lemma RequestsComeFirst(early: seq<Operation>, rest: seq<Operation>)
    requires (forall op :: op in early ==> op.Request?) && (forall op :: op in rest ==> !op.Request?)
    ensures var ops := early + rest;
            forall i, j :: 0 <= i < j < |ops| && ops[j].Request? ==> ops[i].Request?
  {
    var ops := early + rest;
    forall j | |early| <= j < |ops| ensures !ops[j].Request? {
      assert ops[j] in rest;
    }
    assert forall i :: 0 <= i < |early| ==> ops[i] in early;
  }

  lemma LoopWithRequestsLast(c: Site, metric: Metric, etx: nat, ts: seq<(Id, Id)>, k: Id, a: Id, b: Id)
    returns (ops: seq<Operation>)
    requires GoodMetric(metric) && NoDup(ts) && a != b && a in TargetsIn(ts, k) && b in TargetsIn(ts, k)
    requires Safe(START)
    ensures RunsThrough(c, metric, START, ops)
    ensures var x := OperateAll(c, metric, START, ops); x.kind == ByFlow(ts) && Opposed(x.table, k, a, b)
  {
    hide Operate;
    hide Opposed;
    assert [] + ts == ts;
    var registered := RegisterAll(c, metric, START, [], ts);
    var late := LinkThenAsk(c, metric, OperateAll(c, metric, START, registered), k, a, b, etx);
    ops := registered + late;
    OperateJoin(c, metric, START, registered, late);
  }

  /**
    Whenever two vertices are registered for a flow there is a list of requests, registrations and neighbour
    reports, from the empty controller on, after which each is routed to the other and no chain of next hops
    from either ends.  No header is read that is NULL.  For a flow other than the one to the controller all
    requests come first, so before the two have registered.
   */
  lemma AnyTwoTargetsLoop(c: Site, metric: Metric, etx: nat, ts: seq<(Id, Id)>, k: Id, a: Id, b: Id)
    returns (ops: seq<Operation>)
    requires GoodMetric(metric) && NoDup(ts) && a != b && a in TargetsIn(ts, k) && b in TargetsIn(ts, k)
    ensures Safe(START) && RunsThrough(c, metric, START, ops)
    ensures var x := OperateAll(c, metric, START, ops);
            && x.kind == ByFlow(ts) && Opposed(x.table, k, a, b) && Circles(x.table, k)
            && forall d: Id :: !Ends(x.table, k, d, a) && !Ends(x.table, k, d, b)
    ensures k != CONTROLLER_FLOW ==> forall i, j :: 0 <= i < j < |ops| && ops[j].Request? ==> ops[i].Request?
  {
    hide OperateAll;
    hide RunsThrough;
    hide Opposed;
    hide Circles;
    hide Ends;
    StartIsSafe();
    if k != CONTROLLER_FLOW {
      ops := LoopWithRequestsFirst(c, metric, etx, ts, k, a, b);
    } else {
      ops := LoopWithRequestsLast(c, metric, etx, ts, k, a, b);
    }
    OpposedCircles(OperateAll(c, metric, START, ops).table, k, a, b);
  }

  // ---------------------------------------------------------------- exactly two

  lemma {:induction false} TargetsDiffer(ts: seq<(Id, Id)>, k: Id)
    requires NoDup(ts)
    ensures NoDup(TargetsIn(ts, k)) && forall d :: d in TargetsIn(ts, k) <==> (k, d) in ts
  {
    if ts != [] {
      var init, last := ts[..|ts| - 1], ts[|ts| - 1];
      assert ts == init + [last];
      forall i, j ensures Differ(init, i, j) {
        assert Differ(ts, i, j);
      }
      forall i | 0 <= i < |init| ensures init[i] != last {
        assert Differ(ts, i, |ts| - 1);
      }
      TargetsDiffer(init, k);
      var ds := TargetsIn(init, k);
      if last.0 == k {
        assert last == (k, last.1) && last.1 !in ds;
        NoDupAdd(last.1, ds);
      } else {
        assert TargetsIn(ts, k) == ds;
      }
    }
  }

  /** No pair of flow and target is ever registered twice. */
  lemma {:induction false} RegisteredOnce(c: Site, st: State, events: seq<Event>)
    requires st.kind.ByFlow? && NoDup(st.kind.targets)
    ensures var x := Run(c, st, events); x.kind.ByFlow? && NoDup(x.kind.targets)
    decreases |events|
  {
    if events != [] {
      if events[0].Register? && (events[0].flowid, events[0].target) !in st.kind.targets {
        NoDupAdd((events[0].flowid, events[0].target), st.kind.targets);
      }
      RegisteredOnce(c, Step(c, st, events[0]), events[1..]);
    }
  }

  /** The operations register `ts` and route flow `k` in a circle. */
  ghost predicate IsLoopRun(c: Site, metric: Metric, ts: seq<(Id, Id)>, k: Id, ops: seq<Operation>)
    requires Safe(START) && GoodMetric(metric)
  {
    && RunsThrough(c, metric, START, ops)
    && OperateAll(c, metric, START, ops).kind == ByFlow(ts) && Circles(OperateAll(c, metric, START, ops).table, k)
  }

  /**
    Some list of requests, registrations and reports with these targets routes the flow in a circle exactly
    when the flow has two of them.
   */
  lemma LoopsExactlyWithTwoTargets(c: Site, metric: Metric, ts: seq<(Id, Id)>, k: Id)
    requires GoodMetric(metric) && NoDup(ts)
    ensures Safe(START) && ((exists ops :: IsLoopRun(c, metric, ts, k, ops)) <==> |TargetsIn(ts, k)| >= 2)
  {
    hide RunsThrough;
    hide OperateAll;
    hide Circles;
    StartIsSafe();
    var ds := TargetsIn(ts, k);
    TargetsDiffer(ts, k);
    if |ds| >= 2 {
      assert Differ(ds, 0, 1);
      var ops := AnyTwoTargetsLoop(c, metric, 1, ts, k, ds[0], ds[1]);
      assert IsLoopRun(c, metric, ts, k, ops);
    } else {
      forall ops | IsLoopRun(c, metric, ts, k, ops) ensures false {
        var events := OperationsAreSteps(c, metric, START, ops);
        OneTargetNeverLoops(c, ts, k, events);
      }
    }
  }

  /** With fewer targets not even single steps in any order route the flow in a circle. */
  lemma OneTargetNeverLoops(c: Site, ts: seq<(Id, Id)>, k: Id, events: seq<Event>)
    requires Run(c, START, events).kind == ByFlow(ts) && |TargetsIn(ts, k)| < 2
    ensures !Circles(Run(c, START, events).table, k)
  {
    var ds, x := TargetsIn(ts, k), Run(c, START, events);
    StartIsSafe();
    RunIsSafe(c, START, events);
    assert KeyOk(x.kind, x.table, k);
    if Circles(x.table, k) {
      var v: Id, m: nat :| m > 0 && Forwards(x.table, k, v, m) && After(x.table, k, v, m) == v;
      assert Hop1(x.table, k, After(x.table, k, v, 0)).Some?;
      assert ds == [ds[0]];
      EveryRunIsLoopFree(c, START, events, k, ds[0], v, m);
    }
  }
}
