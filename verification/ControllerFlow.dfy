/**
  The flow to the controller is never dropped, so its entries outlive the links of their nodes: a report that
  names two neighbours, from a node that forwards nothing, then makes the pass read a NULL header.
 */
module ControllerFlow {
  import opened Options
  import opened Graphs
  import opened Routes
  import opened NeighborReports
  import opened ReportNotice
  import opened FlowTables
  import opened RouteUpdates
  import opened TableSafety
  import opened SetupPushes
  import opened RunSafety
  import opened UpdatePass
  import opened HeaderReads
  import opened Operations
  import opened EmptyReport

  /** The flow to the controller with its one target. */
  function FlowTo(d: Id): Kind {
    ByFlow([(CONTROLLER_FLOW, d)])
  }

  lemma OneTarget0(d: Id)
    ensures Targets(FlowTo(d), CONTROLLER_FLOW) == [d]
  {
    NewTarget([], CONTROLLER_FLOW, d, CONTROLLER_FLOW);
    assert [] + [(CONTROLLER_FLOW, d)] == [(CONTROLLER_FLOW, d)] && [] + [d] == [d];
  }

  /** `s` towards `d` first, then `u` towards `s`, neither marked. */
  ghost predicate FlowsOverS(q: Corners, t: Table) {
    && |t| == 2 && !t[0].changed && !t[1].changed
    && t[0].source == q.s && t[0].key == CONTROLLER_FLOW && t[0].nextHop == q.d && t[0].action == Forward
    && t[0].hops == 1
    && t[1].source == q.u && t[1].key == CONTROLLER_FLOW && t[1].nextHop == q.s && t[1].action == Forward
    && t[1].hops == 2
  }

  // ---------------------------------------------------------------- the request

  lemma InstalledFlow(self: Id, q: Corners, r: Route)
    requires Different(q)
    requires |r| == 3 && r[0].id == q.d && r[1].id == q.s && r[2].id == q.u && r[1].hops == 1 && r[2].hops == 2
    ensures var t := Install([], self, CONTROLLER_FLOW, r);
            |t| == 2 && FlowsOverS(q, [t[0].(changed := false), t[1].(changed := false)])
  {
    var a := Put([], self, q.s, CONTROLLER_FLOW, q.d, Forward, r[1].weight, r[1].hops);
    assert a == [NewEntry(self, q.s, CONTROLLER_FLOW, q.d, Forward, r[1].weight, r[1].hops)];
    assert Find(a, q.u, CONTROLLER_FLOW) < 0;
    assert r[1..][1..] == [r[2]] && r[1..][0] == r[1] && r[1..][1] == r[2];
    assert Install([], self, CONTROLLER_FLOW, r) == Install(a, self, CONTROLLER_FLOW, r[1..]);
    assert Install(a, self, CONTROLLER_FLOW, r[1..]) ==
           Put(a, self, q.u, CONTROLLER_FLOW, q.s, Forward, r[2].weight, r[2].hops);
  }

  lemma ServedFlow(n: Net, q: Corners, wt: int, self: Id) returns (m: Net, t: Table)
    requires Different(q) && GoodNet(n) && LinkedAs(q, false, wt, n.out)
    ensures (m, t) == Serve(n, FlowTo(q.d), self, [], q.u, CONTROLLER_FLOW) && SameEdges(n.out, m.out)
    ensures |t| == 2 && FlowsOverS(q, [t[0].(changed := false), t[1].(changed := false)])
  {
    hide BestRoute;
    hide Install;
    OneTarget0(q.d);
    var g, p := n.out, [q.u, q.s, q.d];
    assert Links(q, false, wt, g, q.u, q.s) && Links(q, false, wt, g, q.s, q.d);
    assert Hop(g, p, 0) && Hop(g, p, 1) && PathFromTo(g, p, q.u, q.d);
    assert q.d in [q.d] && Feasible(g, q.u, [q.d]);
    FreshRoute(n, q.u, [q.d]);
    m := BestRoute(n, q.u, [q.d], None).0;
    var r := BestRoute(n, q.u, [q.d], None).1.value;
    var d :| d in [q.d] && IsRoute(m.out, q.u, d, r);
    SameEdgesSameRoute(g, m.out, q.u, q.d, r);
    RouteOverS(q, wt, g, r);
    InstalledFlow(self, q, r);
    t := Install([], self, CONTROLLER_FLOW, r);
  }

  lemma AfterRequest(c: Site, metric: Metric, q: Corners, wt: int, y: State) returns (z: State)
    requires Different(q) && GoodMetric(metric) && Safe(y) && y.kind == FlowTo(q.d) && y.table == []
    requires LinkedAs(q, false, wt, y.net.out)
    ensures z == Operate(c, metric, y, Request(q.u, CONTROLLER_FLOW)) && z.kind == FlowTo(q.d)
    ensures LinkedAs(q, false, wt, z.net.out) && FlowsOverS(q, z.table)
  {
    hide Serve;
    hide LinkedAs;
    hide TableOk;
    var x := Prepared(c, metric, y, Request(q.u, CONTROLLER_FLOW));
    var m, t := ServedFlow(y.net, q, wt, c.self);
    assert x.net == m && x.table == t && x.kind == y.kind;
    FlushClears(c, x, 0);
    z := FlushFrom(c, x, 0);
    assert z.table[0] == t[0].(changed := false) && z.table[1] == t[1].(changed := false);
    SameEdgesLinked(q, false, wt, y.net.out, m.out);
    SameEdgesLinked(q, false, wt, m.out, z.net.out);
  }

  // ---------------------------------------------------------------- the link of `s` is gone

  /** `u` still names `s`, and `s` nobody. */
  ghost predicate Stranded(q: Corners, g: Graph) {
    Silent(g, q.s) && HasEdge(g, q.u, q.s)
  }

  lemma NoWayOn(q: Corners, g: Graph)
    requires Different(q) && Stranded(q, g) && forall v: Id :: HasEdge(g, q.u, v) ==> v == q.s
    ensures !Feasible(g, q.u, [q.d]) && !Feasible(g, q.s, [q.d])
  {
    SilentReachesNothing(g, q.s, [q.d]);
    forall p ensures !PathFromTo(g, p, q.u, q.d) {
      assert IsPath(g, p) ==> Hop(g, p, 0) && Hop(g, p, 1);
    }
  }

  /** The flow to the controller is served without a route: its entry stays as it is. */
  lemma ServedInVain(n: Net, q: Corners, self: Id, t: Table, i: nat)
    requires GoodNet(n) && TableOk(FlowTo(q.d), t) && FlowsOverS(q, t) && i < 2
    requires !Feasible(n.out, t[i].source, [q.d])
    ensures var (m, u) := Serve(n, FlowTo(q.d), self, t, t[i].source, CONTROLLER_FLOW);
            u == t && GoodNet(m) && SameEdges(n.out, m.out)
    ensures !ServeFails(n, FlowTo(q.d), t, t[i].source, CONTROLLER_FLOW)
  {
    hide BestRoute;
    OneTarget0(q.d);
    FreshRoute(n, t[i].source, [q.d]);
  }

  lemma PassInVain(c: Site, q: Corners, st: State)
    requires Different(q) && Safe(st) && st.kind == FlowTo(q.d) && FlowsOverS(q, st.table)
    requires Stranded(q, st.net.out) && forall v: Id :: HasEdge(st.net.out, q.u, v) ==> v == q.s
    ensures var x := Pass(c, st); x == st.(net := x.net) && SameEdges(st.net.out, x.net.out)
    ensures !WalkFails(st.net, st.kind, c.self, st.table, 0)
  {
    hide Serve;
    hide ServeFails;
    hide TableOk;
    var n, t := st.net, st.table;
    NoWayOn(q, n.out);
    ServedInVain(n, q, c.self, t, 0);
    var m := Serve(n, st.kind, c.self, t, q.s, CONTROLLER_FLOW).0;
    assert !Feasible(m.out, q.u, [q.d]) by {
      SameEdgesSameReach(n.out, m.out, q.u, q.d);
    }
    ServedInVain(m, q, c.self, t, 1);
    var m2 := Serve(m, st.kind, c.self, t, q.u, CONTROLLER_FLOW).0;
    assert Walk(m, st.kind, c.self, t, 1) == Walk(m2, st.kind, c.self, t, 2) == (m2, t);
    assert !WalkFails(m2, st.kind, c.self, t, 2) && !WalkFails(m, st.kind, c.self, t, 1);
    NothingToFlush(c, Walked(c, st), 0);
  }

  lemma AfterEmptyReport(c: Site, metric: Metric, q: Corners, wt: int, y: State) returns (z: State)
    requires Different(q) && GoodMetric(metric) && Safe(y) && y.kind == FlowTo(q.d)
    requires LinkedAs(q, false, wt, y.net.out) && FlowsOverS(q, y.table)
    ensures var op := NeighborReport(q.s, []); z == Operate(c, metric, y, op) && !Crashes(c, metric, y, op)
    ensures z.kind == FlowTo(q.d) && FlowsOverS(q, z.table) && Stranded(q, z.net.out) && Silent(z.net.out, q.w)
  {
    hide Report;
    hide Pass;
    hide WalkFails;
    hide TableOk;
    hide FlowsOverS;
    var op := NeighborReport(q.s, []);
    var x := Prepared(c, metric, y, op);
    SilentAfterReport(y.net, metric, q.s, [], q.s);
    ReportIsExact(y.net, metric, q.s, [], q.d, q.u);
    assert Out(x.net.out, q.u) == Out(y.net.out, q.u);
    forall v: Id ensures HasEdge(x.net.out, q.u, v) <==> v == q.s {
      assert Links(q, false, wt, y.net.out, q.u, v);
    }
    PassInVain(c, q, x);
    ReportIsExact(y.net, metric, q.s, [], q.d, q.w);
    forall v: Id ensures !HasEdge(x.net.out, q.w, v) {
      assert Links(q, false, wt, y.net.out, q.w, v);
    }
    assert Out(x.net.out, q.w) != [] ==> HasEdge(x.net.out, q.w, Out(x.net.out, q.w)[0].to);
    z := Operate(c, metric, y, op);
    SameEdgesSilent(x.net.out, z.net.out);
    assert Out(x.net.out, q.u) == Out(z.net.out, q.u);
  }

  // ---------------------------------------------------------------- the report of `w`

  lemma LinkedByW(n: Net, metric: Metric, q: Corners, x: nat)
    requires Different(q) && GoodNet(n) && GoodMetric(metric) && Stranded(q, n.out)
    ensures var m := Report(n, metric, q.w, Star(q.d, q.u, x));
            && GoodNet(m) && Stranded(q, m.out) && Feasible(m.out, q.u, [q.d]) && !Feasible(m.out, q.s, [q.d])
  {
    hide Report;
    hide Star;
    var ns := Star(q.d, q.u, x);
    var m := Report(n, metric, q.w, ns);
    ReportKeepsGood(n, metric, q.w, ns);
    StarNames(q.d, q.u, x, q.s);
    StarNames(q.d, q.u, x, q.u);
    StarNames(q.d, q.u, x, q.d);
    SilentAfterReport(n, metric, q.w, ns, q.s);
    ReportIsExact(n, metric, q.w, ns, q.d, q.u);
    assert FineVertex(n.out, q.u);
    var wt := WeightOf(n, metric, q.w, q.u, FirstEtx(ns, q.u));
    AddEdgeFinds(Out(n.out, q.u), q.w, FirstEtx(ns, q.u), wt, q.s);
    AddEdgeFinds(Out(n.out, q.u), q.w, FirstEtx(ns, q.u), wt, q.w);
    var p := [q.u, q.w, q.d];
    assert Hop(m.out, p, 0) && Hop(m.out, p, 1) && PathFromTo(m.out, p, q.u, q.d);
    assert q.d in [q.d];
    SilentReachesNothing(m.out, q.s, [q.d]);
  }

  lemma StrandedCheckFails(g: Graph, q: Corners, t: Table)
    requires Different(q) && FlowsOverS(q, t) && Stranded(q, g)
    ensures CheckFails(g, t, t[1])
  {
    assert Lookup(t, q.s, CONTROLLER_FLOW) == Some(t[0]) && Lookup(t, q.d, CONTROLLER_FLOW) == None;
    var rest := [RouteNode(q.s, t[0].weight, 1), RouteNode(q.d, 0, 0)];
    assert Rebuild(t, t[0]) == Some(rest);
    var r := [RouteNode(q.u, t[1].weight, 2)] + rest;
    assert Rebuild(t, t[1]) == Some(r);
    assert r[0].id == q.u && r[1].id == q.s;
    assert Hop(g, Ids(r), 0) && ReadsNullAt(g, Ids(r), 1);
  }

  lemma NamingReportCrashes(c: Site, metric: Metric, q: Corners, x: nat, st: State)
    requires Different(q) && GoodMetric(metric) && Safe(st) && st.kind == FlowTo(q.d)
    requires FlowsOverS(q, st.table) && Stranded(q, st.net.out) && Silent(st.net.out, q.w)
    ensures Crashes(c, metric, st, NeighborReport(q.w, Star(q.d, q.u, x)))
  {
    hide Report;
    hide Noticed;
    NewLinkIsNoticed(st.net, metric, q.w, Star(q.d, q.u, x), 0);
    hide Serve;
    hide ServeFails;
    hide TableOk;
    hide Stranded;
    hide Star;
    var y := Prepared(c, metric, st, NeighborReport(q.w, Star(q.d, q.u, x)));
    var n, t := y.net, y.table;
    LinkedByW(st.net, metric, q, x);
    ServedInVain(n, q, c.self, t, 0);
    var m := Serve(n, y.kind, c.self, t, q.s, CONTROLLER_FLOW).0;
    StillFails(n, m, q, t);
    assert WalkFails(m, y.kind, c.self, t, 1);
    assert WalkFails(n, y.kind, c.self, t, 0);
  }

  lemma StillFails(n: Net, m: Net, q: Corners, t: Table)
    requires Different(q) && GoodNet(m) && SameEdges(n.out, m.out) && Stranded(q, n.out)
    requires Feasible(n.out, q.u, [q.d]) && TableOk(FlowTo(q.d), t) && FlowsOverS(q, t)
    ensures ServeFails(m, FlowTo(q.d), t, q.u, CONTROLLER_FLOW)
  {
    hide ServeFails;
    OneTarget0(q.d);
    SameEdgesSilent(n.out, m.out);
    assert Out(n.out, q.u) == Out(m.out, q.u);
    SameEdgesSameReach(n.out, m.out, q.u, q.d);
    assert q.d in [q.d];
    StrandedCheckFails(m.out, q, t);
    ServeFailsExactly(m, FlowTo(q.d), t, 1);
  }

  // ---------------------------------------------------------------- all operations

  const START: State := State(Net(map[], map[]), ByFlow([]), [], [])

  /** `d` is the controller, `s` reports its links, `u` asks, and `s` reports nobody any more. */
  function Prelude(q: Corners, x: nat): seq<Operation> {
    [Registration(CONTROLLER_FLOW, q.d)]
    + ([NeighborReport(q.s, Star(q.d, q.u, x))] + ([Request(q.u, CONTROLLER_FLOW)] + [NeighborReport(q.s, [])]))
  }

  lemma AfterRegistration(c: Site, metric: Metric, d: Id) returns (y: State)
    requires GoodMetric(metric) && Safe(START)
    ensures var op := Registration(CONTROLLER_FLOW, d);
            y == Operate(c, metric, START, op) && !Crashes(c, metric, START, op)
    ensures y == START.(kind := FlowTo(d))
  {
    var op := Registration(CONTROLLER_FLOW, d);
    y := Prepared(c, metric, START, op);
    EmptyPass(c, y);
    assert [] + [(CONTROLLER_FLOW, d)] == [(CONTROLLER_FLOW, d)];
  }

  /**
    From the empty controller on, four operations read no NULL header; then a report of `w`, which forwards
    nothing, names two neighbours, and its pass reads one: the current route of `u` for the flow to the
    controller still leads over `s`.
   */
  lemma NamingReportFails(c: Site, metric: Metric, q: Corners, x: nat) returns (st: State)
    requires Different(q) && GoodMetric(metric)
    ensures Safe(START) && RunsThrough(c, metric, START, Prelude(q, x))
    ensures st == OperateAll(c, metric, START, Prelude(q, x)) && ForwardsNothing(st.table, q.w)
    ensures Crashes(c, metric, st, NeighborReport(q.w, Star(q.d, q.u, x)))
  {
    hide Operate;
    hide Crashes;
    hide LinkedAs;
    hide Stranded;
    hide Star;
    hide Report;
    InitialIsSafe(START);
    var wt := metric(MAX_BATTERY_LEVEL, x);
    var o1, o2 := Registration(CONTROLLER_FLOW, q.d), NeighborReport(q.s, Star(q.d, q.u, x));
    var o3, o4 := Request(q.u, CONTROLLER_FLOW), NeighborReport(q.s, []);
    var a := AfterRegistration(c, metric, q.d);
    var b := ReportOnEmpty(c, metric, a, o2);
    FirstLinks(a.net, metric, q, x);
    var d := AfterRequest(c, metric, q, wt, b);
    st := AfterEmptyReport(c, metric, q, wt, d);
    OperateJoin(c, metric, START, [o1], [o2] + ([o3] + [o4]));
    OperateJoin(c, metric, a, [o2], [o3] + [o4]);
    OperateJoin(c, metric, b, [o3], [o4]);
    OperateOne(c, metric, START, o1);
    OperateOne(c, metric, a, o2);
    OperateOne(c, metric, b, o3);
    OperateOne(c, metric, d, o4);
    RequestsNeverCrash(c, metric, b, q.u, CONTROLLER_FLOW);
    NamingReportCrashes(c, metric, q, x, st);
  }
}
