/**
  A report that process_neighbor_report does not notice although it takes away a link that the table uses: after
  two operations from the empty controller and this report an entry forwards over a link that is gone.
 */
module OverlookedReport {
  import opened Options
  import opened Graphs
  import opened Routes
  import opened NeighborReports
  import opened ReportNotice
  import opened FlowTables
  import opened RouteUpdates
  import opened TableSafety
  import opened SetupPushes
  import opened ControllerRuns
  import opened RunSafety
  import opened UpdatePass
  import opened Operations
  import opened Energies
  import opened RequestAnswers
  import opened RouteReplacement
  import opened ConsistentRuns

  const START: State := State(Net(map[], map[]), ByAddress, [], [])

  /** `a` is linked with `h`, over its header edge, and with `o`, which lead nowhere else. */
  ghost predicate Fork(g: Graph, a: Id, h: Id, o: Id) {
    && Out(g, a) != [] && |Out(g, a)| == 2 && Out(g, a)[0].to == h && Out(g, a)[1].to == o
    && HasEdge(g, h, a) && HasEdge(g, o, a) && forall v: Id :: HasEdge(g, o, v) ==> v == a
  }

  /** Two distinct targets make an edge list of two, in one order or the other. */
  lemma TwoEdges(es: seq<Edge>, b: Id, d: Id)
    requires b != d && Distinct(es) && forall v: Id :: FindEdge(es, v).Some? <==> v == b || v == d
    ensures |es| == 2 && ((es[0].to == b && es[1].to == d) || (es[0].to == d && es[1].to == b))
  {
    forall i | 0 <= i < |es| ensures es[i].to == b || es[i].to == d {
      ListedEdgeIsFound(es, es[i]);
    }
    assert DifferentTargets(es, 0, 1) && DifferentTargets(es, 0, 2) && DifferentTargets(es, 1, 2);
    var e, f := FindEdge(es, b).value, FindEdge(es, d).value;
    assert e in es && f in es;
  }

  /** The first report of `a` makes the fork. */
  lemma FirstReport(metric: Metric, a: Id, b: Id, d: Id, x: nat) returns (h: Id, o: Id)
    requires GoodMetric(metric) && a != b && a != d && b != d
    ensures {h, o} == {b, d} && h != o
    ensures var m := Report(START.net, metric, a, [Neighbor(b, x), Neighbor(d, x)]);
            && GoodNet(m) && a in m.out && Fork(m.out, a, h, o)
            && EdgeWeight(m.out, a, o) == metric(MAX_BATTERY_LEVEL, x)
            && forall v: Id :: EnergyOf(m, v) == MAX_BATTERY_LEVEL
  {
    hide Report;
    var ns := [Neighbor(b, x), Neighbor(d, x)];
    var m := Report(START.net, metric, a, ns);
    assert GoodNet(START.net);
    ReportKeepsGood(START.net, metric, a, ns);
    assert FineVertex(m.out, a);
    assert ns[0].id == b && ns[1].id == d;
    forall v: Id ensures FindEdge(Out(m.out, a), v).Some? <==> v == b || v == d {
      ReportIsExact(START.net, metric, a, ns, v, b);
    }
    TwoEdges(Out(m.out, a), b, d);
    h := Out(m.out, a)[0].to;
    o := Out(m.out, a)[1].to;
    forall v | v == b || v == d
      ensures Out(m.out, v) == [Edge(a, FirstEtx(ns, v), WeightOf(START.net, metric, a, v, FirstEtx(ns, v)), EdgeNew)]
    {
      ReportIsExact(START.net, metric, a, ns, a, v);
    }
    assert forall v: Id :: EnergyOf(START.net, v) == MAX_BATTERY_LEVEL;
    var i: nat := if o == b then 0 else 1;
    var e := ReportedWeights(START.net, metric, a, ns, i);
  }

  /** A route from `a` to `h` goes there at once. */
  lemma RouteIsDirect(g: Graph, a: Id, h: Id, o: Id, r: Route)
    requires Fork(g, a, h, o) && a != h && h != o && IsRoute(g, a, h, r)
    ensures r[|r| - 2].id == h
  {
    var n := |r| - 1;
    var v := r[n - 1].id;
    assert RouteHop(g, r, n) && RouteHop(g, r, n - 1) && DifferentIds(r, n - 2, n);
    assert v == h || v == o;
  }

  /** A request of `a` for `h` leaves an entry over the header edge. */
  lemma RequestOverHeader(c: Site, metric: Metric, st: State, a: Id, h: Id, o: Id) returns (x: State)
    requires Safe(st) && GoodMetric(metric) && st.kind == ByAddress && st.table == []
    requires Fork(st.net.out, a, h, o) && a != h && h != o && a != o
    ensures x == Operate(c, metric, st, Request(a, h)) && x.kind == ByAddress && NoMarks(x.table)
    ensures SameEdges(st.net.out, x.net.out) && Hop1(x.table, h, a) == Some(h)
  {
    hide FlushFrom;
    hide TableOk;
    hide InSync;
    hide Install;
    hide Step;
    var y := Step(c, st, Ask(a, h));
    x := Operate(c, metric, st, Request(a, h));
    StepIsSafe(c, st, Ask(a, h));
    FirstAsk(c, st, a, h);
    assert Targets(st.kind, h) == [h] && h in [h];
    assert Reachable(st.net.out, a, h) by {
      assert HasEdge(st.net.out, a, h) && Hop(st.net.out, [a, h], 0);
      assert PathFromTo(st.net.out, [a, h], a, h);
    }
    var d, r :| d in [h] && IsRoute(y.net.out, a, d, r) && y.table == Install([], c.self, h, r);
    assert Fork(y.net.out, a, h, o) by {
      SameFork(st.net.out, y.net.out, a, h, o);
    }
    RouteIsDirect(y.net.out, a, h, o, r);
    InstallReplaces([], c.self, h, r);
    assert NewHop([], y.table, c.self, h, r, |r| - 1);
    FlushClears(c, y, 0);
    UnmarkedSameHops(y.table, x.table, h, a);
    assert forall v :: Out(st.net.out, v) == Out(y.net.out, v) == Out(x.net.out, v);
  }

  lemma SameFork(g: Graph, k: Graph, a: Id, h: Id, o: Id)
    requires SameEdges(g, k) && Fork(g, a, h, o)
    ensures Fork(k, a, h, o)
  {
    assert Out(k, a) == Out(g, a) && Out(k, h) == Out(g, h) && Out(k, o) == Out(g, o);
    forall v: Id | HasEdge(k, o, v) ensures v == a {
      assert HasEdge(g, o, v);
    }
  }

  lemma LeavesOutHeader(n: Net, metric: Metric, a: Id, h: Id, o: Id, x: nat)
    requires GoodNet(n) && GoodMetric(metric) && Fork(n.out, a, h, o) && h != o
    requires EdgeWeight(n.out, a, o) == WeightOf(n, metric, a, o, x)
    ensures !Noticed(n, metric, a, [Neighbor(o, x)]) && LosesHeader(n, a, [Neighbor(o, x)])
  {
    hide Noticed;
    var ns := [Neighbor(o, x)];
    assert FineVertex(n.out, a) && n.out[a][1] in n.out[a];
    assert HasEdge(n.out, a, o) && ns[0].id == o && Known(n, metric, a, ns[0]);
    NoticedExactly(n, metric, a, ns);
  }

  /** The two operations before the report. */
  function Prelude(a: Id, b: Id, d: Id, h: Id, x: nat): seq<Operation> {
    [NeighborReport(a, [Neighbor(b, x), Neighbor(d, x)])] + [Request(a, h)]
  }

  /**
    For any three nodes `a`, `b`, `d`: `a` reports links to `b` and `d` and asks for the one of them, `h`, that is at
    its header edge; all is consistent.  Then `a` reports its link to the other one only: no pass follows, and the
    entry of `a` for `h` forwards over the link that is gone.
   */
  lemma OverlookedReportIsFollowed(c: Site, metric: Metric, a: Id, b: Id, d: Id, x: nat)
    returns (h: Id, o: Id, st: State, y: State)
    requires GoodMetric(metric) && a != b && a != d && b != d
    ensures Safe(START) && {h, o} == {b, d} && RunsThrough(c, metric, START, Prelude(a, b, d, h, x))
    ensures st == OperateAll(c, metric, START, Prelude(a, b, d, h, x)) && Consistent(st)
    ensures var op := NeighborReport(a, [Neighbor(o, x)]);
            && y == Operate(c, metric, st, op) && Overlooked(metric, st, op) && !Consistent(y)
            && Hop1(y.table, h, a) == Some(h) && !HasEdge(y.net.out, a, h)
  {
    hide Operate;
    hide Crashes;
    hide Report;
    hide Noticed;
    hide Consistent;
    var o1 := NeighborReport(a, [Neighbor(b, x), Neighbor(d, x)]);
    InitialIsSafe(START);
    h, o := FirstReport(metric, a, b, d, x);
    var s1 := ReportOnEmpty(c, metric, START, o1);
    st := RequestOverHeader(c, metric, s1, a, h, o);
    var o2, op := Request(a, h), NeighborReport(a, [Neighbor(o, x)]);
    OperateJoin(c, metric, START, [o1], [o2]);
    OperateOne(c, metric, START, o1);
    OperateOne(c, metric, s1, o2);
    RequestsNeverCrash(c, metric, s1, a, h);
    assert Consistent(START) by {
      StartIsConsistent();
    }
    assert Consistent(s1) by {
      EmptyIsConsistent(s1);
    }
    RequestLeavesConsistent(c, metric, s1, a, h);
    SameFork(s1.net.out, st.net.out, a, h, o);
    OperateSameEnergies(c, metric, s1, o2);
    assert EnergyOf(st.net, a) == EnergyOf(s1.net, a) && EnergyOf(st.net, o) == EnergyOf(s1.net, o);
    assert Out(st.net.out, a) == Out(s1.net.out, a);
    LeavesOutHeader(st.net, metric, a, h, o, x);
    y := Operate(c, metric, st, op);
    ReportConsistentExactly(c, metric, st, op);
    OperationPasses(c, metric, st, op);
    UnnoticedKeepsEdges(st.net, metric, a, [Neighbor(o, x)], a, h);
  }

  lemma StartIsConsistent()
    requires Safe(START)
    ensures Consistent(START)
  {
  }

  lemma EmptyIsConsistent(st: State)
    requires Safe(st) && st.kind == ByAddress && st.table == []
    ensures Consistent(st)
  {
  }
}
