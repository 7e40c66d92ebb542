/**
  A node that is never told its entry although the entry counts as pushed: the controller cannot reach it.
 */
module UnsentSetup {
  import opened Graphs
  import opened NeighborReports
  import opened FlowTables
  import opened RouteUpdates
  import opened TableSafety
  import opened SetupPushes
  import opened RunSafety
  import opened Operations
  import opened PairDigraphs

  /** Node `a` reports `b`, then `b` reports nobody: the edge from `a` is all there is. */
  lemma OneWayEdge(n: Net, metric: Metric, a: Id, b: Id, etx: nat, u: Id, v: Id)
    requires GoodNet(n) && GoodMetric(metric) && Unlinked(n.out) && a != b
    ensures var m := Report(n, metric, a, [Neighbor(b, etx)]);
            GoodNet(m) && (HasEdge(Report(m, metric, b, []).out, u, v) <==> u == a && v == b)
  {
    hide Report;
    var m := Report(n, metric, a, [Neighbor(b, etx)]);
    ReportKeepsGood(n, metric, a, [Neighbor(b, etx)]);
    PairEdge(n, metric, a, b, etx, u, v);
    ReportIsExact(m, metric, b, [], v, if u == b then a else u);
  }

  ghost predicate OneWay(n: Net, a: Id, b: Id) {
    a != b && GoodNet(n) && OnlyBetween(n.out, a, b) && HasEdge(n.out, a, b) && !HasEdge(n.out, b, a)
  }

  lemma OneWayByReports(n: Net, metric: Metric, a: Id, b: Id, etx: nat)
    requires GoodNet(n) && GoodMetric(metric) && Unlinked(n.out) && a != b
    ensures OneWay(Report(Report(n, metric, a, [Neighbor(b, etx)]), metric, b, []), a, b)
  {
    hide Report;
    var m := Report(n, metric, a, [Neighbor(b, etx)]);
    ReportKeepsGood(n, metric, a, [Neighbor(b, etx)]);
    ReportKeepsGood(m, metric, b, []);
    forall u: Id, v: Id ensures HasEdge(Report(m, metric, b, []).out, u, v) <==> u == a && v == b {
      OneWayEdge(n, metric, a, b, etx, u, v);
    }
  }

  lemma OneWayIsOneWay(g: Graph, a: Id, b: Id)
    requires OnlyBetween(g, a, b) && !HasEdge(g, b, a) && a != b
    ensures !Reachable(g, b, a)
  {
    forall p ensures !PathFromTo(g, p, b, a) {
      assert IsPath(g, p) ==> Hop(g, p, 0);
    }
  }

  const START: State := State(Net(map[], map[]), ByAddress, [], [])

  /**
    Node `a` reports the controller, the controller reports nobody, and `a` asks for the route to the
    controller: it gets a FORWARD entry.  The push finds no route to the node and sends nothing; the mark is
    cleared all the same, and the node has never been told.
   */
  lemma UnreachableNodeIsNotTold(c: Site, metric: Metric, a: Id, etx: nat) returns (x: State, ops: seq<Operation>)
    requires GoodMetric(metric) && a != c.self
    ensures ops == [NeighborReport(a, [Neighbor(c.self, etx)])] + ([NeighborReport(c.self, [])] + [Request(a, c.self)])
    ensures Safe(START) && RunsThrough(c, metric, START, ops) && x == OperateAll(c, metric, START, ops)
    ensures |x.table| == 1 && x.table[0].source == a && x.table[0].action == Forward && !x.table[0].changed
    ensures x.pushes == [Push(SetupOf(x.table[0]), false)]
  {
    hide Operate;
    hide Report;
    hide OneWay;
    hide Crashes;
    InitialIsSafe(START);
    var p, q, r := NeighborReport(a, [Neighbor(c.self, etx)]), NeighborReport(c.self, []), Request(a, c.self);
    OneWayByReports(START.net, metric, a, c.self, etx);
    var y := ReportOnEmpty(c, metric, START, p);
    var z := ReportOnEmpty(c, metric, y, q);
    RequestOneWay(c, metric, z, a);
    x := Operate(c, metric, z, r);
    ops := [p] + ([q] + [r]);
    OperateJoin(c, metric, START, [p], [q] + [r]);
    OperateJoin(c, metric, y, [q], [r]);
    OperateOne(c, metric, START, p);
    OperateOne(c, metric, y, q);
    OperateOne(c, metric, z, r);
    assert !Crashes(c, metric, z, r) by {
      RequestsNeverCrash(c, metric, z, a, c.self);
    }
  }

  lemma RequestOneWay(c: Site, metric: Metric, st: State, a: Id)
    requires Safe(st) && GoodMetric(metric) && st.kind == ByAddress && st.table == [] && st.pushes == []
    requires OneWay(st.net, a, c.self)
    ensures var x := Operate(c, metric, st, Request(a, c.self));
            && |x.table| == 1 && x.table[0].source == a && x.table[0].action == Forward && !x.table[0].changed
            && x.pushes == [Push(SetupOf(x.table[0]), false)]
  {
    hide Serve;
    hide PushSetup;
    var m, w, h := ServeBetween(st.net, st.kind, c.self, st.table, a, c.self, c.self);
    var y := Prepared(c, metric, st, Request(a, c.self));
    var e := NewEntry(c.self, a, c.self, c.self, Forward, w, h);
    assert y.table == [] + [e] == [e];
    OneWayIsOneWay(st.net.out, a, c.self);
    SameEdgesSameReach(st.net.out, y.net.out, c.self, a);
    PushIsExact(c, y.net, y.pushes, SetupOf(e));
    FlushEntryKeepsSafe(c, y, 0);
    assert FlushFrom(c, y, 0) == FlushFrom(c, FlushEntry(c, y, 0), 1) == FlushEntry(c, y, 0);
  }
}
