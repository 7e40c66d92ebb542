/**
  When a neighbour report makes its pass read a NULL header, in the states that requests, registrations and
  reports lead to: for the table by address only an empty report can; for the table by flow the entries of
  the flow to the controller, which are never dropped, can as well.
 */
module ReportSafety {
  import opened Graphs
  import opened NeighborReports
  import opened ReportNotice
  import opened FlowTables
  import opened RouteUpdates
  import opened TableSafety
  import opened SetupPushes
  import opened ControllerRuns
  import opened RunSafety
  import opened UpdatePass
  import opened HeaderReads
  import opened Operations

  /** Between operations no entry is marked, and every entry that may be dropped has an out-edge if it forwards. */
  ghost predicate Orderly(st: State) {
    Safe(st) && NoMarks(st.table) && HeadedBut(st.kind, st.net.out, st.table, {})
  }

  lemma UnmarkedStaysHeaded(keys: Kind, g: Graph, t: Table, u: Table)
    requires HeadedBut(keys, g, t, {}) && OnlyUnmarked(t, u)
    ensures HeadedBut(keys, g, u, {})
  {
    forall i | 0 <= i < |u| && MayDrop(keys, u[i].key) ensures HasHeader(g, u[i]) {
      assert HasHeader(g, t[i]) && u[i] == t[i].(changed := u[i].changed);
    }
  }

  /** Whatever the table, a pass that starts without marks ends orderly. */
  lemma PassEndsOrderly(c: Site, y: State)
    requires Safe(y) && NoMarks(y.table)
    ensures Orderly(Pass(c, y))
  {
    hide FitHeader;
    var w := Walked(c, y);
    WalkFits(y.net, y.kind, c.self, y.table, 0);
    FitIsHeaded(y.kind, w.net.out, w.table);
    FlushEndsOrderly(c, w);
  }

  lemma FitIsHeaded(kind: Kind, g: Graph, t: Table)
    requires FitUpTo(kind, g, t, |t|)
    ensures HeadedBut(kind, g, t, {})
  {
    forall i | 0 <= i < |t| && MayDrop(kind, t[i].key) ensures HasHeader(g, t[i]) {
      assert FitHeader(kind, g, t[i]);
    }
  }

  lemma FlushEndsOrderly(c: Site, w: State)
    requires Safe(w) && HeadedBut(w.kind, w.net.out, w.table, {})
    ensures Orderly(FlushFrom(c, w, 0))
  {
    hide FlushFrom;
    hide TableOk;
    hide InSync;
    FlushClears(c, w, 0);
    var x := FlushFrom(c, w, 0);
    UnmarkedStaysHeaded(w.kind, w.net.out, w.table, x.table);
    SameEdgesKeepsHeaded(w.kind, w.net.out, x.net.out, x.table, {});
  }

  lemma RequestKeepsOrderly(c: Site, metric: Metric, st: State, s: Id, k: Id)
    requires Orderly(st) && GoodMetric(metric)
    ensures Orderly(Operate(c, metric, st, Request(s, k)))
  {
    hide Serve;
    hide PushSetup;
    hide HeadedBut;
    hide FlushFrom;
    var y := Prepared(c, metric, st, Request(s, k));
    if Lookup(st.table, s, k).Some? {
      PushIsExact(c, st.net, st.pushes, SetupOf(Lookup(st.table, s, k).value));
      SameEdgesKeepsHeaded(st.kind, st.net.out, y.net.out, st.table, {});
    } else {
      ServeKeepsHeaded(st.net, st.kind, st.kind, c.self, st.table, {}, s, k);
      FlushEndsOrderly(c, y);
    }
  }

  lemma OperationKeepsOrderly(c: Site, metric: Metric, st: State, op: Operation)
    requires Orderly(st) && GoodMetric(metric)
    ensures Orderly(Operate(c, metric, st, op))
  {
    hide Pass;
    hide HeadedBut;
    hide Report;
    hide Noticed;
    if op.Request? {
      RequestKeepsOrderly(c, metric, st, op.source, op.key);
    } else if StartsPass(metric, st, op) {
      PassEndsOrderly(c, Prepared(c, metric, st, op));
    } else if op.NeighborReport? {
      UnnoticedKeepsHeaded(metric, st, op.source, op.neighbors);
    }
  }

  /** Without a pass the table stays as it is, and so does which vertices have an out-edge. */
  lemma UnnoticedKeepsHeaded(metric: Metric, st: State, src: Id, ns: seq<Neighbor>)
    requires Safe(st) && GoodMetric(metric) && !Noticed(st.net, metric, src, ns)
    ensures var g := Report(st.net, metric, src, ns).out;
            HeadedBut(st.kind, st.net.out, st.table, {}) ==> HeadedBut(st.kind, g, st.table, {})
  {
    hide Noticed;
    hide Report;
    var g, t := Report(st.net, metric, src, ns).out, st.table;
    if HeadedBut(st.kind, st.net.out, t, {}) {
      forall i | 0 <= i < |t| && MayDrop(st.kind, t[i].key) ensures HasHeader(g, t[i]) {
        UnnoticedKeepsHeaders(st.net, metric, src, ns, t[i].source);
        assert HasHeader(st.net.out, t[i]);
      }
    }
  }

  /** After every list of operations from the empty controller no entry is marked, and droppable ones are headed. */
  lemma {:induction false} OperationsEndOrderly(c: Site, metric: Metric, st: State, ops: seq<Operation>)
    requires Orderly(st) && GoodMetric(metric)
    ensures Orderly(OperateAll(c, metric, st, ops))
    decreases |ops|
  {
    hide Operate;
    hide Orderly;
    assert Safe(st) by {
      OrderlyIsSafe(st);
    }
    if ops != [] {
      OperationKeepsOrderly(c, metric, st, ops[0]);
      OperationsEndOrderly(c, metric, Operate(c, metric, st, ops[0]), ops[1..]);
    }
  }

  lemma OrderlyIsSafe(st: State)
    requires Orderly(st)
    ensures Safe(st)
  {
  }

  lemma InitialIsOrderly(st: State)
    requires Initial(st)
    ensures Orderly(st)
  {
    InitialIsSafe(st);
  }

  // ---------------------------------------------------------------- reports

  /** Some iteration of the pass for the flow to the controller meets `v` on the way. */
  ghost predicate ControllerFlowMeets(n: Net, kind: Kind, self: Id, t: Table, v: Id)
    requires GoodNet(n) && TableOk(kind, t)
  {
    exists it :: it in Iterations(n, kind, self, t, 0) && !MayDrop(kind, it.table[it.index].key)
                 && MeetsOnTheWay(it.net, kind, it.table, it.index, v)
  }

  /**
    In any state a report reads a NULL header exactly when it is noticed and its pass meets a vertex it leaves
    without out-edge.
   */
  lemma ReportCrashesExactly(c: Site, metric: Metric, st: State, src: Id, ns: seq<Neighbor>)
    requires Safe(st) && GoodMetric(metric)
    ensures var m := Report(st.net, metric, src, ns);
            && GoodNet(m)
            && (Crashes(c, metric, st, NeighborReport(src, ns)) <==>
                  Noticed(st.net, metric, src, ns) &&
                  exists v :: GoesSilent(st.net, src, ns, v) && PassMeets(m, st.kind, c.self, st.table, 0, v))
  {
    hide Report;
    hide Noticed;
    hide WalkFails;
    hide PassMeets;
    hide GoesSilent;
    hide TableOk;
    hide InSync;
    PassFailsAfterReport(st.net, metric, src, ns, st.kind, c.self, st.table);
  }

  /** In an orderly state a pass meets other silent vertices than the sender for the controller flow only. */
  lemma OrderlyMeets(c: Site, metric: Metric, st: State, src: Id, ns: seq<Neighbor>, v: Id)
    requires Orderly(st) && GoodMetric(metric) && GoesSilent(st.net, src, ns, v)
    ensures var m := Report(st.net, metric, src, ns);
            && GoodNet(m)
            && (PassMeets(m, st.kind, c.self, st.table, 0, v) ==>
                  (ns == [] && v == src) || ControllerFlowMeets(m, st.kind, c.self, st.table, v))
  {
    hide Report;
    hide MeetsOnTheWay;
    hide HeadedBut;
    hide Silent;
    var m := Report(st.net, metric, src, ns);
    var silent := if ns == [] then {src} else {};
    ReportKeepsGood(st.net, metric, src, ns);
    ReportKeepsHeadedBut(st.kind, st.net, metric, src, ns, st.table);
    SilentAfterReport(st.net, metric, src, ns, v);
    WalkStaysHeaded(m, st.kind, st.kind, c.self, st.table, silent, 0);
    if PassMeets(m, st.kind, c.self, st.table, 0, v) {
      var it :| it in Iterations(m, st.kind, c.self, st.table, 0)
                && MeetsOnTheWay(it.net, st.kind, it.table, it.index, v);
      SameEdgesSilent(m.out, it.net.out);
      if MayDrop(st.kind, it.table[it.index].key) {
        HeadedMeetsOnlySilent(st.kind, st.kind, it.net, it.table, silent, it.index, v);
      }
    }
  }

  /**
    After any list of operations from the empty controller, a report that is noticed makes its pass read a NULL
    header exactly when it is empty and the pass meets its sender on the way, or when the pass meets a vertex
    without out-edge on the way of the flow to the controller; one that is not noticed reads none.
   */
  lemma ReportCrashesInRuns(c: Site, metric: Metric, st: State, ops: seq<Operation>, src: Id, ns: seq<Neighbor>)
    requires Initial(st) && GoodMetric(metric)
    ensures Safe(st)
    ensures var x := OperateAll(c, metric, st, ops);
            var m := Report(x.net, metric, src, ns);
            && GoodNet(m)
            && (Crashes(c, metric, x, NeighborReport(src, ns)) <==>
                  Noticed(x.net, metric, src, ns) &&
                  (|| (ns == [] && PassMeets(m, x.kind, c.self, x.table, 0, src))
                   || exists v :: GoesSilent(x.net, src, ns, v) && ControllerFlowMeets(m, x.kind, c.self, x.table, v)))
  {
    hide Report;
    hide Noticed;
    hide Crashes;
    hide MeetsOnTheWay;
    hide OperateAll;
    InitialIsOrderly(st);
    OperationsEndOrderly(c, metric, st, ops);
    var x := OperateAll(c, metric, st, ops);
    var m := Report(x.net, metric, src, ns);
    ReportCrashesExactly(c, metric, x, src, ns);
    forall v: Id | GoesSilent(x.net, src, ns, v)
      ensures PassMeets(m, x.kind, c.self, x.table, 0, v) ==>
                (ns == [] && v == src) || ControllerFlowMeets(m, x.kind, c.self, x.table, v)
      ensures ControllerFlowMeets(m, x.kind, c.self, x.table, v) ==> PassMeets(m, x.kind, c.self, x.table, 0, v)
    {
      OrderlyMeets(c, metric, x, src, ns, v);
    }
    assert ns == [] ==> GoesSilent(x.net, src, ns, src);
  }

  /**
    For the table by address only an empty report can make its pass read a NULL header: exactly when the pass
    meets its sender on the way.  The sender then forwards something.
   */
  lemma AddressReportCrashesInRuns(c: Site, metric: Metric, st: State, ops: seq<Operation>, src: Id, ns: seq<Neighbor>)
    requires Initial(st) && st.kind == ByAddress && GoodMetric(metric)
    ensures Safe(st)
    ensures var x := OperateAll(c, metric, st, ops);
            var m := Report(x.net, metric, src, ns);
            && GoodNet(m) && x.kind == ByAddress && Headed(x.net.out, x.table)
            && (Crashes(c, metric, x, NeighborReport(src, ns)) <==>
                  ns == [] && PassMeets(m, ByAddress, c.self, x.table, 0, src))
            && (Crashes(c, metric, x, NeighborReport(src, ns)) ==> !ForwardsNothing(x.table, src))
  {
    hide Report;
    hide Noticed;
    hide MeetsOnTheWay;
    hide OperateAll;
    InitialIsOrderly(st);
    OperationsEndOrderly(c, metric, st, ops);
    var x := OperateAll(c, metric, st, ops);
    StaysByAddress(c, metric, st, ops);
    ReportCrashesInRuns(c, metric, st, ops, src, ns);
    var m := Report(x.net, metric, src, ns);
    forall v: Id ensures !ControllerFlowMeets(m, x.kind, c.self, x.table, v) {
    }
    ReportKeepsHeaded(x.net, metric, src, ns, x.table);
    if ForwardsNothing(x.table, src) {
      HeadedPassIsSafe(m, ByAddress, c.self, x.table, 0);
      PassFailsAfterReport(x.net, metric, src, ns, ByAddress, c.self, x.table);
    } else if ns == [] {
      var i :| 0 <= i < |x.table| && x.table[i].source == src && x.table[i].action == Forward;
      assert HasHeader(x.net.out, x.table[i]);
      EmptyIsNoticed(x.net, metric, src);
    }
  }

  lemma {:induction false} StaysByAddress(c: Site, metric: Metric, st: State, ops: seq<Operation>)
    requires Safe(st) && st.kind == ByAddress && GoodMetric(metric)
    ensures OperateAll(c, metric, st, ops).kind == ByAddress
    decreases |ops|
  {
    if ops != [] {
      StayByAddress(c, metric, st, ops[0]);
      StaysByAddress(c, metric, Operate(c, metric, st, ops[0]), ops[1..]);
    }
  }

  lemma StayByAddress(c: Site, metric: Metric, st: State, op: Operation)
    requires Safe(st) && st.kind == ByAddress && GoodMetric(metric)
    ensures Operate(c, metric, st, op).kind == ByAddress
  {
    hide FlushFrom;
    hide Walk;
    var y := Prepared(c, metric, st, op);
    FlushClears(c, y, 0);
    FlushClears(c, Walked(c, y), 0);
  }
}
