/**
  The table by address agrees with the digraph after every operation: requests, registrations and neighbour
  reports in any order, from the empty controller on.
 */
module ConsistentRuns {
  import opened Options
  import opened Graphs
  import opened Routes
  import opened NeighborReports
  import opened ReportNotice
  import opened FlowTables
  import opened LoopFreedom
  import opened RouteUpdates
  import opened TableSafety
  import opened SetupPushes
  import opened ControllerRuns
  import opened RunSafety
  import opened UpdatePass
  import opened Operations
  import opened RouteReplacement
  import opened RequestAnswers

  /** Nothing is marked, and every entry forwards exactly where it can deliver. */
  ghost predicate Consistent(st: State) {
    Safe(st) && st.kind == ByAddress && NoMarks(st.table) && AllSettled(st.net.out, st.table)
  }

  ghost predicate AllSettled(g: Graph, t: Table) {
    forall j {:trigger Settled(g, t, t[j])} :: 0 <= j < |t| ==> Settled(g, t, t[j])
  }

  lemma SettledOverSameEdges(g: Graph, h: Graph, t: Table)
    requires SameEdges(g, h) && AllSettled(g, t)
    ensures AllSettled(h, t)
  {
    forall j | 0 <= j < |t| ensures Settled(h, t, t[j]) {
      SameEdgesSameSettled(g, h, t, t[j]);
    }
  }

  lemma SettledWithoutMarks(g: Graph, t: Table, u: Table)
    requires OnlyUnmarked(t, u) && AllSettled(g, t)
    ensures AllSettled(g, u)
  {
    forall j | 0 <= j < |u| ensures Settled(g, u, u[j]) {
      UnmarkedSettles(g, t, u, j);
    }
  }

  /** A noticed report starts a pass with the reported digraph, a registration one with the new target. */
  lemma OperationPasses(c: Site, metric: Metric, st: State, op: Operation)
    requires Safe(st) && GoodMetric(metric)
    ensures op.NeighborReport? ==>
              var y := st.(net := Report(st.net, metric, op.source, op.neighbors));
              var noticed := Noticed(st.net, metric, op.source, op.neighbors);
              Safe(y) && Operate(c, metric, st, op) == if noticed then Pass(c, y) else y
    ensures op.Registration? && st.kind.ByFlow? ==>
              var ts := st.kind.targets;
              var y := st.(kind := ByFlow(if (op.flowid, op.target) in ts then ts else ts + [(op.flowid, op.target)]));
              Safe(y) && Operate(c, metric, st, op) == Pass(c, y)
    ensures op.Registration? && st.kind.ByAddress? ==> Operate(c, metric, st, op) == st
  {
    hide Pass;
    hide Noticed;
    hide Report;
    var y := Prepared(c, metric, st, op);
    if op.Registration? && st.kind.ByFlow? && (op.flowid, op.target) in st.kind.targets {
      assert y == st == st.(kind := ByFlow(st.kind.targets));
    }
  }

  /** The edges of `h` are those of `g`, but for one if `lost`. */
  ghost predicate Fewer(g: Graph, h: Graph, lost: bool, u: Id, w: Id) {
    forall v: Id, x: Id :: HasEdge(h, v, x) <==> HasEdge(g, v, x) && !(lost && v == u && x == w)
  }

  lemma {:induction false} ArrivesOverFewer(g: Graph, h: Graph, lost: bool, u: Id, w: Id, t: Table, k: Id, v: Id,
                                            n: nat)
    requires Fewer(g, h, lost, u, w) && (lost ==> Hop1(t, k, u) != Some(w))
    requires Arrives(g, t, k, k, v, n)
    ensures Arrives(h, t, k, k, v, n)
    decreases n
  {
    if v != k {
      ArrivesOverFewer(g, h, lost, u, w, t, k, Hop1(t, k, v).value, n - 1);
    }
  }

  lemma SettledOverFewer(g: Graph, h: Graph, lost: bool, u: Id, w: Id, t: Table, e: Entry)
    requires Fewer(g, h, lost, u, w) && (lost ==> Hop1(t, e.key, u) != Some(w)) && Settled(g, t, e)
    ensures Settled(h, t, e)
  {
    if e.action == Forward {
      var n: nat :| Arrives(g, t, e.key, e.key, e.source, n);
      ArrivesOverFewer(g, h, lost, u, w, t, e.key, e.source, n);
      ArrivesIsReachable(h, t, e.key, e.key, e.source, n);
    } else if Reachable(h, e.source, e.key) {
      var p :| PathFromTo(h, p, e.source, e.key);
      forall i ensures Hop(g, p, i) {
        assert Hop(h, p, i);
      }
      assert PathFromTo(g, p, e.source, e.key);
    }
  }

  /** An entry of the vertex that has lost its next hop cannot deliver. */
  lemma UnsettledByLoss(g: Graph, h: Graph, u: Id, w: Id, t: Table, k: Id)
    requires Unique(t) && AllSettled(g, t) && Fewer(g, h, true, u, w) && Hop1(t, k, u) == Some(w)
    ensures !AllSettled(h, t)
  {
    var j := Find(t, u, k);
    assert Settled(g, t, t[j]);
    assert !Settled(h, t, t[j]) by {
      forall n: nat ensures !Arrives(h, t, k, k, u, n) {
      }
    }
  }

  /**
    The report is not noticed, loses the header edge of its sender, and an entry of the sender forwards over that
    edge.
   */
  ghost predicate Overlooked(metric: Metric, st: State, op: Operation) {
    && op.NeighborReport? && !Noticed(st.net, metric, op.source, op.neighbors)
    && LosesHeader(st.net, op.source, op.neighbors)
    && exists k: Id :: Hop1(st.table, k, op.source) == Some(st.net.out[op.source][0].to)
  }

  lemma ReportLeavesConsistent(c: Site, metric: Metric, st: State, op: Operation)
    requires Consistent(st) && GoodMetric(metric)
    requires op.NeighborReport? && Noticed(st.net, metric, op.source, op.neighbors)
    ensures Consistent(Operate(c, metric, st, op))
  {
    hide Pass;
    hide Settled;
    hide Report;
    hide Noticed;
    OperationPasses(c, metric, st, op);
    var y := st.(net := Report(st.net, metric, op.source, op.neighbors));
    PassMakesConsistent(c, y);
    PassKeepsKind(c, y);
  }

  /** After a report the table agrees with the digraph exactly when the report has not been overlooked in that way. */
  lemma ReportConsistentExactly(c: Site, metric: Metric, st: State, op: Operation)
    requires Consistent(st) && GoodMetric(metric) && op.NeighborReport?
    ensures Consistent(Operate(c, metric, st, op)) <==> !Overlooked(metric, st, op)
  {
    hide Pass;
    hide Settled;
    hide Report;
    hide Noticed;
    hide TableOk;
    hide InSync;
    var src, ns, n, t := op.source, op.neighbors, st.net, st.table;
    var h := Report(n, metric, src, ns).out;
    if Noticed(n, metric, src, ns) {
      ReportLeavesConsistent(c, metric, st, op);
    } else {
      OperationPasses(c, metric, st, op);
      EntriesAreOk(st.kind, t);
      var lost := LosesHeader(n, src, ns);
      var w := if lost then n.out[src][0].to else 0;
      forall v: Id, x: Id ensures HasEdge(h, v, x) <==> HasEdge(n.out, v, x) && !(lost && v == src && x == w) {
        UnnoticedKeepsEdges(n, metric, src, ns, v, x);
      }
      if lost && exists k: Id :: Hop1(t, k, src) == Some(w) {
        var k: Id :| Hop1(t, k, src) == Some(w);
        UnsettledByLoss(n.out, h, src, w, t, k);
      } else {
        forall j | 0 <= j < |t| ensures Settled(h, t, t[j]) {
          SettledOverFewer(n.out, h, lost, src, w, t, t[j]);
        }
      }
    }
  }

  lemma PassKeepsKind(c: Site, y: State)
    requires Safe(y)
    ensures Pass(c, y).kind == y.kind
  {
    FlushClears(c, Walked(c, y), 0);
  }

  lemma DropsFirst(g: Graph, t: Table, self: Id, s: Id, k: Id, w: int, h: nat)
    requires AllSettled(g, t) && Lookup(t, s, k) == None && (s == k || !Reachable(g, s, k))
    ensures AllSettled(g, Put(t, self, s, k, s, Drop, w, h))
  {
    var u := Put(t, self, s, k, s, Drop, w, h);
    forall j | 0 <= j < |u| ensures Settled(g, u, u[j]) {
      if j < |t| {
        forall x: Id ensures Hop1(t, t[j].key, x) == Hop1(u, t[j].key, x) {
          PutLookup(t, self, s, k, s, Drop, w, h, x, t[j].key);
        }
        StaysSettled(g, t, u, t[j], u[j]);
      }
    }
  }

  lemma InstallsFirst(g: Graph, t: Table, self: Id, s: Id, k: Id, r: Route)
    requires Unique(t) && AllSettled(g, t) && IsRoute(g, s, k, r)
    ensures AllSettled(g, Install(t, self, k, r))
  {
    hide Install;
    hide Settled;
    var u := Install(t, self, k, r);
    forall j | 0 <= j < |u| ensures Settled(g, u, u[j]) {
      InstallSettles(g, t, self, s, k, r, j);
    }
  }

  lemma FirstRequestSettles(c: Site, st: State, y: State, s: Id, k: Id)
    requires Consistent(st) && SameEdges(st.net.out, y.net.out)
    requires FirstTable(c, st, y, s, k) && Lookup(st.table, s, k) == None
    ensures AllSettled(y.net.out, y.table)
  {
    hide Install;
    hide Put;
    hide Settled;
    hide TableOk;
    EntriesAreOk(st.kind, st.table);
    SettledOverSameEdges(st.net.out, y.net.out, st.table);
    SameEdgesSameReach(st.net.out, y.net.out, s, k);
    var ts := Targets(st.kind, k);
    assert ts == [k] && k in ts;
    if exists d :: d in ts && d != s && Reachable(st.net.out, s, d) {
      var d, r :| d in ts && IsRoute(y.net.out, s, d, r) && y.table == Install(st.table, c.self, k, r);
      InstallsFirst(y.net.out, st.table, c.self, s, k, r);
    } else {
      var w: int, h: nat :| y.table == Put(st.table, c.self, s, k, s, Drop, w, h);
      DropsFirst(y.net.out, st.table, c.self, s, k, w, h);
    }
  }

  lemma RequestLeavesConsistent(c: Site, metric: Metric, st: State, s: Id, k: Id)
    requires Consistent(st) && GoodMetric(metric)
    ensures Consistent(Operate(c, metric, st, Request(s, k)))
  {
    hide Step;
    hide FlushFrom;
    hide AllSettled;
    hide FirstTable;
    var o, x := Lookup(st.table, s, k), Operate(c, metric, st, Request(s, k));
    if o.Some? {
      KnownRequest(c, metric, st, o.value);
      SettledOverSameEdges(st.net.out, x.net.out, st.table);
    } else {
      var y := Step(c, st, Ask(s, k));
      StepIsSafe(c, st, Ask(s, k));
      FirstAsk(c, st, s, k);
      FirstRequestSettles(c, st, y, s, k);
      FlushClears(c, y, 0);
      SettledWithoutMarks(y.net.out, y.table, x.table);
      SettledOverSameEdges(y.net.out, x.net.out, x.table);
    }
  }

  /** No report of the list is overlooked at its moment. */
  ghost predicate NoneOverlooked(c: Site, metric: Metric, st: State, ops: seq<Operation>)
    requires Safe(st) && GoodMetric(metric)
    decreases |ops|
  {
    ops == [] ||
    (!Overlooked(metric, st, ops[0]) && NoneOverlooked(c, metric, Operate(c, metric, st, ops[0]), ops[1..]))
  }

  lemma {:induction false} OperationsKeepConsistent(c: Site, metric: Metric, st: State, ops: seq<Operation>)
    requires Consistent(st) && GoodMetric(metric) && NoneOverlooked(c, metric, st, ops)
    ensures Consistent(OperateAll(c, metric, st, ops))
    decreases |ops|
  {
    hide Operate;
    hide NoMarks;
    hide AllSettled;
    hide Overlooked;
    if ops != [] {
      match ops[0] {
        case Request(s, k) => RequestLeavesConsistent(c, metric, st, s, k);
        case Registration(_, _) => OperationPasses(c, metric, st, ops[0]);
        case NeighborReport(_, _) => ReportConsistentExactly(c, metric, st, ops[0]);
      }
      OperationsKeepConsistent(c, metric, Operate(c, metric, st, ops[0]), ops[1..]);
    }
  }

  /**
    After every list of requests, registrations and neighbour reports none of which is overlooked, for every entry
    of the table by address: it has been pushed, it forwards exactly when its target is another vertex that can be
    reached in the digraph, and then its next hops lead over links of the digraph all the way to the target.
   */
  lemma TableAgreesWithDigraph(c: Site, metric: Metric, st: State, ops: seq<Operation>, e: Entry)
    requires Initial(st) && st.kind == ByAddress && GoodMetric(metric)
    ensures Safe(st)
    ensures var x := OperateAll(c, metric, st, ops);
            NoneOverlooked(c, metric, st, ops) && e in x.table ==>
              && !e.changed && Pushed(e, x.pushes)
              && (e.action == Forward <==> e.source != e.key && Reachable(x.net.out, e.source, e.key))
              && (e.action == Forward ==> Delivers(x.net.out, x.table, e.key, e.key, e.source))
  {
    InitialIsSafe(st);
    var x := OperateAll(c, metric, st, ops);
    if NoneOverlooked(c, metric, st, ops) && e in x.table {
      OperationsKeepConsistent(c, metric, st, ops);
      var j :| 0 <= j < |x.table| && x.table[j] == e;
      assert Settled(x.net.out, x.table, x.table[j]) && Pushed(x.table[j], x.pushes);
    }
  }
}
