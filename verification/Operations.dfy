/**
  What the controller does per packet, as a whole: a request with its pushes, a registration or a neighbour
  report with the pass it starts.  Every such operation is a list of single steps.
 */
module Operations {
  import opened Options
  import opened Graphs
  import opened NeighborReports
  import opened ReportNotice
  import opened FlowTables
  import opened RouteUpdates
  import opened TableSafety
  import opened SetupPushes
  import opened ControllerRuns
  import opened RunSafety
  import opened UpdatePass
  import opened HeaderReads

  datatype Operation =
    | Request(source: Id, key: Id)
    | Registration(flowid: Id, target: Id)
    | NeighborReport(source: Id, neighbors: seq<Neighbor>)

  /** The state before the pass or the pushes of an operation. */
  ghost function Prepared(c: Site, metric: Metric, st: State, op: Operation): (x: State)
    requires Safe(st) && GoodMetric(metric)
    ensures Safe(x)
  {
    match op
    case Request(s, k) => StepIsSafe(c, st, Ask(s, k)); Step(c, st, Ask(s, k))
    case Registration(f, d) => StepIsSafe(c, st, Register(f, d)); Step(c, st, Register(f, d))
    case NeighborReport(src, ns) => ReportKeepsGood(st.net, metric, src, ns);
                                    st.(net := Report(st.net, metric, src, ns))
  }

  /** Registrations concern the table by flow only; a report starts a pass when it is noticed to change the digraph. */
  predicate StartsPass(metric: Metric, st: State, op: Operation) {
    match op
    case Request(_, _) => false
    case Registration(_, _) => st.kind.ByFlow?
    case NeighborReport(src, ns) => Noticed(st.net, metric, src, ns)
  }

  ghost function Operate(c: Site, metric: Metric, st: State, op: Operation): (x: State)
    requires Safe(st) && GoodMetric(metric)
    ensures Safe(x)
  {
    var y := Prepared(c, metric, st, op);
    OperationEndsSafe(c, y);
    if StartsPass(metric, st, op) then Pass(c, y)
    else if op.Request? && Lookup(st.table, op.source, op.key).None? then FlushFrom(c, y, 0)
    else y
  }

  lemma OperationEndsSafe(c: Site, y: State)
    requires Safe(y)
    ensures Safe(FlushFrom(c, y, 0)) && Safe(Pass(c, y))
  {
    FlushClears(c, y, 0);
    FlushClears(c, Walked(c, y), 0);
  }

  /** The operation reads a NULL header. */
  ghost predicate Crashes(c: Site, metric: Metric, st: State, op: Operation)
    requires Safe(st) && GoodMetric(metric)
  {
    var y := Prepared(c, metric, st, op);
    StartsPass(metric, st, op) && WalkFails(y.net, y.kind, c.self, y.table, 0)
  }

  // ---------------------------------------------------------------- lists of operations

  ghost function OperateAll(c: Site, metric: Metric, st: State, ops: seq<Operation>): (x: State)
    requires Safe(st) && GoodMetric(metric)
    ensures Safe(x)
    decreases |ops|
  {
    if ops == [] then st else OperateAll(c, metric, Operate(c, metric, st, ops[0]), ops[1..])
  }

  /** No operation of the list reads a NULL header. */
  ghost predicate RunsThrough(c: Site, metric: Metric, st: State, ops: seq<Operation>)
    requires Safe(st) && GoodMetric(metric)
    decreases |ops|
  {
    ops == [] || (!Crashes(c, metric, st, ops[0]) && RunsThrough(c, metric, Operate(c, metric, st, ops[0]), ops[1..]))
  }

  lemma {:induction false} OperateJoin(c: Site, metric: Metric, st: State, a: seq<Operation>, b: seq<Operation>)
    requires Safe(st) && GoodMetric(metric)
    ensures OperateAll(c, metric, st, a + b) == OperateAll(c, metric, OperateAll(c, metric, st, a), b)
    ensures RunsThrough(c, metric, st, a + b) <==>
              RunsThrough(c, metric, st, a) && RunsThrough(c, metric, OperateAll(c, metric, st, a), b)
    decreases |a|
  {
    hide Operate;
    hide Crashes;
    if a == [] {
      assert a + b == b;
    } else {
      assert (a + b)[1..] == a[1..] + b;
      OperateJoin(c, metric, Operate(c, metric, st, a[0]), a[1..], b);
    }
  }

  lemma OperateOne(c: Site, metric: Metric, st: State, op: Operation)
    requires Safe(st) && GoodMetric(metric)
    ensures OperateAll(c, metric, st, [op]) == Operate(c, metric, st, op)
    ensures RunsThrough(c, metric, st, [op]) <==> !Crashes(c, metric, st, op)
  {
    hide Operate;
    hide Crashes;
    assert [op][1..] == [];
  }

  // ---------------------------------------------------------------- operations are steps

  lemma OperationIsSteps(c: Site, metric: Metric, st: State, op: Operation) returns (events: seq<Event>)
    requires Safe(st) && GoodMetric(metric)
    ensures Run(c, st, events) == Operate(c, metric, st, op)
  {
    hide Step;
    hide FlushFrom;
    hide Pass;
    var y := Prepared(c, metric, st, op);
    var e := match op
             case Request(s, k) => Ask(s, k)
             case Registration(f, d) => Register(f, d)
             case NeighborReport(src, ns) => DigraphChanged(Report(st.net, metric, src, ns));
    assert y == Step(c, st, e) by {
      if op.NeighborReport? {
        ReportKeepsGood(st.net, metric, op.source, op.neighbors);
        DigraphChanges(c, st, y.net);
      }
    }
    var rest := [];
    if StartsPass(metric, st, op) {
      rest := PassIsSteps(c, y);
    } else if op.Request? && Lookup(st.table, op.source, op.key).None? {
      rest := FlushIsSteps(c, y, 0);
    }
    RunTwo(c, st, e, e);
    events := [e] + rest;
    RunJoin(c, st, [e], rest);
  }

  lemma DigraphChanges(c: Site, st: State, n: Net)
    requires GoodNet(st.net) && GoodNet(n)
    ensures Step(c, st, DigraphChanged(n)) == st.(net := n)
  {
  }

  /** What holds in every state of every run holds after every list of operations. */
  lemma {:induction false} OperationsAreSteps(c: Site, metric: Metric, st: State, ops: seq<Operation>)
    returns (events: seq<Event>)
    requires Safe(st) && GoodMetric(metric)
    ensures Run(c, st, events) == OperateAll(c, metric, st, ops)
    decreases |ops|
  {
    hide Operate;
    events := [];
    if ops != [] {
      var a := OperationIsSteps(c, metric, st, ops[0]);
      var b := OperationsAreSteps(c, metric, Operate(c, metric, st, ops[0]), ops[1..]);
      events := a + b;
      RunJoin(c, st, a, b);
    }
  }

  // ---------------------------------------------------------------- while nothing is linked

  lemma SameEdgesUnlinked(g: Graph, h: Graph)
    requires SameEdges(g, h) && Unlinked(g)
    ensures Unlinked(h)
  {
    assert forall v: Id :: Out(g, v) == Out(h, v);
  }

  /** A DROP entry as a request without route leaves it, pushed already. */
  predicate Rests(e: Entry, self: Id) {
    && e.action == Drop && e.nextHop == e.source && !e.changed
    && e.weight == ROUTE_MAX_WEIGHT && e.hops == ROUTE_MAX_HOPS && (e.source == self ==> e.online)
  }

  ghost predicate AllRest(t: Table, self: Id) {
    forall i :: 0 <= i < |t| ==> Rests(t[i], self)
  }

  lemma RestingServe(n: Net, kind: Kind, self: Id, t: Table, i: nat)
    requires GoodNet(n) && TableOk(kind, t) && Unlinked(n.out) && AllRest(t, self) && i < |t|
    ensures var (m, u) := Serve(n, kind, self, t, t[i].source, t[i].key);
            u == t && GoodNet(m) && Unlinked(m.out)
  {
    hide BestRoute;
    var s, k := t[i].source, t[i].key;
    SilentReachesNothing(n.out, s, Targets(kind, k));
    FreshRoute(n, s, Targets(kind, k));
    ServeKeepsTableOk(n, kind, self, t, s, k);
    FindAt(t, i);
    var m := BestRoute(n, s, Targets(kind, k), None).0;
    SameEdgesUnlinked(n.out, m.out);
  }

  lemma {:induction false} RestingWalk(n: Net, kind: Kind, self: Id, t: Table, i: nat)
    requires GoodNet(n) && TableOk(kind, t) && Unlinked(n.out) && AllRest(t, self)
    ensures var (m, u) := Walk(n, kind, self, t, i); u == t && Unlinked(m.out)
    decreases |t| - i
  {
    hide Serve;
    hide TableOk;
    hide GoodNet;
    if i < |t| {
      var (m, u) := Serve(n, kind, self, t, t[i].source, t[i].key);
      RestingServe(n, kind, self, t, i);
      RestingWalk(m, kind, self, t, i + 1);
    }
  }

  lemma {:induction false} NothingToFlush(c: Site, st: State, i: nat)
    requires Safe(st) && forall j :: 0 <= j < |st.table| ==> !st.table[j].changed
    ensures FlushFrom(c, st, i) == st
    decreases |st.table| - i
  {
    if i < |st.table| {
      NothingToFlush(c, st, i + 1);
    }
  }

  /** While nothing is linked a table of resting entries goes through a pass as it is. */
  lemma RestingPass(c: Site, st: State)
    requires Safe(st) && Unlinked(st.net.out) && AllRest(st.table, c.self)
    ensures var x := Pass(c, st);
            && x == st.(net := x.net) && Unlinked(x.net.out)
            && !WalkFails(st.net, st.kind, c.self, st.table, 0)
  {
    RestingWalk(st.net, st.kind, c.self, st.table, 0);
    NothingToFlush(c, Walked(c, st), 0);
    HeadedPassIsSafe(st.net, st.kind, c.self, st.table, 0);
  }

  /** With an empty table a pass does nothing. */
  lemma EmptyPass(c: Site, st: State)
    requires Safe(st) && st.table == []
    ensures Pass(c, st) == st && !WalkFails(st.net, st.kind, c.self, st.table, 0)
  {
    NothingToFlush(c, Walked(c, st), 0);
  }

  /** With an empty table a report changes the digraph only. */
  lemma ReportOnEmpty(c: Site, metric: Metric, st: State, op: Operation) returns (y: State)
    requires Safe(st) && GoodMetric(metric) && st.table == [] && op.NeighborReport?
    ensures y == Operate(c, metric, st, op) && !Crashes(c, metric, st, op)
    ensures y == st.(net := Report(st.net, metric, op.source, op.neighbors))
  {
    y := Prepared(c, metric, st, op);
    EmptyPass(c, y);
  }

  lemma RequestsNeverCrash(c: Site, metric: Metric, st: State, s: Id, k: Id)
    requires Safe(st) && GoodMetric(metric)
    ensures !Crashes(c, metric, st, Request(s, k))
  {
  }

  /** A request without entry while nothing is linked adds a resting DROP entry. */
  lemma RequestUnlinked(c: Site, metric: Metric, st: State, s: Id, k: Id)
    requires Safe(st) && GoodMetric(metric) && Unlinked(st.net.out) && AllRest(st.table, c.self)
    requires MayDrop(st.kind, k) && Lookup(st.table, s, k) == None
    ensures var x := Operate(c, metric, st, Request(s, k));
            && x.kind == st.kind && Unlinked(x.net.out) && AllRest(x.table, c.self)
            && |x.table| == |st.table| + 1 && x.table[..|st.table|] == st.table && Matches(x.table[|st.table|], s, k)
  {
    hide BestRoute;
    var y := Prepared(c, metric, st, Request(s, k));
    var e := NewEntry(c.self, s, k, s, Drop, ROUTE_MAX_WEIGHT, ROUTE_MAX_HOPS);
    SilentReachesNothing(st.net.out, s, Targets(st.kind, k));
    FreshRoute(st.net, s, Targets(st.kind, k));
    assert y.table == st.table + [e] && SameEdges(st.net.out, y.net.out);
    FlushClears(c, y, 0);
    var x := FlushFrom(c, y, 0);
    SameEdgesUnlinked(st.net.out, y.net.out);
    SameEdgesUnlinked(y.net.out, x.net.out);
    forall i | 0 <= i < |x.table|
      ensures Rests(x.table[i], c.self) && (i < |st.table| ==> x.table[i] == st.table[i])
    {
      assert x.table[i] == y.table[i].(changed := false);
      assert i < |st.table| ==> Rests(st.table[i], c.self);
    }
  }
}
