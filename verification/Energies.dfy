/**
  No request, registration or neighbour report changes the energy of a vertex.
 */
module Energies {
  import opened Options
  import opened Graphs
  import opened Routes
  import opened NeighborReports
  import opened FlowTables
  import opened RouteUpdates
  import opened TableSafety
  import opened SetupPushes
  import opened UpdatePass
  import opened Operations

  lemma WithVertexSameEnergies(n: Net, v: Id)
    requires GoodNet(n)
    ensures SameEnergies(n, WithVertex(n, v))
  {
  }

  lemma OneTargetSameEnergies(n: Net, s: Id, d: Id, best: Option<Route>)
    requires GoodNet(n) && (best.Some? ==> best.value != [])
    ensures SameEnergies(n, OneTarget(n, s, d, best).0)
  {
    WithVertexKeepsGood(n, s);
    WithVertexSameEnergies(n, s);
    WithVertexSameEnergies(WithVertex(n, s), d);
    SameEnergiesChain(n, WithVertex(n, s), WithVertex(WithVertex(n, s), d));
  }

  lemma {:induction false} BestRouteSameEnergies(n: Net, s: Id, ts: seq<Id>, best: Option<Route>)
    requires GoodNet(n) && (best.Some? ==> best.value != [])
    ensures SameEnergies(n, BestRoute(n, s, ts, best).0)
    decreases |ts|
  {
    hide OneTarget;
    if ts != [] {
      var (m, r) := OneTarget(n, s, ts[0], best);
      OneTargetSameEnergies(n, s, ts[0], best);
      BestRouteSameEnergies(m, s, ts[1..], r);
      SameEnergiesChain(n, m, BestRoute(n, s, ts, best).0);
    }
  }

  lemma ServeSameEnergies(n: Net, kind: Kind, self: Id, t: Table, s: Id, k: Id)
    requires GoodNet(n)
    ensures SameEnergies(n, Serve(n, kind, self, t, s, k).0)
  {
    hide BestRoute;
    BestRouteSameEnergies(n, s, Targets(kind, k), None);
  }

  lemma {:induction false} WalkSameEnergies(n: Net, kind: Kind, self: Id, t: Table, i: nat)
    requires GoodNet(n) && TableOk(kind, t)
    ensures SameEnergies(n, Walk(n, kind, self, t, i).0)
    decreases Waiting(t, i), |t| - i
  {
    hide Serve;
    hide SameEnergies;
    if i >= |t| {
      assert SameEnergies(n, n) by {
        SameEnergiesSelf(n);
      }
    } else if t[i].changed {
      MarkedIsSkipped(t, i);
      WalkSameEnergies(n, kind, self, t, i + 1);
    } else {
      var (m, u) := Serve(n, kind, self, t, t[i].source, t[i].key);
      ServeKeepsTableOk(n, kind, self, t, t[i].source, t[i].key);
      ServeExtends(n, kind, self, t, t[i].source, t[i].key);
      WaitingShrinks(t, u, i);
      ServeSameEnergies(n, kind, self, t, t[i].source, t[i].key);
      WalkSameEnergies(m, kind, self, u, i + 1);
      SameEnergiesChain(n, m, Walk(m, kind, self, u, i + 1).0);
    }
  }

  lemma SameEnergiesSelf(n: Net)
    ensures SameEnergies(n, n)
  {
  }

  lemma PushSameEnergies(c: Site, n: Net, ps: seq<Push>, m: Setup)
    requires GoodNet(n)
    ensures SameEnergies(n, PushSetup(c, n, ps, m).0)
  {
    hide OneTarget;
    if m.source != c.self {
      OneTargetSameEnergies(n, c.self, m.source, None);
    }
  }

  lemma {:induction false} FlushSameEnergies(c: Site, st: State, i: nat)
    requires Safe(st)
    ensures SameEnergies(st.net, FlushFrom(c, st, i).net)
    decreases |st.table| - i
  {
    hide PushSetup;
    if i < |st.table| {
      var a := FlushEntry(c, st, i);
      FlushEntryKeepsSafe(c, st, i);
      PushSameEnergies(c, st.net, st.pushes, SetupOf(st.table[i]));
      FlushSameEnergies(c, a, i + 1);
      SameEnergiesChain(st.net, a.net, FlushFrom(c, a, i + 1).net);
    }
  }

  lemma PreparedSameEnergies(c: Site, metric: Metric, st: State, op: Operation)
    requires Safe(st) && GoodMetric(metric)
    ensures SameEnergies(st.net, Prepared(c, metric, st, op).net)
  {
    hide Serve;
    hide PushSetup;
    hide Report;
    match op
    case Request(s, k) =>
      ServeSameEnergies(st.net, st.kind, c.self, st.table, s, k);
      if Lookup(st.table, s, k).Some? {
        PushSameEnergies(c, st.net, st.pushes, SetupOf(Lookup(st.table, s, k).value));
      }
    case Registration(f, d) => SameEnergiesSelf(st.net);
    case NeighborReport(src, ns) => ReportKeepsGood(st.net, metric, src, ns);
  }

  /** No operation changes the energy of a vertex. */
  lemma OperateSameEnergies(c: Site, metric: Metric, st: State, op: Operation)
    requires Safe(st) && GoodMetric(metric)
    ensures SameEnergies(st.net, Operate(c, metric, st, op).net)
  {
    hide Walk;
    hide FlushFrom;
    hide Prepared;
    hide SameEnergies;
    var y := Prepared(c, metric, st, op);
    PreparedSameEnergies(c, metric, st, op);
    FlushSameEnergies(c, y, 0);
    SameEnergiesChain(st.net, y.net, FlushFrom(c, y, 0).net);
    var w := Walked(c, y);
    WalkSameEnergies(y.net, y.kind, c.self, y.table, 0);
    FlushSameEnergies(c, w, 0);
    SameEnergiesChain(st.net, y.net, w.net);
    SameEnergiesChain(st.net, w.net, FlushFrom(c, w, 0).net);
  }
}
