/**
  Digraphs whose edges join two vertices only: what the controller does on them.
 */
module PairDigraphs {
  import opened Options
  import opened Graphs
  import opened Routes
  import opened NeighborReports
  import opened FlowTables
  import opened LoopFreedom
  import opened RouteUpdates
  import opened TableSafety

  ghost predicate OnlyBetween(g: Graph, a: Id, b: Id) {
    forall u: Id, v: Id :: HasEdge(g, u, v) ==> (u == a && v == b) || (u == b && v == a)
  }

  /** While nothing is linked, a report of `a` that names `b` links the two both ways. */
  lemma PairEdge(n: Net, metric: Metric, a: Id, b: Id, etx: nat, u: Id, v: Id)
    requires GoodNet(n) && GoodMetric(metric) && Unlinked(n.out) && a != b
    ensures HasEdge(Report(n, metric, a, [Neighbor(b, etx)]).out, u, v) <==> (u == a && v == b) || (u == b && v == a)
  {
    hide Report;
    var ns := [Neighbor(b, etx)];
    assert ns[0].id == b && Out(n.out, u) == [];
    if u == a {
      ReportIsExact(n, metric, a, ns, v, b);
    } else {
      ReportIsExact(n, metric, a, ns, v, u);
    }
  }

  lemma PairByReport(n: Net, metric: Metric, a: Id, b: Id, etx: nat) returns (m: Net)
    requires GoodNet(n) && GoodMetric(metric) && Unlinked(n.out) && a != b
    ensures m == Report(n, metric, a, [Neighbor(b, etx)]) && GoodNet(m)
    ensures OnlyBetween(m.out, a, b) && HasEdge(m.out, a, b) && HasEdge(m.out, b, a)
  {
    m := Report(n, metric, a, [Neighbor(b, etx)]);
    ReportKeepsGood(n, metric, a, [Neighbor(b, etx)]);
    forall u: Id, v: Id ensures HasEdge(m.out, u, v) <==> (u == a && v == b) || (u == b && v == a) {
      PairEdge(n, metric, a, b, etx, u, v);
    }
  }

  lemma RouteBetween(g: Graph, a: Id, b: Id, s: Id, d: Id, r: Route)
    requires OnlyBetween(g, a, b) && IsRoute(g, s, d, r)
    ensures (s == a && d == b) || (s == b && d == a)
    ensures |r| == 2 && r[0].id == d && r[1].id == s
  {
    assert RouteHop(g, r, 1) && HasEdge(g, r[1].id, r[0].id);
    if |r| > 2 {
      assert RouteHop(g, r, 2) && HasEdge(g, r[2].id, r[1].id);
      HeadStandsAlone(r);
      assert false;
    }
  }

  /** The best route from `s` is the one hop to `o`, whatever other targets there are. */
  lemma BestBetween(n: Net, s: Id, o: Id, ts: seq<Id>) returns (m: Net, r: Route)
    requires GoodNet(n) && OnlyBetween(n.out, s, o) && HasEdge(n.out, s, o) && s != o && o in ts
    ensures GoodNet(m) && SameEdges(n.out, m.out) && BestRoute(n, s, ts, None) == (m, Some(r))
    ensures |r| == 2 && r[0].id == o && r[1].id == s
  {
    hide BestRoute;
    FreshRoute(n, s, ts);
    m := BestRoute(n, s, ts, None).0;
    assert Hop(n.out, [s, o], 0) && PathFromTo(n.out, [s, o], s, o);
    assert Feasible(n.out, s, ts);
    r := BestRoute(n, s, ts, None).1.value;
    var d :| d in ts && IsRoute(m.out, s, d, r);
    SameEdgesSameRoute(n.out, m.out, s, d, r);
    RouteBetween(n.out, s, o, s, d, r);
  }

  lemma SameEdgesSamePair(g: Graph, h: Graph, a: Id, b: Id)
    requires SameEdges(g, h) && OnlyBetween(g, a, b)
    ensures OnlyBetween(h, a, b) && forall u: Id, v: Id :: HasEdge(g, u, v) == HasEdge(h, u, v)
  {
    forall u: Id, v: Id ensures HasEdge(g, u, v) == HasEdge(h, u, v) {
      assert Out(g, u) == Out(h, u);
    }
  }

  /** Serving `s` while it forwards nothing: its entry now leads to `o`. */
  lemma ServeBetween(n: Net, kind: Kind, self: Id, t: Table, s: Id, o: Id, k: Id) returns (m: Net, w: int, h: nat)
    requires GoodNet(n) && OnlyBetween(n.out, s, o) && HasEdge(n.out, s, o) && s != o
    requires o in Targets(kind, k) && Hop1(t, k, s) == None
    ensures GoodNet(m) && SameEdges(n.out, m.out)
    ensures Serve(n, kind, self, t, s, k) == (m, Put(t, self, s, k, o, Forward, w, h))
  {
    hide BestRoute;
    var r;
    m, r := BestBetween(n, s, o, Targets(kind, k));
    w, h := r[1].weight, r[1].hops;
    assert Install(t, self, k, r) == Put(t, self, s, k, o, Forward, w, h);
  }
}
