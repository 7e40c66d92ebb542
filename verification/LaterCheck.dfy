/**
  Why the checks of a pass have to be judged on the table as the pass changes it: no entry fails its check on
  the table that an empty report finds, and the pass reads a NULL header all the same.
 */
module LaterCheck {
  import opened Options
  import opened Graphs
  import opened Routes
  import opened NeighborReports
  import opened FlowTables
  import opened LoopFreedom
  import opened RouteUpdates
  import opened TableSafety
  import opened HeaderReads

  const B: Id := 1
  const C: Id := 2
  const U: Id := 3
  const S: Id := 4
  const D: Id := 5
  const W: Id := 6

  function To(v: Id): Edge {
    Edge(v, 1, 1, EdgeNew)
  }

  const NET: Net := Net(map[B := [To(D)], C := [To(B)], U := [To(S), To(W)], S := [To(B)], D := [], W := [To(D)]],
                        map[B := 255, C := 255, U := 255, S := 255, D := 255, W := 255])

  function EntryTo(s: Id, nextHop: Id, h: nat): Entry {
    Entry(s, D, nextHop, Forward, 1, h, RouteStatic, false, true, 0)
  }

  /** The route of `B` over `C` is gone; the hop counts of `S` and `B` do not fall. */
  const TABLE: Table := [EntryTo(B, C, 2), EntryTo(U, S, 3), EntryTo(S, B, 2), EntryTo(C, D, 1)]

  lemma NetIsGood()
    ensures GoodNet(NET) && Headed(NET.out, TABLE)
  {
    forall x: Id ensures FineVertex(NET.out, x) && PositiveVertex(NET.out, x) {
    }
  }

  lemma Lookups()
    ensures Find(TABLE, B, D) == 0 && Find(TABLE, U, D) == 1 && Find(TABLE, S, D) == 2 && Find(TABLE, C, D) == 3
    ensures Find(TABLE, D, D) < 0 && forall v: Id, k: Id :: k != D ==> Find(TABLE, v, k) < 0
  {
    assert Matches(TABLE[0], B, D) && Matches(TABLE[1], U, D) && Matches(TABLE[2], S, D) && Matches(TABLE[3], C, D);
  }

  lemma TableIsOk()
    ensures TableOk(ByAddress, TABLE)
  {
    Lookups();
    forall i, j | SameKey(TABLE, i, j) ensures i == j {
    }
    assert Leads(TABLE, D, D, D, 0) && Leads(TABLE, D, D, C, 1) && Leads(TABLE, D, D, B, 2);
    assert Leads(TABLE, D, D, S, 3) && Leads(TABLE, D, D, U, 4);
    forall k: Id ensures KeyOk(ByAddress, TABLE, k) {
      forall v: Id | Hop1(TABLE, k, v).Some? ensures Ends(TABLE, k, k, v) {
        assert k == D && (v == B || v == U || v == S || v == C);
      }
    }
  }

  lemma RebuiltAtFirst()
    ensures Rebuild(TABLE, TABLE[1]) == None && Rebuild(TABLE, TABLE[2]) == None
    ensures Rebuild(TABLE, TABLE[0]).Some? && Ids(Rebuild(TABLE, TABLE[0]).value) == [B, C, D]
    ensures Rebuild(TABLE, TABLE[3]).Some? && Ids(Rebuild(TABLE, TABLE[3]).value) == [C, D]
  {
    Lookups();
    var rest := [RouteNode(C, 1, 1), RouteNode(D, 0, 0)];
    assert Rebuild(TABLE, TABLE[3]) == Some(rest);
    assert Rebuild(TABLE, TABLE[0]) == Some([RouteNode(B, 1, 2)] + rest);
    assert Rebuild(TABLE, TABLE[2]) == None;
  }

  /** No check fails on the table as the report finds it. */
  lemma NoneFailsAtFirst(metric: Metric, i: nat)
    requires GoodMetric(metric) && i < |TABLE|
    ensures var m := Report(NET, metric, S, []);
            GoodNet(m) && !ServeFails(m, ByAddress, TABLE, TABLE[i].source, D)
  {
    hide Report;
    hide ServeFails;
    hide Rebuild;
    NetIsGood();
    TableIsOk();
    RebuiltAtFirst();
    IterationFailsAfterReport(NET, metric, S, [], ByAddress, TABLE, i);
  }

  /** The digraph after the empty report of `S`. */
  ghost predicate Silenced(g: Graph) {
    && Silent(g, S) && HasEdge(g, U, S) && HasEdge(g, U, W) && HasEdge(g, W, D) && HasEdge(g, B, D)
    && forall v: Id :: HasEdge(g, B, v) ==> v == D
  }

  lemma ReportSilences(metric: Metric)
    requires GoodMetric(metric)
    ensures var m := Report(NET, metric, S, []); GoodNet(m) && Silenced(m.out)
  {
    hide Report;
    NetIsGood();
    var m := Report(NET, metric, S, []);
    ReportKeepsGood(NET, metric, S, []);
    SilentAfterReport(NET, metric, S, [], S);
    ReportIsExact(NET, metric, S, [], S, U);
    ReportIsExact(NET, metric, S, [], S, W);
    ReportIsExact(NET, metric, S, [], S, B);
  }

  lemma SameEdgesSilenced(g: Graph, h: Graph)
    requires SameEdges(g, h) && Silenced(g)
    ensures Silenced(h)
  {
    assert Out(g, S) == Out(h, S) && Out(g, U) == Out(h, U) && Out(g, W) == Out(h, W) && Out(g, B) == Out(h, B);
    forall v: Id | HasEdge(h, B, v) ensures v == D {
      assert HasEdge(g, B, v);
    }
  }

  /** Serving `B` reinstalls its entry with one hop. */
  lemma ServeB(n: Net, self: Id) returns (m: Net, u: Table)
    requires GoodNet(n) && Silenced(n.out)
    ensures Serve(n, ByAddress, self, TABLE, B, D) == (m, u) && GoodNet(m) && SameEdges(n.out, m.out)
    ensures |u| == 4 && u[1..] == TABLE[1..]
    ensures u[0].source == B && u[0].key == D && u[0].nextHop == D && u[0].action == Forward && u[0].hops == 1
  {
    hide BestRoute;
    Lookups();
    RebuiltAtFirst();
    FreshRoute(n, B, [D]);
    m, u := Serve(n, ByAddress, self, TABLE, B, D).0, Serve(n, ByAddress, self, TABLE, B, D).1;
    assert Hop(n.out, [B, D], 0) && PathFromTo(n.out, [B, D], B, D);
    assert D in [D] && Feasible(n.out, B, [D]);
    var r := BestRoute(n, B, [D], None).1.value;
    var d :| d in [D] && IsRoute(m.out, B, d, r);
    SameEdgesSameRoute(n.out, m.out, B, D, r);
    assert RouteHop(n.out, r, |r| - 1) && DifferentIds(r, 0, |r| - 2);
    assert |r| == 2;
    SameEdgesSilenced(n.out, m.out);
    assert !Hop(m.out, [B, C, D], 0);
    assert Install(TABLE, self, D, r) == Put(TABLE, self, B, D, D, Forward, r[1].weight, r[1].hops);
  }

  /** Then the current route of `U` leads through `S`. */
  lemma ServeUFails(m: Net, u: Table)
    requires GoodNet(m) && Silenced(m.out) && Unique(u) && |u| == 4 && u[1..] == TABLE[1..]
    requires u[0].source == B && u[0].key == D && u[0].nextHop == D && u[0].action == Forward && u[0].hops == 1
    ensures ServeFails(m, ByAddress, u, U, D)
  {
    hide ServeFails;
    assert u[1] == u[1..][0] && u[2] == u[1..][1] && u[3] == u[1..][2];
    FindAt(u, 0);
    FindAt(u, 2);
    assert Lookup(u, D, D) == None;
    var last := [RouteNode(B, u[0].weight, 1), RouteNode(D, 0, 0)];
    assert Rebuild(u, u[0]) == Some(last);
    assert Rebuild(u, u[2]) == Some([RouteNode(S, 1, 2)] + last);
    var r := [RouteNode(U, 1, 3)] + ([RouteNode(S, 1, 2)] + last);
    assert Rebuild(u, u[1]) == Some(r);
    assert r[0].id == U && r[1].id == S;
    assert Hop(m.out, Ids(r), 0) && ReadsNullAt(m.out, Ids(r), 1);
    var p := [U, W, D];
    assert Hop(m.out, p, 0) && Hop(m.out, p, 1) && PathFromTo(m.out, p, U, D);
    assert D in [D] && Feasible(m.out, U, [D]);
    ServeFailsExactly(m, ByAddress, u, 1);
  }

  /** The second iteration of the pass reads a NULL header. */
  lemma SecondIterationFails(metric: Metric, self: Id)
    requires GoodMetric(metric)
    ensures var m := Report(NET, metric, S, []);
            GoodNet(m) && TableOk(ByAddress, TABLE) && WalkFails(m, ByAddress, self, TABLE, 0)
  {
    hide Report;
    hide Serve;
    hide ServeFails;
    hide TableOk;
    var n := Report(NET, metric, S, []);
    TableIsOk();
    ReportSilences(metric);
    var m, u := ServeB(n, self);
    ServeKeepsTableOk(n, ByAddress, self, TABLE, B, D);
    SameEdgesSilenced(n.out, m.out);
    UniqueWhenOk(u);
    ServeUFails(m, u);
    assert u[1] == u[1..][0];
    assert WalkFails(m, ByAddress, self, u, 1);
  }

  lemma UniqueWhenOk(t: Table)
    requires TableOk(ByAddress, t)
    ensures Unique(t)
  {
  }
}
