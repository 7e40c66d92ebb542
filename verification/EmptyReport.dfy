/**
  Requests and neighbour reports after which an empty report makes the pass read a NULL header edge.
 */
module EmptyReport {
  import opened Options
  import opened Graphs
  import opened Routes
  import opened NeighborReports
  import opened ReportNotice
  import opened FlowTables
  import opened RouteUpdates
  import opened TableSafety
  import opened SetupPushes
  import opened RunSafety
  import opened UpdatePass
  import opened HeaderReads
  import opened Operations
  import opened Energies

  /** Four different vertices: `u` reaches `d` over `s` and, later, over `w`. */
  datatype Corners = Corners(u: Id, s: Id, d: Id, w: Id)

  predicate Different(q: Corners) {
    q.u != q.s && q.u != q.d && q.u != q.w && q.s != q.d && q.s != q.w && q.d != q.w
  }

  // ---------------------------------------------------------------- the digraphs

  /** `h` names `a` and `b`, both with metric `x`. */
  function Star(a: Id, b: Id, x: nat): seq<Neighbor> {
    [Neighbor(a, x), Neighbor(b, x)]
  }

  predicate Between(h: Id, a: Id, b: Id, p: Id, r: Id) {
    (p == h && (r == a || r == b)) || (r == h && (p == a || p == b))
  }

  ghost predicate FullEnergy(n: Net) {
    forall v: Id :: EnergyOf(n, v) == MAX_BATTERY_LEVEL
  }

  ghost predicate NotLinked(g: Graph, h: Id, v: Id) {
    !HasEdge(g, h, v) && !HasEdge(g, v, h)
  }

  lemma StarNames(a: Id, b: Id, x: nat, v: Id)
    requires a != b
    ensures var ns := Star(a, b, x);
            && (Reported(ns, v) <==> v == a || v == b)
            && (Reported(ns, v) ==> FirstEtx(ns, v) == LastEtx(ns, v) == x)
  {
    var ns := Star(a, b, x);
    var init := ns[..1];
    assert init == [Neighbor(a, x)] && init[..0] == [];
    assert ns[0].id == a && ns[1].id == b && init[0].id == a;
    assert Reported(init, v) <==> v == a;
  }

  /** What a report of a vertex without links does: links of one weight to the two it names. */
  lemma StarEdge(n: Net, metric: Metric, h: Id, a: Id, b: Id, x: nat, p: Id, r: Id)
    requires GoodNet(n) && GoodMetric(metric) && FullEnergy(n) && h != a && h != b && a != b
    requires forall v: Id :: NotLinked(n.out, h, v)
    ensures var g := Report(n, metric, h, Star(a, b, x)).out;
            if Between(h, a, b, p, r) then HasEdge(g, p, r) && EdgeWeight(g, p, r) == metric(MAX_BATTERY_LEVEL, x)
            else FindEdge(Out(g, p), r) == FindEdge(Out(n.out, p), r)
  {
    hide Report;
    hide Star;
    var ns := Star(a, b, x);
    StarNames(a, b, x, p);
    StarNames(a, b, x, r);
    assert EnergyOf(n, h) == EnergyOf(n, p) == EnergyOf(n, r) == MAX_BATTERY_LEVEL;
    assert NotLinked(n.out, h, r) && NotLinked(n.out, h, p);
    if p == h {
      ReportIsExact(n, metric, h, ns, r, a);
    } else {
      ReportIsExact(n, metric, h, ns, r, p);
      assert FineVertex(n.out, p);
      AddEdgeFinds(Out(n.out, p), h, x, metric(MAX_BATTERY_LEVEL, x), r);
    }
  }

  /** u - s - d, and with `both` also u - w - d, all links both ways and of weight `wt`. */
  predicate Joined(q: Corners, both: bool, p: Id, r: Id) {
    Between(q.s, q.d, q.u, p, r) || (both && Between(q.w, q.d, q.u, p, r))
  }

  ghost predicate Links(q: Corners, both: bool, wt: int, g: Graph, p: Id, r: Id) {
    (HasEdge(g, p, r) <==> Joined(q, both, p, r)) && (HasEdge(g, p, r) ==> EdgeWeight(g, p, r) == wt)
  }

  ghost predicate LinkedAs(q: Corners, both: bool, wt: int, g: Graph) {
    forall p: Id, r: Id {:trigger Links(q, both, wt, g, p, r)} :: Links(q, both, wt, g, p, r)
  }

  lemma FirstLinks(n: Net, metric: Metric, q: Corners, x: nat)
    requires Different(q) && GoodNet(n) && GoodMetric(metric) && FullEnergy(n) && Unlinked(n.out)
    ensures LinkedAs(q, false, metric(MAX_BATTERY_LEVEL, x), Report(n, metric, q.s, Star(q.d, q.u, x)).out)
  {
    hide Report;
    forall p: Id, r: Id
      ensures Links(q, false, metric(MAX_BATTERY_LEVEL, x), Report(n, metric, q.s, Star(q.d, q.u, x)).out, p, r)
    {
      assert Out(n.out, p) == [] && forall v: Id :: Out(n.out, v) == [] ==> NotLinked(n.out, q.s, v);
      StarEdge(n, metric, q.s, q.d, q.u, x, p, r);
    }
  }

  lemma SecondLinks(n: Net, metric: Metric, q: Corners, x: nat)
    requires Different(q) && GoodNet(n) && GoodMetric(metric) && FullEnergy(n)
    requires LinkedAs(q, false, metric(MAX_BATTERY_LEVEL, x), n.out)
    ensures LinkedAs(q, true, metric(MAX_BATTERY_LEVEL, x), Report(n, metric, q.w, Star(q.d, q.u, x)).out)
  {
    hide Report;
    var wt, g := metric(MAX_BATTERY_LEVEL, x), Report(n, metric, q.w, Star(q.d, q.u, x)).out;
    forall v: Id ensures NotLinked(n.out, q.w, v) {
      assert Links(q, false, wt, n.out, q.w, v) && Links(q, false, wt, n.out, v, q.w);
    }
    forall p: Id, r: Id ensures Links(q, true, wt, g, p, r) {
      assert Links(q, false, wt, n.out, p, r);
      StarEdge(n, metric, q.w, q.d, q.u, x, p, r);
    }
  }

  lemma SameEdgesLinked(q: Corners, both: bool, wt: int, g: Graph, h: Graph)
    requires SameEdges(g, h) && LinkedAs(q, both, wt, g)
    ensures LinkedAs(q, both, wt, h)
  {
    forall p: Id, r: Id ensures Links(q, both, wt, h, p, r) {
      assert Links(q, both, wt, g, p, r) && Out(g, p) == Out(h, p);
    }
  }

  // ---------------------------------------------------------------- routes on them

  /** Routes weigh at least one link, and two when they have two hops or more. */
  lemma {:induction false} RouteWeighs(q: Corners, both: bool, wt: int, g: Graph, s: Id, d: Id, r: Route, i: nat)
    requires IsRoute(g, s, d, r) && LinkedAs(q, both, wt, g) && wt > 0 && 0 < i < |r|
    ensures r[i].weight >= (if i == 1 then wt else 2 * wt)
  {
    assert RouteHop(g, r, i) && Links(q, both, wt, g, r[i].id, r[i - 1].id);
    if i > 1 {
      RouteWeighs(q, both, wt, g, s, d, r, i - 1);
    }
  }

  /** Without `w` there is only one route from `u` to `d`. */
  lemma RouteOverS(q: Corners, wt: int, g: Graph, r: Route)
    requires Different(q) && LinkedAs(q, false, wt, g) && IsRoute(g, q.u, q.d, r)
    ensures |r| == 3 && r[0].id == q.d && r[1].id == q.s && r[2].id == q.u
  {
    var n := |r| - 1;
    assert RouteHop(g, r, n) && Links(q, false, wt, g, r[n].id, r[n - 1].id);
    assert RouteHop(g, r, 1) && Links(q, false, wt, g, r[1].id, r[0].id);
    assert r[n - 1].id == q.s && r[1].id == q.s;
    assert DifferentIds(r, 1, n - 1);
  }

  /** `u` towards `s` first, then `s` towards `d`. */
  ghost predicate RoutedOverS(q: Corners, t: Table) {
    && |t| == 2
    && t[0].source == q.u && t[0].key == q.d && t[0].nextHop == q.s && t[0].action == Forward && t[0].hops == 2
    && t[1].source == q.s && t[1].key == q.d && t[1].nextHop == q.d && t[1].action == Forward && t[1].hops == 1
  }

  /** The current routes of the two entries. */
  lemma RebuiltOverS(q: Corners, t: Table)
    requires Different(q) && RoutedOverS(q, t)
    ensures Rebuild(t, t[0]).Some? && Ids(Rebuild(t, t[0]).value) == [q.u, q.s, q.d]
    ensures Rebuild(t, t[1]).Some? && Ids(Rebuild(t, t[1]).value) == [q.s, q.d]
    ensures Find(t, q.u, q.d) == 0 && Find(t, q.s, q.d) == 1
  {
    assert Lookup(t, q.s, q.d) == Some(t[1]) && Lookup(t, q.d, q.d) == None;
    var rest := [RouteNode(q.s, t[1].weight, 1), RouteNode(q.d, 0, 0)];
    assert Rebuild(t, t[1]) == Some(rest);
    assert Rebuild(t, t[0]) == Some([RouteNode(q.u, t[0].weight, 2)] + rest);
  }

  // ---------------------------------------------------------------- the first pass: the route is installed

  lemma InstalledOverS(self: Id, t: Table, q: Corners, r: Route)
    requires Different(q) && |t| == 1 && Matches(t[0], q.u, q.d) && t[0].action == Drop
    requires |r| == 3 && r[0].id == q.d && r[1].id == q.s && r[2].id == q.u && r[1].hops == 1 && r[2].hops == 2
    ensures RoutedOverS(q, Install(t, self, q.d, r)) && Install(t, self, q.d, r)[1].changed
  {
    var a := Put(t, self, q.s, q.d, q.d, Forward, r[1].weight, r[1].hops);
    assert Find(t, q.s, q.d) < 0 && a[0] == t[0];
    assert Find(a, q.u, q.d) == 0;
    assert r[1..][1..] == [r[2]] && r[1..][0] == r[1] && r[1..][1] == r[2];
    assert Install(t, self, q.d, r) == Install(a, self, q.d, r[1..]);
    assert Install(a, self, q.d, r[1..]) == Put(a, self, q.u, q.d, q.s, Forward, r[2].weight, r[2].hops);
  }

  lemma ServedOverS(n: Net, q: Corners, wt: int, self: Id, t: Table)
    requires Different(q) && GoodNet(n) && LinkedAs(q, false, wt, n.out)
    requires |t| == 1 && Matches(t[0], q.u, q.d) && t[0].action == Drop
    ensures var x := Serve(n, ByAddress, self, t, q.u, q.d).1; RoutedOverS(q, x) && x[1].changed
  {
    hide BestRoute;
    hide Install;
    var g, p := n.out, [q.u, q.s, q.d];
    assert Links(q, false, wt, g, q.u, q.s) && Links(q, false, wt, g, q.s, q.d);
    assert Hop(g, p, 0) && Hop(g, p, 1) && PathFromTo(g, p, q.u, q.d);
    assert q.d in [q.d] && Feasible(g, q.u, [q.d]);
    FreshRoute(n, q.u, [q.d]);
    var (m, o) := BestRoute(n, q.u, [q.d], None);
    var r := o.value;
    var d :| d in [q.d] && IsRoute(m.out, q.u, d, r);
    SameEdgesSameRoute(g, m.out, q.u, q.d, r);
    RouteOverS(q, wt, g, r);
    assert Find(t, q.u, q.d) == 0;
    InstalledOverS(self, t, q, r);
  }

  lemma FirstPass(c: Site, q: Corners, wt: int, st: State)
    requires Different(q) && Safe(st) && st.kind == ByAddress && LinkedAs(q, false, wt, st.net.out)
    requires |st.table| == 1 && Matches(st.table[0], q.u, q.d) && st.table[0].action == Drop && NoMarks(st.table)
    ensures var x := Pass(c, st);
            x.kind == ByAddress && LinkedAs(q, false, wt, x.net.out) && RoutedOverS(q, x.table) && NoMarks(x.table)
    ensures !WalkFails(st.net, ByAddress, c.self, st.table, 0)
  {
    hide Walk;
    hide FlushFrom;
    hide LinkedAs;
    hide TableOk;
    hide GoodNet;
    hide InSync;
    var w := Walked(c, st);
    FirstWalk(st.net, q, wt, c.self, st.table);
    FlushClears(c, w, 0);
    SameEdgesLinked(q, false, wt, st.net.out, w.net.out);
    SameEdgesLinked(q, false, wt, w.net.out, Pass(c, st).net.out);
    HeadedPassIsSafe(st.net, ByAddress, c.self, st.table, 0);
  }

  lemma FirstWalk(n: Net, q: Corners, wt: int, self: Id, t: Table)
    requires Different(q) && GoodNet(n) && TableOk(ByAddress, t) && LinkedAs(q, false, wt, n.out)
    requires |t| == 1 && Matches(t[0], q.u, q.d) && t[0].action == Drop && NoMarks(t)
    ensures RoutedOverS(q, Walk(n, ByAddress, self, t, 0).1)
  {
    hide Serve;
    hide LinkedAs;
    hide TableOk;
    hide GoodNet;
    var (m, u) := Serve(n, ByAddress, self, t, q.u, q.d);
    ServedOverS(n, q, wt, self, t);
    ServeKeepsTableOk(n, ByAddress, self, t, q.u, q.d);
    assert Walk(m, ByAddress, self, u, 1) == Walk(m, ByAddress, self, u, 2) == (m, u);
  }

  // ---------------------------------------------------------------- the second pass: the route is kept

  /** Serving either entry leaves it as it is but for its weight, since no route is clearly better. */
  lemma KeptOverS(n: Net, q: Corners, wt: int, self: Id, t: Table, i: nat)
    requires Different(q) && GoodNet(n) && LinkedAs(q, true, wt, n.out) && wt > 0 && RoutedOverS(q, t) && i < 2
    ensures var x := Serve(n, ByAddress, self, t, t[i].source, t[i].key).1;
            RoutedOverS(q, x) && forall j :: 0 <= j < 2 ==> x[j].changed == t[j].changed
  {
    hide BestRoute;
    hide Configure;
    hide LinkedAs;
    hide RoutedOverS;
    SourcesOverS(q, t, i);
    var s, g := t[i].source, n.out;
    FreshRoute(n, s, [q.d]);
    var (m, o) := BestRoute(n, s, [q.d], None);
    FeasibleOverS(g, q, wt, s);
    var r := o.value;
    var d :| d in [q.d] && IsRoute(m.out, s, d, r);
    SameEdgesLinked(q, true, wt, g, m.out);
    RouteAtLeast(m.out, q, wt, s, r);
    ConfigureKeeps(m.out, q, wt, self, t, i, r);
  }

  lemma SourcesOverS(q: Corners, t: Table, i: nat)
    requires Different(q) && RoutedOverS(q, t) && i < 2
    ensures |t| == 2 && t[i].source == (if i == 0 then q.u else q.s) && t[i].key == q.d
  {
  }

  lemma ConfigureKeeps(g: Graph, q: Corners, wt: int, self: Id, t: Table, i: nat, r: Route)
    requires Different(q) && LinkedAs(q, true, wt, g) && wt > 0 && RoutedOverS(q, t) && i < 2
    requires r != [] && r[|r| - 1].id == t[i].source && r[|r| - 1].weight >= (if i == 0 then 2 * wt else wt)
    ensures var x := Configure(g, t, self, q.d, r);
            RoutedOverS(q, x) && forall j :: 0 <= j < 2 ==> x[j].changed == t[j].changed
  {
    hide Install;
    hide LinkedAs;
    RebuiltOverS(q, t);
    CurrentWeights(g, q, wt);
    var w := if i == 0 then 2 * wt else wt;
    assert !ClearlyBetter(r[|r| - 1].weight, w);
    assert Configure(g, t, self, q.d, r) == t[i := t[i].(weight := w)];
  }

  lemma FeasibleOverS(g: Graph, q: Corners, wt: int, s: Id)
    requires Different(q) && LinkedAs(q, true, wt, g) && (s == q.u || s == q.s)
    ensures Feasible(g, s, [q.d])
  {
    CurrentWeights(g, q, wt);
    assert q.d in [q.d];
    assert PathFromTo(g, [q.u, q.s, q.d], q.u, q.d) && PathFromTo(g, [q.s, q.d], q.s, q.d);
  }

  lemma CurrentWeights(g: Graph, q: Corners, wt: int)
    requires Different(q) && LinkedAs(q, true, wt, g)
    ensures IsPath(g, [q.s, q.d]) && PathWeight(g, [q.s, q.d]) == wt
    ensures IsPath(g, [q.u, q.s, q.d]) && PathWeight(g, [q.u, q.s, q.d]) == 2 * wt
  {
    assert Links(q, true, wt, g, q.u, q.s) && Links(q, true, wt, g, q.s, q.d);
    var p, p2 := [q.s, q.d], [q.u, q.s, q.d];
    assert Hop(g, p, 0) && Hop(g, p2, 0) && Hop(g, p2, 1);
    assert p[..1] == [q.s] && p2[..2] == [q.u, q.s] && p2[..2][..1] == [q.u];
    assert PathWeight(g, [q.u, q.s]) == wt;
  }

  lemma RouteAtLeast(g: Graph, q: Corners, wt: int, s: Id, r: Route)
    requires Different(q) && LinkedAs(q, true, wt, g) && wt > 0 && IsRoute(g, s, q.d, r) && (s == q.u || s == q.s)
    ensures r[|r| - 1].weight >= (if s == q.u then 2 * wt else wt)
  {
    RouteWeighs(q, true, wt, g, s, q.d, r, |r| - 1);
    assert RouteHop(g, r, 1) && Links(q, true, wt, g, r[1].id, r[0].id);
  }

  lemma SecondPass(c: Site, q: Corners, wt: int, st: State)
    requires Different(q) && Safe(st) && st.kind == ByAddress && LinkedAs(q, true, wt, st.net.out) && wt > 0
    requires RoutedOverS(q, st.table) && NoMarks(st.table)
    ensures var x := Pass(c, st);
            x.kind == ByAddress && LinkedAs(q, true, wt, x.net.out) && RoutedOverS(q, x.table) && NoMarks(x.table)
    ensures !WalkFails(st.net, ByAddress, c.self, st.table, 0)
  {
    hide Walk;
    hide LinkedAs;
    hide TableOk;
    hide GoodNet;
    hide InSync;
    var w := Walked(c, st);
    SecondWalk(st.net, q, wt, c.self, st.table);
    NothingToFlush(c, w, 0);
    SameEdgesLinked(q, true, wt, st.net.out, w.net.out);
    HeadedOverS(st.net.out, q, true, wt, st.table);
    HeadedPassIsSafe(st.net, ByAddress, c.self, st.table, 0);
  }

  lemma SecondWalk(n: Net, q: Corners, wt: int, self: Id, t: Table)
    requires Different(q) && GoodNet(n) && TableOk(ByAddress, t) && LinkedAs(q, true, wt, n.out) && wt > 0
    requires RoutedOverS(q, t) && NoMarks(t)
    ensures var x := Walk(n, ByAddress, self, t, 0).1; RoutedOverS(q, x) && NoMarks(x)
  {
    hide Serve;
    hide LinkedAs;
    hide TableOk;
    hide GoodNet;
    var (m, u) := Serve(n, ByAddress, self, t, q.u, q.d);
    KeptOverS(n, q, wt, self, t, 0);
    ServeKeepsTableOk(n, ByAddress, self, t, q.u, q.d);
    SameEdgesLinked(q, true, wt, n.out, m.out);
    var (m2, v) := Serve(m, ByAddress, self, u, q.s, q.d);
    KeptOverS(m, q, wt, self, u, 1);
    ServeKeepsTableOk(m, ByAddress, self, u, q.s, q.d);
    assert Walk(m, ByAddress, self, u, 1) == Walk(m2, ByAddress, self, v, 2) == (m2, v);
  }

  lemma HeadedOverS(g: Graph, q: Corners, both: bool, wt: int, t: Table)
    requires Different(q) && RoutedOverS(q, t) && LinkedAs(q, both, wt, g)
    ensures Headed(g, t) && !ForwardsNothing(t, q.s)
  {
    assert Links(q, both, wt, g, q.u, q.s) && Links(q, both, wt, g, q.s, q.d);
  }

  // ---------------------------------------------------------------- the empty report

  lemma FailsOverS(n: Net, metric: Metric, q: Corners, wt: int, self: Id, t: Table)
    requires Different(q) && GoodNet(n) && GoodMetric(metric) && LinkedAs(q, true, wt, n.out)
    requires TableOk(ByAddress, t) && RoutedOverS(q, t) && !t[0].changed
    ensures var m := Report(n, metric, q.s, []);
            GoodNet(m) && MeetsOnTheWay(m, ByAddress, t, 0, q.s) && WalkFails(m, ByAddress, self, t, 0)
  {
    hide Report;
    hide Serve;
    hide LinkedAs;
    var m := Report(n, metric, q.s, []);
    ReportKeepsGood(n, metric, q.s, []);
    HeadedOverS(n.out, q, true, wt, t);
    StillLinked(n, metric, q, wt);
    var p := [q.u, q.w, q.d];
    assert Hop(m.out, p, 0) && Hop(m.out, p, 1) && PathFromTo(m.out, p, q.u, q.d);
    assert q.d in [q.d] && Feasible(m.out, q.u, [q.d]);
    RebuiltOverS(q, t);
    assert Hop(m.out, [q.u, q.s, q.d], 0) && ComesTo(m.out, [q.u, q.s, q.d], q.s, 1);
    IterationFailsAfterReport(n, metric, q.s, [], ByAddress, t, 0);
  }

  lemma StillLinked(n: Net, metric: Metric, q: Corners, wt: int)
    requires Different(q) && GoodNet(n) && GoodMetric(metric) && LinkedAs(q, true, wt, n.out)
    ensures var g := Report(n, metric, q.s, []).out;
            HasEdge(g, q.u, q.s) && HasEdge(g, q.u, q.w) && HasEdge(g, q.w, q.d)
  {
    hide Report;
    ReportIsExact(n, metric, q.s, [], q.d, q.u);
    ReportIsExact(n, metric, q.s, [], q.d, q.w);
    assert Links(q, true, wt, n.out, q.u, q.s);
    assert Links(q, true, wt, n.out, q.u, q.w) && Links(q, true, wt, n.out, q.w, q.d);
  }

  // ---------------------------------------------------------------- all operations

  const START: State := State(Net(map[], map[]), ByAddress, [], [])

  /** `u` asks while nothing is linked; `s` and then `w` report their links to `u` and `d`. */
  function Prelude(q: Corners, x: nat): seq<Operation> {
    [Request(q.u, q.d)] + ([NeighborReport(q.s, Star(q.d, q.u, x))] + [NeighborReport(q.w, Star(q.d, q.u, x))])
  }

  lemma SameEnergiesFull(n: Net, m: Net)
    requires SameEnergies(n, m) && FullEnergy(n)
    ensures FullEnergy(m)
  {
  }

  lemma AfterRequest(c: Site, metric: Metric, q: Corners) returns (y: State)
    requires Different(q) && GoodMetric(metric) && Safe(START)
    ensures y == Operate(c, metric, START, Request(q.u, q.d)) && !Crashes(c, metric, START, Request(q.u, q.d))
    ensures y.kind == ByAddress && Unlinked(y.net.out) && FullEnergy(y.net) && NoMarks(y.table)
    ensures |y.table| == 1 && Matches(y.table[0], q.u, q.d) && y.table[0].action == Drop
  {
    hide Operate;
    y := Operate(c, metric, START, Request(q.u, q.d));
    RequestUnlinked(c, metric, START, q.u, q.d);
    OperateSameEnergies(c, metric, START, Request(q.u, q.d));
    SameEnergiesFull(START.net, y.net);
  }

  lemma AfterFirstReport(c: Site, metric: Metric, q: Corners, x: nat, y: State) returns (z: State)
    requires Different(q) && GoodMetric(metric) && Safe(y) && y.kind == ByAddress
    requires Unlinked(y.net.out) && FullEnergy(y.net) && NoMarks(y.table)
    requires |y.table| == 1 && Matches(y.table[0], q.u, q.d) && y.table[0].action == Drop
    ensures var op := NeighborReport(q.s, Star(q.d, q.u, x));
            z == Operate(c, metric, y, op) && !Crashes(c, metric, y, op)
    ensures z.kind == ByAddress && LinkedAs(q, false, metric(MAX_BATTERY_LEVEL, x), z.net.out)
    ensures FullEnergy(z.net) && RoutedOverS(q, z.table) && NoMarks(z.table)
  {
    hide Report;
    hide Pass;
    hide WalkFails;
    hide LinkedAs;
    hide FullEnergy;
    hide Noticed;
    var op := NeighborReport(q.s, Star(q.d, q.u, x));
    NewLinkIsNoticed(y.net, metric, q.s, Star(q.d, q.u, x), 0);
    FirstLinks(y.net, metric, q, x);
    FirstPass(c, q, metric(MAX_BATTERY_LEVEL, x), Prepared(c, metric, y, op));
    z := Operate(c, metric, y, op);
    OperateSameEnergies(c, metric, y, op);
    SameEnergiesFull(y.net, z.net);
  }

  lemma AfterSecondReport(c: Site, metric: Metric, q: Corners, x: nat, y: State) returns (z: State)
    requires Different(q) && GoodMetric(metric) && Safe(y) && y.kind == ByAddress
    requires LinkedAs(q, false, metric(MAX_BATTERY_LEVEL, x), y.net.out)
    requires FullEnergy(y.net) && RoutedOverS(q, y.table) && NoMarks(y.table)
    ensures var op := NeighborReport(q.w, Star(q.d, q.u, x));
            z == Operate(c, metric, y, op) && !Crashes(c, metric, y, op)
    ensures z.kind == ByAddress && LinkedAs(q, true, metric(MAX_BATTERY_LEVEL, x), z.net.out)
    ensures RoutedOverS(q, z.table) && NoMarks(z.table)
  {
    hide Report;
    hide Pass;
    hide WalkFails;
    hide LinkedAs;
    hide FullEnergy;
    hide Noticed;
    var op := NeighborReport(q.w, Star(q.d, q.u, x));
    SecondLinks(y.net, metric, q, x);
    SecondPass(c, q, metric(MAX_BATTERY_LEVEL, x), Prepared(c, metric, y, op));
    z := Operate(c, metric, y, op);
  }

  /**
    From the empty controller on, three operations read no NULL header and leave an out-edge at every
    forwarding vertex; then an empty report of `s` makes the pass read one.
   */
  lemma EmptyReportFails(c: Site, metric: Metric, q: Corners, x: nat) returns (st: State)
    requires Different(q) && GoodMetric(metric)
    ensures Safe(START) && RunsThrough(c, metric, START, Prelude(q, x))
    ensures st == OperateAll(c, metric, START, Prelude(q, x)) && Headed(st.net.out, st.table)
    ensures Crashes(c, metric, st, NeighborReport(q.s, []))
  {
    hide Operate;
    hide Crashes;
    hide LinkedAs;
    hide FullEnergy;
    hide RoutedOverS;
    hide NoMarks;
    hide Star;
    InitialIsSafe(START);
    var o1, o2, o3 := Request(q.u, q.d), NeighborReport(q.s, Star(q.d, q.u, x)), NeighborReport(q.w, Star(q.d, q.u, x));
    var y := AfterRequest(c, metric, q);
    var z := AfterFirstReport(c, metric, q, x, y);
    st := AfterSecondReport(c, metric, q, x, z);
    OperateJoin(c, metric, START, [o1], [o2] + [o3]);
    OperateJoin(c, metric, y, [o2], [o3]);
    OperateOne(c, metric, START, o1);
    OperateOne(c, metric, y, o2);
    OperateOne(c, metric, z, o3);
    LastReportCrashes(c, metric, q, metric(MAX_BATTERY_LEVEL, x), st);
  }

  lemma LastReportCrashes(c: Site, metric: Metric, q: Corners, wt: int, st: State)
    requires Different(q) && GoodMetric(metric) && Safe(st) && st.kind == ByAddress
    requires LinkedAs(q, true, wt, st.net.out) && RoutedOverS(q, st.table) && NoMarks(st.table)
    ensures Crashes(c, metric, st, NeighborReport(q.s, [])) && Headed(st.net.out, st.table)
  {
    hide Report;
    hide WalkFails;
    hide LinkedAs;
    hide Noticed;
    HeadedOverS(st.net.out, q, true, wt, st.table);
    FailsOverS(st.net, metric, q, wt, c.self, st.table);
    assert HasHeader(st.net.out, st.table[1]);
    EmptyIsNoticed(st.net, metric, q.s);
  }
}
