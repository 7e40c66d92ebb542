/**
  A table and a digraph with a stale queue on which the bound of one configuration is lost before the pass
  ends: a later iteration reroutes a vertex on the way.
 */
module LaterReroute {
  import opened Options
  import opened Graphs
  import opened ShortestPath
  import opened SearchInvariant
  import opened Routes
  import opened NeighborReports
  import opened FlowTables
  import opened LoopFreedom
  import opened RouteUpdates
  import opened TableSafety
  import opened UpdatePass
  import opened Hysteresis
  import opened PassBound

  const X: Id := 0
  const Y: Id := 1
  const Z: Id := 2
  const W: Id := 3
  const U: Id := 4
  const B: Id := 5

  function To(v: Id, w: nat): Edge {
    Edge(v, w, w, EdgeNew)
  }

  const XS: seq<Edge> := [To(Y, 10), To(W, 1), To(Z, 11)]

  /** X-Y 10, X-W 1, X-Z 11, W-Z 1, Z-Y 1, U-Y 4, U-X 1, B-X 1. */
  const NET: Net := Net(map[X := XS, Y := [], Z := [To(Y, 1)], W := [To(Z, 1)],
                            U := [To(Y, 4), To(X, 1)], B := [To(X, 1)]],
                        map[X := 255, Y := 255, Z := 255, W := 255, U := 255, B := 255])

  lemma NetIsGood()
    ensures GoodNet(NET)
  {
    forall v: Id ensures FineVertex(NET.out, v) && PositiveVertex(NET.out, v) {
    }
  }

  // ---------------------------------------------------------------- the search from B

  const COST: map<Id, int> := map[X := 1, Y := 11, W := 2, Z := 3]
  const ROOT: map<Id, Id> := map[X := B, Y := X, W := X, Z := W]
  const S1 := Search([B], map[X := 1], map[X := B], [X])
  const S2 := Search([B, X], map[X := 1, Y := 11, W := 2, Z := 12], map[X := B, Y := X, W := X, Z := X], [W, Y, Z])
  const S3 := Search([B, X, W], COST, ROOT, [Y, Z])
  const S4 := Search([B, X, W, Y], COST, ROOT, [Z])
  const S5 := Search([B, X, W, Y, Z], COST, ROOT, [])

  lemma Start()
    requires WellFormed(NET.out)
    ensures Started(NET.out, B) == S1
  {
    var s, e := Search([B], map[], map[], []), To(X, 1);
    assert Out(NET.out, B) == [e];
    assert Relax(s, B, e) == S1;
    assert Scan(s, B, [e]) == Scan(S1, B, []);
  }

  lemma FirstRelaxes()
    ensures var a := Relax(Settle(S1), X, To(Y, 10));
            && a == Search([B, X], map[X := 1, Y := 11], map[X := B, Y := X], [Y])
            && Relax(a, X, To(W, 1)) ==
               Search([B, X], map[X := 1, Y := 11, W := 2], map[X := B, Y := X, W := X], [W, Y])
  {
    assert map[X := 1][Y := 11] == map[X := 1, Y := 11];
    assert map[X := 1, Y := 11][W := 2] == map[X := 1, Y := 11, W := 2];
  }

  lemma LastRelax()
    ensures var b := Search([B, X], map[X := 1, Y := 11, W := 2], map[X := B, Y := X, W := X], [W, Y]);
            Relax(b, X, To(Z, 11)) == S2
  {
    assert Push([W, Y], S2.cost, Z) == [W] + Push([Y], S2.cost, Z);
  }

  lemma FirstPop()
    ensures Pop(NET.out, S1) == S2
  {
    hide Relax;
    var a := Search([B, X], map[X := 1, Y := 11], map[X := B, Y := X], [Y]);
    var b := Search([B, X], map[X := 1, Y := 11, W := 2], map[X := B, Y := X, W := X], [W, Y]);
    FirstRelaxes();
    LastRelax();
    assert XS[1..][0] == XS[1] && XS[1..][1..] == [XS[2]];
    assert Scan(Settle(S1), X, XS) == Scan(a, X, XS[1..]) == Scan(b, X, [XS[2]]) == Scan(S2, X, []);
  }

  lemma SecondPop()
    ensures Pop(NET.out, S2) == S3
  {
    var e := To(Z, 1);
    assert Out(NET.out, W) == [e];
    assert Relax(Settle(S2), W, e) == S3;
    assert Scan(Settle(S2), W, [e]) == Scan(S3, W, []);
  }

  lemma LastPops()
    ensures Pop(NET.out, S3) == S4 && Pop(NET.out, S4) == S5
  {
    var e := To(Y, 1);
    assert Out(NET.out, Y) == [] && Out(NET.out, Z) == [e];
    assert Settle(S4) == S5 && Relax(S5, Z, e) == S5;
    assert Scan(S5, Z, [e]) == Scan(S5, Z, []);
  }

  /** Y is settled at 11 although B-X-W-Z-Y weighs 4. */
  lemma SearchFromB()
    ensures GoodNet(NET) && Label(SearchFrom(NET.out, B), Y) == 11
  {
    hide Scan;
    hide Relax;
    NetIsGood();
    Start();
    FirstPop();
    SecondPop();
    LastPops();
    PopKeepsPaused(NET.out, S1);
    PopKeepsPaused(NET.out, S2);
    PopKeepsPaused(NET.out, S3);
    PopKeepsPaused(NET.out, S4);
    RunOnce(NET.out, S1);
    RunOnce(NET.out, S2);
    RunOnce(NET.out, S3);
    RunOnce(NET.out, S4);
    assert Run(NET.out, S5) == S5;
  }

  // ---------------------------------------------------------------- routes

  /** The distance to Y. */
  function Left(v: Id): int {
    if v == Z then 1 else if v == W then 2 else if v == X then 3 else if v == U || v == B then 4 else 0
  }

  lemma EdgesOf(u: Id, v: Id)
    ensures HasEdge(NET.out, u, v) ==> EdgeWeight(NET.out, u, v) >= Left(u) - Left(v)
    ensures HasEdge(NET.out, B, v) <==> v == X
    ensures HasEdge(NET.out, u, Z) ==> u == X || u == W
    ensures HasEdge(NET.out, u, W) ==> u == X
    ensures HasEdge(NET.out, u, Y) ==> u == X || u == Z || u == U
    ensures !HasEdge(NET.out, u, U) && !HasEdge(NET.out, u, B)
  {
  }

  /** No route to Y is lighter than the distance. */
  lemma {:induction false} RoutesWeigh(s: Id, r: Route, i: nat)
    requires IsRoute(NET.out, s, Y, r) && 0 < i < |r|
    ensures r[i].weight >= Left(r[i].id)
  {
    assert RouteHop(NET.out, r, i);
    EdgesOf(r[i].id, r[i - 1].id);
    if i > 1 {
      RoutesWeigh(s, r, i - 1);
    }
  }

  lemma EdgeWeights()
    ensures EdgeWeight(NET.out, X, Y) == 10 && EdgeWeight(NET.out, X, W) == 1 && EdgeWeight(NET.out, X, Z) == 11
    ensures EdgeWeight(NET.out, W, Z) == 1 && EdgeWeight(NET.out, Z, Y) == 1 && EdgeWeight(NET.out, B, X) == 1
    ensures EdgeWeight(NET.out, U, X) == 1 && HasEdge(NET.out, X, W) && HasEdge(NET.out, X, Y) && HasEdge(NET.out, U, X)
    ensures HasEdge(NET.out, W, Z) && HasEdge(NET.out, Z, Y) && HasEdge(NET.out, B, X) && HasEdge(NET.out, U, Y)
  {
    assert FindEdge(XS, W) == FindEdge(XS[1..], W) == Some(XS[1]);
    assert FindEdge(XS, Z) == FindEdge(XS[1..], Z) == FindEdge(XS[1..][1..], Z) == Some(XS[2]);
    var us := [To(Y, 4), To(X, 1)];
    assert Out(NET.out, U) == us && FindEdge(us, X) == FindEdge(us[1..], X) == Some(us[1]);
  }

  /** The only route of weight 11 from B to Y goes straight from X to Y. */
  lemma RouteFromB(r: Route)
    requires IsRoute(NET.out, B, Y, r) && r[|r| - 1].weight == 11
    ensures |r| == 3 && r[1].id == X && r[2].id == B && r[1].weight == 10 && r[2].weight == 11
  {
    hide IsRoute;
    EdgeWeights();
    var n := |r| - 1;
    StepBack(r, 1);
    if r[1].id == Z {
      StepBack(r, 2);
      StepBack(r, 3);
      if r[2].id == W {
        StepBack(r, 4);
      }
    } else {
      StepBack(r, 2);
    }
  }

  /** What comes before a route node, and its weight. */
  lemma StepBack(r: Route, i: nat)
    requires IsRoute(NET.out, B, Y, r) && i > 0
    ensures |r| >= 2 && r[0].id == Y && r[|r| - 1].id == B && (i < |r| ==> HasEdge(NET.out, r[i].id, r[i - 1].id))
    ensures i < |r| ==>
              r[i].weight == (if i == 1 then 0 else r[i - 1].weight) + EdgeWeight(NET.out, r[i].id, r[i - 1].id)
    ensures i < |r| ==> (r[i].id == B <==> i == |r| - 1)
    ensures i < |r| && r[i - 1].id == X ==> r[i].id == B || r[i].id == U
    ensures i < |r| && r[i - 1].id == Z ==> r[i].id == X || r[i].id == W
    ensures i < |r| && r[i - 1].id == W ==> r[i].id == X
    ensures i < |r| && r[i - 1].id == Y ==> r[i].id == X || r[i].id == Z || r[i].id == U
    ensures i < |r| ==> r[i].id != U
  {
    if i < |r| {
      assert RouteHop(NET.out, r, i);
      EdgesOf(r[i].id, r[i - 1].id);
      if i < |r| - 1 {
        assert RouteHop(NET.out, r, i + 1) && DifferentIds(r, i, |r| - 1);
        EdgesOf(r[i + 1].id, r[i].id);
      }
    }
  }

  // ---------------------------------------------------------------- the table

  function Via(s: Id, nextHop: Id, h: nat): Entry {
    Entry(s, Y, nextHop, Forward, 0, h, RouteStatic, false, true, 0)
  }

  /** U over X, W and Z to Y; B has no route yet. */
  const TABLE: Table := [Via(U, X, 4), Via(X, W, 3), Via(W, Z, 2), Via(Z, Y, 1),
                         Entry(B, Y, B, Drop, ROUTE_MAX_WEIGHT, ROUTE_MAX_HOPS, RouteStatic, false, true, 0)]

  /** The table but for the weights of its entries. */
  ghost predicate Shaped(t: Table) {
    |t| == 5 && forall i :: 0 <= i < 5 ==> t[i] == TABLE[i].(weight := t[i].weight)
  }

  lemma Lookups(t: Table)
    requires Shaped(t)
    ensures Find(t, U, Y) == 0 && Find(t, X, Y) == 1 && Find(t, W, Y) == 2 && Find(t, Z, Y) == 3 && Find(t, B, Y) == 4
    ensures Find(t, Y, Y) < 0 && forall v: Id, k: Id :: k != Y ==> Find(t, v, k) < 0
  {
    assert Matches(t[0], U, Y) && Matches(t[1], X, Y) && Matches(t[2], W, Y) && Matches(t[3], Z, Y);
    assert Matches(t[4], B, Y);
  }

  lemma TableIsOk()
    ensures TableOk(ByAddress, TABLE)
  {
    Lookups(TABLE);
    forall i, j | SameKey(TABLE, i, j) ensures i == j {
    }
    assert Leads(TABLE, Y, Y, Y, 0) && Leads(TABLE, Y, Y, Z, 1) && Leads(TABLE, Y, Y, W, 2);
    assert Leads(TABLE, Y, Y, X, 3) && Leads(TABLE, Y, Y, U, 4);
    forall k: Id ensures KeyOk(ByAddress, TABLE, k) {
      forall v: Id | Hop1(TABLE, k, v).Some? ensures Ends(TABLE, k, k, v) {
        assert k == Y && (v == U || v == X || v == W || v == Z);
      }
    }
  }

  function Chain(i: nat): (p: seq<Id>)
    requires i < 4
    ensures |p| == 5 - i
  {
    [U, X, W, Z, Y][i..]
  }

  lemma RebuiltChain(t: Table)
    requires Shaped(t)
    ensures forall i :: 0 <= i < 4 ==> Rebuild(t, t[i]).Some? && Ids(Rebuild(t, t[i]).value) == Chain(i)
  {
    Lookups(t);
    var r3 := [RouteNode(Z, t[3].weight, 1), RouteNode(Y, 0, 0)];
    var r2 := [RouteNode(W, t[2].weight, 2)] + r3;
    var r1 := [RouteNode(X, t[1].weight, 3)] + r2;
    assert Rebuild(t, t[3]) == Some(r3);
    assert Rebuild(t, t[2]) == Some(r2);
    assert Rebuild(t, t[1]) == Some(r1);
    assert Rebuild(t, t[0]) == Some([RouteNode(U, t[0].weight, 4)] + r1);
  }

  lemma ChainWeighs(i: nat)
    requires i < 4
    ensures IsPath(NET.out, Chain(i)) && PathWeight(NET.out, Chain(i)) == 4 - i == Left(Chain(i)[0])
    decreases 4 - i
  {
    EdgeWeights();
    var p := Chain(i);
    if i == 3 {
      assert p == [Z] + [Y];
      PathSnoc(NET.out, [Z], Y);
    } else {
      ChainWeighs(i + 1);
      assert p == [p[0]] + Chain(i + 1);
      PathCons(NET.out, p[0], Chain(i + 1));
    }
  }

  // ---------------------------------------------------------------- the pass

  lemma SameEdgesTwice(g: Graph, h: Graph, k: Graph)
    requires SameEdges(g, h) && SameEdges(h, k)
    ensures SameEdges(g, k)
  {
    assert forall v :: Out(g, v) == Out(h, v) == Out(k, v);
  }

  lemma YIsReachable(s: Id)
    requires s == U || s == X || s == W || s == Z || s == B
    ensures Reachable(NET.out, s, Y)
  {
    ChainWeighs(0);
    ChainWeighs(1);
    ChainWeighs(2);
    ChainWeighs(3);
    EdgeWeights();
    PathCons(NET.out, B, Chain(1));
    var p := if s == B then [B] + Chain(1) else if s == U then Chain(0) else if s == X then Chain(1)
             else if s == W then Chain(2) else Chain(3);
    assert PathFromTo(NET.out, p, s, Y);
  }

  lemma FreshFrom(n: Net, s: Id) returns (m: Net, r: Route)
    requires GoodNet(n) && SameEdges(NET.out, n.out) && (s == U || s == X || s == W || s == Z || s == B)
    ensures BestRoute(n, s, [Y], None) == (m, Some(r)) && GoodNet(m) && SameEdges(NET.out, m.out)
    ensures IsRoute(NET.out, s, Y, r) && r[|r| - 1].weight == Total(n, s, Y)
  {
    hide BestRoute;
    hide SameEdges;
    hide IsRoute;
    hide Reachable;
    YIsReachable(s);
    SameEdgesSameReach(NET.out, n.out, s, Y);
    m, r := SingleRoute(n, s, Y);
    SameEdgesSameRoute(NET.out, n.out, s, Y, r);
    SameEdgesTwice(NET.out, n.out, m.out);
  }

  /** A current route that exists and is not clearly dearer than the fresh one is kept. */
  lemma EntryKept(n: Net, self: Id, t: Table, i: nat, m: Net, r: Route)
    requires GoodNet(n) && i < |t| && Find(t, t[i].source, t[i].key) == i && !RouteLost(m.out, t, t[i])
    requires BestRoute(n, t[i].source, [t[i].key], None) == (m, Some(r)) && r != [] && r[|r| - 1].id == t[i].source
    requires !ClearlyBetter(r[|r| - 1].weight, PathWeight(m.out, Ids(Rebuild(t, t[i]).value)))
    ensures Serve(n, ByAddress, self, t, t[i].source, t[i].key) ==
            (m, t[i := t[i].(weight := PathWeight(m.out, Ids(Rebuild(t, t[i]).value)))])
  {
    hide BestRoute;
    hide Install;
    hide Rebuild;
    hide IsPath;
    hide PathWeight;
    hide ClearlyBetter;
  }

  lemma InstallThree(t: Table, self: Id, k: Id, r: Route)
    requires |r| == 3
    ensures Install(t, self, k, r) ==
            Put(Put(t, self, r[1].id, k, r[0].id, Forward, r[1].weight, r[1].hops),
                self, r[2].id, k, r[1].id, Forward, r[2].weight, r[2].hops)
  {
    hide Put;
    var a := Put(t, self, r[1].id, k, r[0].id, Forward, r[1].weight, r[1].hops);
    var b := Put(a, self, r[2].id, k, r[1].id, Forward, r[2].weight, r[2].hops);
    assert r[1..][1..] == [r[2]] && r[1..][0] == r[1] && r[1..][1] == r[2];
    assert Install(a, self, k, r[1..]) == Install(b, self, k, [r[2]]) == b;
  }

  /** Without a current route the fresh one is installed. */
  lemma EntryInstalled(n: Net, self: Id, t: Table, i: nat, m: Net, r: Route)
    requires GoodNet(n) && i < |t| && Find(t, t[i].source, t[i].key) == i && t[i].action == Drop
    requires BestRoute(n, t[i].source, [t[i].key], None) == (m, Some(r)) && r != [] && r[|r| - 1].id == t[i].source
    ensures Serve(n, ByAddress, self, t, t[i].source, t[i].key) == (m, Install(t, self, t[i].key, r))
  {
    hide BestRoute;
    hide Install;
    hide IsPath;
    assert Rebuild(t, t[i]) == None;
  }

  lemma KeptEntry(t: Table, i: nat)
    requires Shaped(t) && i < 4
    ensures |t| == 5 && t[i].key == Y && Find(t, t[i].source, Y) == i && Left(t[i].source) == 4 - i
    ensures t[i].source == U || t[i].source == X || t[i].source == W || t[i].source == Z
    ensures Rebuild(t, t[i]).Some? && Ids(Rebuild(t, t[i]).value) == Chain(i)
  {
    Lookups(t);
    RebuiltChain(t);
  }

  lemma ReweighedShape(t: Table, i: nat, w: int)
    requires Shaped(t) && i < 5
    ensures Shaped(t[i := t[i].(weight := w)])
  {
  }

  /** The first four entries keep their routes. */
  lemma Kept(n: Net, self: Id, t: Table, i: nat) returns (m: Net, u: Table)
    requires GoodNet(n) && SameEdges(NET.out, n.out) && Shaped(t) && i < 4
    ensures |t| == 5 && (m, u) == Serve(n, ByAddress, self, t, t[i].source, Y)
    ensures GoodNet(m) && SameEdges(NET.out, m.out) && Shaped(u)
  {
    hide BestRoute;
    hide Serve;
    hide SameEdges;
    hide Chain;
    hide Rebuild;
    hide Shaped;
    hide GoodNet;
    hide IsRoute;
    KeptEntry(t, i);
    ChainWeighs(i);
    var r;
    m, r := FreshFrom(n, t[i].source);
    SameEdgesSamePaths(NET.out, m.out, Chain(i));
    NotBetter(t[i].source, r);
    EntryKept(n, self, t, i, m, r);
    ReweighedShape(t, i, 4 - i);
    u := t[i := t[i].(weight := 4 - i)];
  }

  lemma NotBetter(s: Id, r: Route)
    requires IsRoute(NET.out, s, Y, r)
    ensures |r| >= 2 && r[|r| - 1].id == s && !ClearlyBetter(r[|r| - 1].weight, Left(s))
  {
    RoutesWeigh(s, r, |r| - 1);
  }

  /** The last one reroutes X. */
  lemma Rerouted(n: Net, self: Id, t: Table) returns (m: Net, u: Table)
    requires GoodNet(n) && SameEdges(NET.out, n.out) && Shaped(t)
    ensures (m, u) == Serve(n, ByAddress, self, t, B, Y) && GoodNet(m) && SameEdges(NET.out, m.out)
    ensures |u| == 5 && u[0] == t[0] && Hop1(u, Y, U) == Some(X) && Hop1(u, Y, X) == Some(Y)
  {
    hide BestRoute;
    hide Serve;
    hide SameEdges;
    Lookups(t);
    var r;
    m, r := FreshFrom(n, B);
    TotalFromB(n);
    RouteFromB(r);
    EntryInstalled(n, self, t, 4, m, r);
    InstallThree(t, self, Y, r);
    u := PutBoth(self, t, r);
  }

  lemma TotalFromB(n: Net)
    requires GoodNet(n) && SameEdges(NET.out, n.out)
    ensures Total(n, B, Y) == 11
  {
    NetIsGood();
    TotalSameEdges(NET, n, B, Y);
    SearchFromB();
  }

  lemma PutBoth(self: Id, t: Table, r: Route) returns (u: Table)
    requires Shaped(t) && |r| == 3 && r[0].id == Y && r[1].id == X && r[2].id == B
    ensures u == Put(Put(t, self, r[1].id, Y, r[0].id, Forward, r[1].weight, r[1].hops),
                     self, r[2].id, Y, r[1].id, Forward, r[2].weight, r[2].hops)
    ensures |u| == 5 && u[0] == t[0] && Hop1(u, Y, U) == Some(X) && Hop1(u, Y, X) == Some(Y)
  {
    Lookups(t);
    var a := Put(t, self, X, Y, Y, Forward, r[1].weight, r[1].hops);
    assert Find(a, B, Y) == 4;
    u := Put(a, self, B, Y, X, Forward, r[2].weight, r[2].hops);
    PutLookup(t, self, X, Y, Y, Forward, r[1].weight, r[1].hops, U, Y);
    PutLookup(t, self, X, Y, Y, Forward, r[1].weight, r[1].hops, X, Y);
    PutLookup(a, self, B, Y, X, Forward, r[2].weight, r[2].hops, U, Y);
    PutLookup(a, self, B, Y, X, Forward, r[2].weight, r[2].hops, X, Y);
  }

  lemma WalkReroutes(self: Id) returns (m: Net, u: Table)
    ensures GoodNet(NET) && TableOk(ByAddress, TABLE) && (m, u) == Walk(NET, ByAddress, self, TABLE, 0)
    ensures SameEdges(NET.out, m.out) && |u| == 5 && u[0].source == U
    ensures Hop1(u, Y, U) == Some(X) && Hop1(u, Y, X) == Some(Y)
  {
    hide Serve;
    hide TableOk;
    NetIsGood();
    TableIsOk();
    assert Shaped(TABLE);
    var m1, t1 := Kept(NET, self, TABLE, 0);
    ServeKeepsTableOk(NET, ByAddress, self, TABLE, U, Y);
    var m2, t2 := Kept(m1, self, t1, 1);
    ServeKeepsTableOk(m1, ByAddress, self, t1, X, Y);
    var m3, t3 := Kept(m2, self, t2, 2);
    ServeKeepsTableOk(m2, ByAddress, self, t2, W, Y);
    var m4, t4 := Kept(m3, self, t3, 3);
    ServeKeepsTableOk(m3, ByAddress, self, t3, Z, Y);
    m, u := Rerouted(m4, self, t4);
    ServeKeepsTableOk(m4, ByAddress, self, t4, B, Y);
    assert Walk(m4, ByAddress, self, t4, 4) == Walk(m, ByAddress, self, u, 5) == (m, u);
    assert Walk(m3, ByAddress, self, t3, 3) == Walk(m4, ByAddress, self, t4, 4);
    assert Walk(m2, ByAddress, self, t2, 2) == Walk(m3, ByAddress, self, t3, 3);
    assert Walk(m1, ByAddress, self, t1, 1) == Walk(m2, ByAddress, self, t2, 2);
  }

  lemma TotalFromU()
    ensures GoodNet(NET) && Total(NET, U, Y) <= 4
  {
    NetIsGood();
    var f := SearchFrom(NET.out, U);
    assert Out(NET.out, U)[0] == To(Y, 4) && f.settled[..1] == [U];
    assert EdgeDone(NET.out, f, 0, 0);
  }

  /**
    After the walk of a pass the next hops from U cost 11, although the route found for U when its entry was
    kept weighs at most 4: a later iteration has installed the route from B, for which the search from B
    took the dear edge from X to Y.
   */
  lemma BoundIsLost(self: Id) returns (m: Net, u: Table)
    ensures GoodNet(NET) && TableOk(ByAddress, TABLE) && (m, u) == Walk(NET, ByAddress, self, TABLE, 0)
    ensures u != [] && u[0].source == U && FollowsTable(u, Y, [U, X, Y]) && PathFromTo(m.out, [U, X, Y], U, Y)
    ensures var r := BestRoute(NET, U, [Y], None).1;
            && r.Some? && r.value != [] && r.value[|r.value| - 1].weight <= 4
            && PathWeight(m.out, [U, X, Y]) as real > (1.0 + SENSIBILITY) * r.value[|r.value| - 1].weight as real
  {
    hide BestRoute;
    hide Walk;
    hide TableOk;
    hide SameEdges;
    hide Total;
    m, u := WalkReroutes(self);
    TotalFromU();
    SameEdgesSelf(NET.out);
    var m1, r := FreshFrom(NET, U);
    LongWay();
    SameEdgesSamePaths(NET.out, m.out, [U, X, Y]);
    FollowsLongWay(u);
  }

  lemma SameEdgesSelf(g: Graph)
    ensures SameEdges(g, g)
  {
  }

  lemma FollowsLongWay(u: Table)
    requires Hop1(u, Y, U) == Some(X) && Hop1(u, Y, X) == Some(Y)
    ensures FollowsTable(u, Y, [U, X, Y])
  {
    forall i ensures TableHop(u, Y, [U, X, Y], i) {
    }
  }

  lemma LongWay()
    ensures IsPath(NET.out, [U, X, Y]) && PathWeight(NET.out, [U, X, Y]) == 11
  {
    EdgeWeights();
    PathSnoc(NET.out, [U], X);
    assert [U] + [X] == [U, X];
    PathSnoc(NET.out, [U, X], Y);
    assert [U, X] + [Y] == [U, X, Y];
  }
}
