/**
  Route requests and table updates of controller-server/sdn-process-packets-controller.c as functions on
  the digraph and the flow table.
 */
module RouteUpdates {
  import opened Options
  import opened Graphs
  import opened ShortestPath
  import opened SearchInvariant
  import opened Routes
  import opened NeighborReports
  import opened FlowTables
  import opened LoopFreedom

  // ---------------------------------------------------------------- rebuilding the current route

  /**
    get_current_route_from_*: follows the next hops from entry `e`, source first, and gives up as soon as
    the hop counts stop falling.  It terminates because they fall.
   */
  function Rebuild(t: Table, e: Entry): (r: Option<Route>)
    decreases e.hops
  {
    if e.action != Forward then None
    else
      var node := RouteNode(e.source, e.weight, e.hops);
      var next := Lookup(t, e.nextHop, e.key);
      if next.Some? && e.hops <= next.value.hops then None
      else if next.None? || next.value.action != Forward then Some([node, RouteNode(e.nextHop, 0, 0)])
      else
        var rest := Rebuild(t, next.value);
        if rest.None? then None else Some([node] + rest.value)
  }

  function Ids(r: Route): (p: seq<Id>)
    ensures |p| == |r|
  {
    seq(|r|, i requires 0 <= i < |r| => r[i].id)
  }

  /** What the cache keeps true of every entry. */
  ghost predicate EntriesOk(t: Table) {
    && Unique(t)
    && forall i :: 0 <= i < |t| ==>
      && t[i].action != Receive
      && t[i].hops <= ROUTE_MAX_HOPS
      && (t[i].action == Drop ==> t[i].hops == ROUTE_MAX_HOPS)
  }

  /**
    A rebuilt route follows the table and stops at a vertex without any entry: a DROP entry has the
    largest hop count, so a chain that meets one is discarded.
   */
  lemma {:induction false} RebuildFollowsTable(t: Table, e: Entry)
    requires EntriesOk(t) && e in t && Rebuild(t, e).Some?
    ensures var r := Rebuild(t, e).value;
            && |r| >= 2 && r[0].id == e.source
            && FollowsTable(t, e.key, Ids(r))
            && Lookup(t, r[|r| - 1].id, e.key) == None
    decreases e.hops
  {
    var r, k := Rebuild(t, e).value, e.key;
    EntryLookup(t, e);
    var next := Lookup(t, e.nextHop, k);
    if next.None? {
      assert forall i :: TableHop(t, k, Ids(r), i);
    } else {
      RebuildFollowsTable(t, next.value);
      var rest := Rebuild(t, next.value).value;
      forall i ensures TableHop(t, k, Ids(r), i) {
        assert TableHop(t, k, Ids(rest), i - 1);
      }
    }
  }

  lemma EntryLookup(t: Table, e: Entry)
    requires Unique(t) && e in t
    ensures Lookup(t, e.source, e.key) == Some(e)
  {
    var i :| 0 <= i < |t| && t[i] == e;
    FindAt(t, i);
  }

  // ---------------------------------------------------------------- configuring a route

  /** SDN_ROUTE_SENSIBILITY of controller-server/controller-pc/controller-pc.pro. */
  const SENSIBILITY: real := 0.5

  predicate ClearlyBetter(found: int, current: int) {
    found as real < current as real / (1.0 + SENSIBILITY)
  }

  /** The current route of the entry is gone from the table or from the digraph. */
  ghost predicate RouteLost(g: Graph, t: Table, e: Entry) {
    var r := Rebuild(t, e);
    r.None? || !IsPath(g, Ids(r.value))
  }

  /** configure_flow_*_route: `r` is the fresh route, target first. */
  ghost function Configure(g: Graph, t: Table, self: Id, k: Id, r: Route): Table
    requires r != []
  {
    var src := r[|r| - 1];
    var i := Find(t, src.id, k);
    if i < 0 || RouteLost(g, t, t[i]) then Install(t, self, k, r)
    else
      var w := PathWeight(g, Ids(Rebuild(t, t[i]).value));
      var u := t[i := t[i].(weight := w)];
      if ClearlyBetter(src.weight, w) then Install(u, self, k, r) else u
  }

  // ---------------------------------------------------------------- the better route over all targets

  /** The two tables: a flow id may have several registered targets, an address is its own target. */
  datatype Kind = ByAddress | ByFlow(targets: seq<(Id, Id)>)

  function TargetsIn(ts: seq<(Id, Id)>, k: Id): seq<Id> {
    if ts == [] then []
    else
      var last := ts[|ts| - 1];
      TargetsIn(ts[..|ts| - 1], k) + (if last.0 == k then [last.1] else [])
  }

  function Targets(kind: Kind, k: Id): seq<Id> {
    match kind
    case ByAddress => [k]
    case ByFlow(ts) => TargetsIn(ts, k)
  }

  const CONTROLLER_FLOW: Id := 0

  /** Routes to the controller flow are never replaced by DROP. */
  predicate MayDrop(kind: Kind, k: Id) {
    kind.ByAddress? || k != CONTROLLER_FLOW
  }

  /** get_better_route for one target: a later route wins ties. */
  ghost function OneTarget(n: Net, s: Id, d: Id, best: Option<Route>): (r: (Net, Option<Route>))
    requires GoodNet(n)
    requires best.Some? ==> best.value != []
    ensures GoodNet(r.0) && (r.1.Some? ==> r.1.value != [])
  {
    WithVertexKeepsGood(n, s);
    WithVertexKeepsGood(WithVertex(n, s), d);
    var found := FindRoute(WithVertex(n, s).out, s, d);
    (WithVertex(WithVertex(n, s), d),
     if found.None? then best
     else if best.None? || found.value[0].weight <= best.value[0].weight then found
     else best)
  }

  /** The loop over all targets of a key. */
  ghost function BestRoute(n: Net, s: Id, ts: seq<Id>, best: Option<Route>): (r: (Net, Option<Route>))
    requires GoodNet(n)
    requires best.Some? ==> best.value != []
    ensures GoodNet(r.0) && (r.1.Some? ==> r.1.value != [])
    decreases |ts|
  {
    if ts == [] then (n, best)
    else
      var (m, r) := OneTarget(n, s, ts[0], best);
      BestRoute(m, s, ts[1..], r)
  }

  lemma WithVertexSameEdges(n: Net, v: Id)
    ensures SameEdges(n.out, WithVertex(n, v).out)
  {
  }

  lemma SameEdgesSameRoute(g: Graph, h: Graph, s: Id, d: Id, r: Route)
    requires SameEdges(g, h)
    ensures IsRoute(g, s, d, r) <==> IsRoute(h, s, d, r)
  {
    assert forall k :: RouteHop(g, r, k) <==> RouteHop(h, r, k);
  }

  /** Some target other than the source itself can be reached. */
  ghost predicate Feasible(g: Graph, s: Id, ts: seq<Id>) {
    exists d :: d in ts && d != s && Reachable(g, s, d)
  }

  ghost predicate RouteToOne(g: Graph, s: Id, ts: seq<Id>, r: Route) {
    exists d :: d in ts && IsRoute(g, s, d, r)
  }

  lemma OneTargetStep(n: Net, s: Id, d: Id, best: Option<Route>)
    requires GoodNet(n)
    requires best.Some? ==> best.value != []
    ensures var (m, r) := OneTarget(n, s, d, best);
            && SameEdges(n.out, m.out)
            && (r.Some? <==> best.Some? || (d != s && Reachable(n.out, s, d)))
            && (r.Some? && r != best ==> IsRoute(n.out, s, d, r.value))
  {
    hide FindRoute;
    var n1 := WithVertex(n, s);
    WithVertexKeepsGood(n, s);
    WithVertexSameEdges(n, s);
    WithVertexSameEdges(n1, d);
    SameEdgesSameReach(n.out, n1.out, s, d);
    var r := FindRoute(n1.out, s, d);
    if r.Some? {
      SameEdgesSameRoute(n.out, n1.out, s, d, r.value);
    }
  }

  /** A route comes back exactly when some target is feasible, and it is a route to one of the targets. */
  lemma {:induction false} BestRouteIsRoute(n: Net, s: Id, ts: seq<Id>, best: Option<Route>)
    requires GoodNet(n)
    requires best.Some? ==> best.value != []
    ensures var (m, r) := BestRoute(n, s, ts, best);
            && SameEdges(n.out, m.out)
            && (r.Some? <==> best.Some? || Feasible(n.out, s, ts))
            && (r.Some? && r != best ==> RouteToOne(n.out, s, ts, r.value))
    decreases |ts|
  {
    hide OneTarget;
    if ts != [] {
      var (m, r) := OneTarget(n, s, ts[0], best);
      OneTargetStep(n, s, ts[0], best);
      BestRouteIsRoute(m, s, ts[1..], r);
      FeasibleStep(n.out, m.out, s, ts);
      var q := BestRoute(n, s, ts, best).1;
      if q.Some? && q != r && q != best {
        assert RouteToOne(m.out, s, ts[1..], q.value);
        var d :| d in ts[1..] && IsRoute(m.out, s, d, q.value);
        SameEdgesSameRoute(n.out, m.out, s, d, q.value);
        assert d in ts;
      }
    }
  }

  lemma FeasibleStep(g: Graph, h: Graph, s: Id, ts: seq<Id>)
    requires SameEdges(g, h) && ts != []
    ensures Feasible(g, s, ts) <==> (ts[0] != s && Reachable(g, s, ts[0])) || Feasible(h, s, ts[1..])
  {
    forall d: Id ensures Reachable(g, s, d) <==> Reachable(h, s, d) {
      SameEdgesSameReach(g, h, s, d);
    }
    assert forall d :: d in ts <==> d == ts[0] || d in ts[1..];
  }

  // ---------------------------------------------------------------- the best over all targets

  /** The total the search finds from `s` to `d`. */
  ghost function Total(n: Net, s: Id, d: Id): int
    requires GoodNet(n)
  {
    WithVertexKeepsGood(n, s);
    Label(SearchFrom(WithVertex(n, s).out, s), d)
  }

  lemma {:induction false} RunSameEdges(g: Graph, h: Graph, s: Search)
    requires SameEdges(g, h) && Paused(g, s) && Paused(h, s)
    ensures Run(g, s) == Run(h, s)
    decreases Unsettled(g, s)
  {
    if s.queue != [] {
      RunOnce(g, s);
      RunOnce(h, s);
      RunSameEdges(g, h, Pop(g, s));
    }
  }

  lemma TotalSameEdges(n: Net, m: Net, s: Id, d: Id)
    requires GoodNet(n) && GoodNet(m) && SameEdges(n.out, m.out)
    ensures Total(n, s, d) == Total(m, s, d)
  {
    WithVertexKeepsGood(n, s);
    WithVertexKeepsGood(m, s);
    WithVertexSameEdges(n, s);
    WithVertexSameEdges(m, s);
    var g, h := WithVertex(n, s).out, WithVertex(m, s).out;
    assert SameEdges(g, h) by {
      assert forall v :: Out(g, v) == Out(n.out, v) == Out(m.out, v) == Out(h, v);
    }
    assert Started(g, s) == Started(h, s);
    RunSameEdges(g, h, Started(g, s));
  }

  /** No target offers a lower total than the route returned. */
  lemma {:induction false} BestRouteIsBest(n: Net, s: Id, ts: seq<Id>, best: Option<Route>, d: Id)
    requires GoodNet(n)
    requires best.Some? ==> best.value != []
    requires d in ts && d != s && Reachable(n.out, s, d)
    ensures var r := BestRoute(n, s, ts, best).1;
            r.Some? && r.value[0].weight <= Total(n, s, d)
    decreases |ts|
  {
    var (m, r) := OneTarget(n, s, ts[0], best);
    if d == ts[0] {
      OneTargetIsBest(n, s, d, best);
      BestRouteFalls(m, s, ts[1..], r);
    } else {
      assert SameEdges(n.out, m.out) by {
        OneTargetStep(n, s, ts[0], best);
      }
      SameEdgesSameReach(n.out, m.out, s, d);
      TotalSameEdges(n, m, s, d);
      BestRouteIsBest(m, s, ts[1..], r, d);
    }
  }

  lemma OneTargetIsBest(n: Net, s: Id, d: Id, best: Option<Route>)
    requires GoodNet(n) && d != s && Reachable(n.out, s, d)
    requires best.Some? ==> best.value != []
    ensures var r := OneTarget(n, s, d, best).1;
            r.Some? && r.value[0].weight <= Total(n, s, d)
  {
    WithVertexKeepsGood(n, s);
    WithVertexSameEdges(n, s);
    SameEdgesSameReach(n.out, WithVertex(n, s).out, s, d);
  }

  lemma {:induction false} BestRouteFalls(n: Net, s: Id, ts: seq<Id>, best: Option<Route>)
    requires GoodNet(n)
    requires best.Some? ==> best.value != []
    ensures var r := BestRoute(n, s, ts, best).1;
            best.Some? ==> r.Some? && r.value[0].weight <= best.value[0].weight
    decreases |ts|
  {
    if ts != [] {
      var (m, r) := OneTarget(n, s, ts[0], best);
      BestRouteFalls(m, s, ts[1..], r);
    }
  }
}
