/**
  The controller's digraph with its in-place updates, and the shortest-path search that works on the
  scratch fields of the vertices (controller-server/digraph/digraph.c, dijkstra.c).
 */
module Digraphs {
  import opened Options
  import opened Graphs
  import opened ShortestPath
  import opened SearchInvariant
  import opened SearchTree
  import opened Routes
  import opened NeighborReports
  import opened ReportNotice

  lemma {:induction false} UpdateAt(es: seq<Edge>, i: nat, to: Id, etx: nat, w: int)
    requires i < |es| && es[i].to == to && forall j :: 0 <= j < i ==> es[j].to != to
    ensures FindEdge(es, to) == Some(es[i])
    ensures UpdateEdge(es, to, etx, w) ==
            es[i := Edge(to, etx, w, if es[i].weight == w then EdgeStatic else EdgeUpdated)]
  {
    if i > 0 {
      UpdateAt(es[1..], i - 1, to, etx, w);
    }
  }

  lemma {:induction false} UnmarkedSkips(es: seq<Edge>, i: nat)
    requires i < |es| && es[i].status == EdgeDeleted
    ensures Unmarked(es[..i] + es[i + 1..]) == Unmarked(es)
  {
    var rest := es[..i] + es[i + 1..];
    if i > 0 {
      UnmarkedSkips(es[1..], i - 1);
      assert rest[1..] == es[1..][..i - 1] + es[1..][i..];
    } else {
      assert rest == es[1..];
    }
  }

  lemma {:induction false} NothingMarked(es: seq<Edge>)
    requires forall e :: e in es ==> e.status != EdgeDeleted
    ensures Unmarked(es) == es
  {
    if es != [] {
      NothingMarked(es[1..]);
    }
  }

  lemma {:induction false} PushAt(q: seq<Id>, cost: map<Id, int>, v: Id, i: nat)
    requires i <= |q|
    requires forall j :: 0 <= j < i ==> CostOf(cost, q[j]) <= CostOf(cost, v)
    requires i < |q| ==> CostOf(cost, v) < CostOf(cost, q[i])
    ensures Push(q, cost, v) == q[..i] + [v] + q[i..]
  {
    if i > 0 {
      var rest := q[1..];
      PushAt(rest, cost, v, i - 1);
      assert !(CostOf(cost, v) < CostOf(cost, q[0]));
      SplitBehindHead(q, i, v);
    } else {
      assert q[..0] + [v] + q[0..] == [v] + q;
    }
  }

  lemma SplitBehindHead(q: seq<Id>, i: nat, v: Id)
    requires 0 < i <= |q|
    ensures [q[0]] + (q[1..][..i - 1] + [v] + q[1..][i - 1..]) == q[..i] + [v] + q[i..]
  {
  }

  ghost predicate Listed(vs: seq<Id>, keys: set<Id>, v: Id) {
    v in vs <==> v in keys
  }

  ghost predicate ListsAll(vs: seq<Id>, keys: set<Id>) {
    forall v: Id {:trigger Listed(vs, keys, v)} :: Listed(vs, keys, v)
  }

  class Digraph {
    const metric: Metric
    /** The circular vertex list from its header. */
    var vertices: seq<Id>
    var out: Graph
    var energy: map<Id, nat>
    /** Scratch fields of the vertices: clear `visited`, zero `route_weight`, NULL `route_root` are absent. */
    var visited: set<Id>
    var routeWeight: map<Id, int>
    var routeRoot: map<Id, Id>
    /** dijkstra_queue_head to dijkstra_queue_tail. */
    var queue: seq<Id>
    ghost var settled: seq<Id>

    ghost function Value(): Net
      reads this
    {
      Net(out, energy)
    }

    ghost function Scratch(): Search
      reads this
    {
      Search(settled, routeWeight, routeRoot, queue)
    }

    ghost predicate Valid()
      reads this
    {
      && GoodMetric(metric) && GoodNet(Value())
      && NoDup(vertices) && ListsAll(vertices, out.Keys)
      && visited == {} && Scratch() == CLEAN
    }

    constructor (metric: Metric)
      requires GoodMetric(metric)
      ensures Valid() && this.metric == metric && Value() == Net(map[], map[])
    {
      this.metric := metric;
      vertices, out, energy := [], map[], map[];
      visited, routeWeight, routeRoot, queue, settled := {}, map[], map[], [], [];
    }

    // ---------------------------------------------------------------- vertices and edges

    method FindVertex(id: Id) returns (found: bool)
      requires Valid()
      ensures found <==> id in out
    {
      var i := 0;
      while i < |vertices|
        invariant 0 <= i <= |vertices|
        invariant id !in vertices[..i]
      {
        if vertices[i] == id {
          assert Listed(vertices, out.Keys, id);
          return true;
        }
        i := i + 1;
      }
      assert vertices[..i] == vertices && Listed(vertices, out.Keys, id);
      return false;
    }

    method AddVertex(id: Id)
      requires Valid() && id !in out
      modifies this`vertices, this`out, this`energy
      ensures Valid() && Value() == WithVertex(old(Value()), id)
    {
      WithVertexKeepsGood(Value(), id);
      assert Listed(vertices, out.Keys, id);
      if vertices == [] {
        vertices := [id];
      } else {
        assert forall v :: v in vertices <==> v == vertices[0] || v in vertices[1..];
        NoDupTail(vertices);
        NoDupAdd(id, vertices[1..]);
        NoDupAdd(vertices[0], [id] + vertices[1..]);
        assert [vertices[0]] + ([id] + vertices[1..]) == [vertices[0], id] + vertices[1..];
        vertices := [vertices[0], id] + vertices[1..];
      }
      out := out[id := []];
      energy := energy[id := MAX_BATTERY_LEVEL];
      forall v: Id ensures Listed(vertices, out.Keys, v) {
        assert Listed(old(vertices), old(out).Keys, v);
      }
    }

    method GetVertex(id: Id)
      requires Valid()
      modifies this`vertices, this`out, this`energy
      ensures Valid() && Value() == WithVertex(old(Value()), id)
    {
      var found := FindVertex(id);
      if !found {
        AddVertex(id);
      }
    }

    /** Index of the edge from `u` to `v` counted from the header, or -1 for NULL. */
    method FindEdgeIndex(u: Id, v: Id) returns (i: int)
      requires u in out
      ensures i >= 0 ==> i < |out[u]| && out[u][i].to == v && FindEdge(out[u], v) == Some(out[u][i])
                         && forall j :: 0 <= j < i ==> out[u][j].to != v
      ensures i < 0 ==> FindEdge(out[u], v) == None
    {
      i := 0;
      while i < |out[u]|
        invariant 0 <= i <= |out[u]|
        invariant forall j :: 0 <= j < i ==> out[u][j].to != v
      {
        if out[u][i].to == v {
          UpdateAt(out[u], i, v, 0, 0);
          return;
        }
        i := i + 1;
      }
      i := -1;
    }

    /** digraph_add_edge; `status` is that of the edge that comes back. */
    method AddEdgeBetween(u: Id, v: Id, etx: nat) returns (status: Status)
      requires Valid() && u in out && v in out
      modifies this`out
      ensures Valid() && Value() == Connect(old(Value()), metric, u, v, etx)
      ensures u in out && FindEdge(out[u], v).Some? && FindEdge(out[u], v).value.status == status
    {
      var e := if energy[u] < energy[v] then energy[u] else energy[v];
      var weight := metric(e, etx);
      var es := out[u];
      var i := FindEdgeIndex(u, v);
      status := if i < 0 then EdgeNew else if es[i].weight == weight then EdgeStatic else EdgeUpdated;
      assert FineVertex(out, u);
      AddedStatus(es, v, etx, weight);
      if i < 0 {
        var newEdge := Edge(v, etx, weight, EdgeNew);
        es := if es == [] then [newEdge] else [es[0], newEdge] + es[1..];
      } else {
        UpdateAt(es, i, v, etx, weight);
        es := es[i := Edge(v, etx, weight, if es[i].weight == weight then EdgeStatic else EdgeUpdated)];
      }
      assert es == AddEdge(out[u], v, etx, weight);
      ConnectKeepsGood(Value(), metric, u, v, etx);
      out := out[u := es];
      assert out.Keys == old(out).Keys;
    }

    method MarkEdgesFrom(u: Id)
      requires Valid() && u in out
      modifies this`out
      ensures Valid() && u in out && Value() == Marked(old(Value()), u)
    {
      MarkedKeepsGood(Value(), u, u);
      var i := 0;
      while i < |out[u]|
        invariant u in out && 0 <= i <= |out[u]| == |old(out)[u]|
        invariant out == old(out)[u := out[u]]
        invariant forall j :: 0 <= j < i ==> out[u][j] == old(out)[u][j].(status := EdgeDeleted)
        invariant forall j :: i <= j < |out[u]| ==> out[u][j] == old(out)[u][j]
      {
        out := out[u := out[u][i := out[u][i].(status := EdgeDeleted)]];
        i := i + 1;
      }
      assert out[u] == MarkAll(old(out)[u]) && out.Keys == old(out).Keys;
      assert Value() == Marked(old(Value()), u);
    }

    /** Unlinks the first edge to `v` in an edge list; the header moves on when it is the header itself. */
    static method DelEdge(es: seq<Edge>, v: Id) returns (r: seq<Edge>)
      ensures (forall j :: 0 <= j < |es| ==> es[j].to != v) ==> r == es
      ensures forall i {:trigger es[i]} ::
        0 <= i < |es| && es[i].to == v && (forall j :: 0 <= j < i ==> es[j].to != v) ==>
        r == es[..i] + es[i + 1..]
    {
      var i := 0;
      while i < |es|
        invariant 0 <= i <= |es|
        invariant forall j :: 0 <= j < i ==> es[j].to != v
      {
        if es[i].to == v {
          return es[..i] + es[i + 1..];
        }
        i := i + 1;
      }
      r := es;
    }

    /** The sweep starts behind the header, ends at the header and looks at the header last. */
    static method DelMarked(edges: seq<Edge>) returns (es: seq<Edge>, deleted: bool)
      requires Distinct(edges)
      ensures es == Unmarked(edges) && deleted == SweepChanges(edges)
    {
      es := edges;
      // The only edge is its own successor, so the loop meets the header.
      deleted := |es| == 1 && es[0].status == EdgeDeleted;
      var i := 1;
      while i < |es|
        invariant Distinct(es) && Unmarked(es) == Unmarked(edges)
        invariant !deleted ==> es == edges
        invariant deleted ==> SweepChanges(edges)
        invariant |edges| == 1 && edges[0].status == EdgeDeleted ==> deleted
        invariant 1 <= i && (es != [] ==> i <= |es|)
        invariant forall j :: 1 <= j < i && j < |es| ==> es[j].status != EdgeDeleted
        decreases |es| - i
      {
        if es[i].status == EdgeDeleted {
          UnmarkedSkips(es, i);
          DistinctRemove(es, i);
          forall j | 0 <= j < i ensures es[j].to != es[i].to {
            assert DifferentTargets(es, j, i);
          }
          deleted := true;
          es := DelEdge(es, es[i].to);
        } else {
          i := i + 1;
        }
      }
      assert deleted == SweepChanges(edges);
      if es != [] && es[0].status == EdgeDeleted {
        UnmarkedSkips(es, 0);
        es := DelEdge(es, es[0].to);
      }
      NothingMarked(es);
    }

    method DelMarkedFrom(u: Id) returns (deleted: bool)
      requires Valid() && u in out
      modifies this`out
      ensures Valid() && Value() == Swept(old(Value()), u) && deleted == SweepChanges(old(out[u]))
    {
      SweepKeepsGood(Value(), u, u);
      assert FineVertex(out, u);
      var es;
      es, deleted := DelMarked(out[u]);
      out := out[u := es];
      assert out.Keys == old(out).Keys;
    }

    /** The body of the report loop; `changed` says whether it sets the flag. */
    method ReportEntry(src: Id, nb: Neighbor) returns (changed: bool)
      requires Valid() && src in out
      modifies this
      ensures Valid() && Value() == ReportOne(old(Value()), metric, src, nb) && src in out
      ensures changed == EntryChanges(old(Value()), metric, src, nb)
    {
      ghost var n := Value();
      GetVertex(nb.id);
      var status := AddEdgeBetween(src, nb.id, nb.etx);
      changed := status != EdgeStatic;
      var back := FindEdgeIndex(nb.id, src);
      if back < 0 {
        AddedIsNew(out[nb.id], src, nb.etx, WeightOf(Value(), metric, nb.id, src, nb.etx));
        status := AddEdgeBetween(nb.id, src, nb.etx);
        if status != EdgeStatic {
          changed := true;
        }
      }
    }

    /** The reporting vertex is there, and all its edges are marked. */
    method StartReport(src: Id) returns (changed: bool)
      requires Valid()
      modifies this
      ensures Valid() && src in out && Value() == Marked(old(Value()), src) && changed == (src !in old(out))
    {
      var found := FindVertex(src);
      if !found {
        AddVertex(src);
      }
      MarkEdgesFrom(src);
      changed := !found;
    }

    /** The part of process_neighbor_report that changes the digraph, and its flag for that. */
    method ProcessNeighborReport(src: Id, ns: seq<Neighbor>) returns (changed: bool)
      requires Valid()
      modifies this
      ensures Valid() && Value() == Report(old(Value()), metric, src, ns)
      ensures changed == Noticed(old(Value()), metric, src, ns)
    {
      hide Marked;
      hide Swept;
      hide ReportOne;
      hide WithVertex;
      hide GoodNet;
      hide NoDup;
      hide ListsAll;
      ghost var n := Value();
      changed := StartReport(src);
      var i := 0;
      while i < |ns|
        invariant 0 <= i <= |ns|
        invariant Valid() && src in out
        invariant Value() == ReportAll(Marked(n, src), metric, src, ns[..i])
        invariant changed == (src !in n.out || LoopChanges(Marked(n, src), metric, src, ns[..i]))
      {
        var entry := ReportEntry(src, ns[i]);
        changed := changed || entry;
        assert ns[..i + 1][..i] == ns[..i];
        i := i + 1;
      }
      assert ns[..i] == ns;
      var deleted := DelMarkedFrom(src);
      changed := changed || deleted;
    }

    // ---------------------------------------------------------------- the search

    method QueuePush(v: Id)
      modifies this`queue
      ensures queue == Push(old(queue), routeWeight, v)
    {
      if queue == [] {
        queue := [v];
      } else if CostOf(routeWeight, v) < CostOf(routeWeight, queue[0]) {
        queue := [v] + queue;
      } else {
        var i := 1;
        while i < |queue| && !(CostOf(routeWeight, v) < CostOf(routeWeight, queue[i]))
          invariant 1 <= i <= |queue|
          invariant forall j :: 0 <= j < i ==> CostOf(routeWeight, queue[j]) <= CostOf(routeWeight, v)
        {
          i := i + 1;
        }
        PushAt(queue, routeWeight, v, i);
        queue := queue[..i] + [v] + queue[i..];
      }
    }

    method QueuePop() returns (v: Option<Id>)
      modifies this`queue
      ensures old(queue) == [] ==> v == None && queue == []
      ensures old(queue) != [] ==> v == Some(old(queue)[0]) && queue == old(queue)[1..]
    {
      if queue == [] {
        return None;
      }
      v := Some(queue[0]);
      queue := queue[1..];
    }

    /** The body of the edge loop. */
    method RelaxEdge(u: Id, e: Edge)
      requires visited == (set x | x in settled) && routeWeight.Keys == routeRoot.Keys
      modifies this`routeWeight, this`routeRoot, this`queue
      ensures Scratch() == Relax(old(Scratch()), u, e) && routeWeight.Keys == routeRoot.Keys
    {
      if e.to !in visited {
        var w := CostOf(routeWeight, u) + e.weight;
        if e.to !in routeRoot {
          routeWeight := routeWeight[e.to := w];
          routeRoot := routeRoot[e.to := u];
          QueuePush(e.to);
        } else if w < CostOf(routeWeight, e.to) {
          routeWeight := routeWeight[e.to := w];
          routeRoot := routeRoot[e.to := u];
        }
      }
    }

    /** Marks the vertex visited and scans its edges from the header. */
    method ScanVertex(u: Id)
      requires u in out
      requires visited == (set x | x in settled) && routeWeight.Keys == routeRoot.Keys
      modifies this`visited, this`routeWeight, this`routeRoot, this`queue, this`settled
      ensures Scratch() == Visit(out, old(Scratch()), u)
      ensures visited == (set x | x in settled) && routeWeight.Keys == routeRoot.Keys
    {
      visited := visited + {u};
      settled := settled + [u];
      ghost var s := Scratch();
      var i := 0;
      while i < |out[u]|
        invariant 0 <= i <= |out[u]|
        invariant visited == (set x | x in settled) && routeWeight.Keys == routeRoot.Keys
        invariant settled == s.settled
        invariant Scan(s, u, out[u]) == Scan(Scratch(), u, out[u][i..])
      {
        RelaxEdge(u, out[u][i]);
        assert out[u][i..][1..] == out[u][i + 1..];
        i := i + 1;
      }
    }

    /** One round of the main loop: the edges of one vertex, then the next pop. */
    method VisitAndPop(u: Id) returns (next: Option<Id>)
      requires u in out
      requires visited == (set x | x in settled) && routeWeight.Keys == routeRoot.Keys
      modifies this`visited, this`routeWeight, this`routeRoot, this`queue, this`settled
      ensures Scratch() == Visit(out, old(Scratch()), u).(queue := queue)
      ensures Visit(out, old(Scratch()), u).queue == if next.Some? then [next.value] + queue else []
      ensures next.None? ==> queue == []
      ensures visited == (set x | x in settled) && routeWeight.Keys == routeRoot.Keys
    {
      ScanVertex(u);
      next := QueuePop();
    }

    /** Visits the source, then pops and visits until the queue is empty. */
    method RunSearch(src: Id)
      requires Valid() && src in out
      modifies this`visited, this`routeWeight, this`routeRoot, this`queue, this`settled
      ensures Scratch() == SearchFrom(out, src) && visited == (set x | x in settled)
      ensures routeWeight.Keys == routeRoot.Keys
    {
      ghost var paused := Started(out, src);
      var vertice := VisitAndPop(src);
      while vertice.Some?
        invariant Paused(out, paused) && Run(out, paused) == SearchFrom(out, src)
        invariant Scratch() == paused.(queue := queue)
        invariant paused.queue == if vertice.Some? then [vertice.value] + queue else []
        invariant vertice.None? ==> queue == []
        invariant visited == (set x | x in settled) && routeWeight.Keys == routeRoot.Keys
        decreases Unsettled(out, paused)
      {
        assert paused.queue[0] == vertice.value && paused.queue[1..] == queue;
        RunOnce(out, paused);
        paused := Pop(out, paused);
        vertice := VisitAndPop(vertice.value);
      }
    }

    /** Walks up from the target along route_root and lists the vertices with remaining weight and hops. */
    method WalkUp(target: Id, ghost p: seq<Id>) returns (nodes: Route)
      requires FollowsRoots(Scratch(), p) && |p| >= 2 && p[|p| - 1] == target
      requires p[0] !in routeRoot && routeWeight.Keys == routeRoot.Keys
      ensures nodes == RouteAlong(Scratch(), p)
    {
      ghost var all := RouteAlong(Scratch(), p);
      assert Rooted(Scratch(), p, |p| - 2);
      var total := routeWeight[target];
      nodes := [RouteNode(target, total, 0)];
      var vertice := Some(routeRoot[target]);
      var hops := 0;
      while vertice.Some?
        invariant hops == |nodes| - 1 && |nodes| <= |p|
        invariant nodes == all[..|nodes|]
        invariant vertice == if |nodes| < |p| then Some(p[|p| - 1 - |nodes|]) else None
        decreases |p| - |nodes|
      {
        var v := vertice.value;
        hops := hops + 1;
        assert Rooted(Scratch(), p, |p| - 2 - |nodes|);
        RouteAlongAt(Scratch(), p, hops);
        assert all[..hops + 1] == all[..hops] + [all[hops]];
        nodes := nodes + [RouteNode(v, total - CostOf(routeWeight, v), hops)];
        vertice := if v in routeRoot then Some(routeRoot[v]) else None;
      }
    }

    /** The route of a finished search, or NULL. */
    method BuildRoute(src: Id, target: Id) returns (route: Option<Route>)
      requires WellFormed(out) && src in out && Scratch() == SearchFrom(out, src)
      ensures route == FindRoute(out, src, target)
    {
      if target !in routeRoot {
        return None;
      }
      var nodes := WalkUp(target, RootPath(out, src, target));
      route := Some(nodes);
    }

    /** Resets the scratch fields of every vertex. */
    method CleanAttributes()
      requires ListsAll(vertices, out.Keys) && queue == []
      requires visited == (set x | x in settled) && routeWeight.Keys == routeRoot.Keys
      requires visited <= out.Keys && routeRoot.Keys <= out.Keys
      modifies this`visited, this`routeWeight, this`routeRoot, this`settled
      ensures visited == {} && Scratch() == CLEAN
    {
      assert forall v: Id :: Listed(vertices, out.Keys, v) ==> v in out ==> v in vertices;
      var i := 0;
      while i < |vertices|
        invariant 0 <= i <= |vertices|
        invariant routeWeight.Keys == routeRoot.Keys
        invariant forall v :: v in visited || v in routeRoot ==> v in vertices[i..]
      {
        visited := visited - {vertices[i]};
        routeWeight := routeWeight - {vertices[i]};
        routeRoot := routeRoot - {vertices[i]};
        i := i + 1;
      }
      settled := [];
    }

    /**
      shortest_path_algorithm: missing end points are added to the digraph, the route is the one of the
      search, and all scratch fields are clean again.
     */
    method ShortestRoute(src: Id, target: Id) returns (route: Option<Route>)
      requires Valid()
      modifies this
      ensures Valid()
      ensures Value() == WithVertex(WithVertex(old(Value()), src), target)
      ensures WellFormed(WithVertex(old(Value()), src).out)
      ensures route == FindRoute(WithVertex(old(Value()), src).out, src, target)
    {
      hide FindRoute;
      hide SearchFrom;
      hide Paused;
      hide GoodMetric;
      GetVertex(src);
      RunSearch(src);
      route := BuildRoute(src, target);
      PausedStaysInside(out, Scratch());
      CleanAttributes();
      GetVertex(target);
    }

    /**
      checks_shortest_route: re-adds the edge weights of a route given source first, NULL when an edge is gone.
      The code reads the header edge of every vertex but the last without testing it; `crashed` says that it
      has read a NULL one.
     */
    method CheckRoute(ids: seq<Id>) returns (weight: Option<int>, crashed: bool)
      requires Valid() && |ids| >= 2
      ensures crashed <==> ReadsNull(out, ids)
      ensures weight.Some? <==> IsPath(out, ids)
      ensures weight.Some? ==> weight.value == PathWeight(out, ids)
    {
      hide GoodNet;
      hide GoodMetric;
      hide ListsAll;
      var k, total := 0, 0;
      while k < |ids| - 1
        invariant 0 <= k < |ids|
        invariant IsPath(out, ids[..k + 1]) && PathWeight(out, ids[..k + 1]) == total
        invariant forall j :: 0 <= j < k ==> Hop(out, ids, j) && Out(out, ids[j]) != []
      {
        if ids[k] !in out || out[ids[k]] == [] {
          assert ReadsNullAt(out, ids, k) && !Hop(out, ids, k);
          return None, true;
        }
        var i := FindEdgeIndex(ids[k], ids[k + 1]);
        if i < 0 {
          assert !Hop(out, ids, k);
          return None, false;
        }
        PathSnoc(out, ids[..k + 1], ids[k + 1]);
        assert ids[..k + 2] == ids[..k + 1] + [ids[k + 1]];
        total := total + out[ids[k]][i].weight;
        k := k + 1;
      }
      assert ids[..k + 1] == ids;
      weight, crashed := Some(total), false;
    }
  }
}
