/**
  The flow cache and the request and update code of the controller with their in-place changes
  (controller-server/sdn-flow-table-cache.c, controller-server/sdn-process-packets-controller.c).  One
  object holds one of the two tables; the digraph is shared.
 */
module Controllers {
  import opened Options
  import opened Graphs
  import opened Routes
  import opened NeighborReports
  import opened Digraphs
  import opened FlowTables
  import opened RouteUpdates
  import opened TableSafety
  import opened SetupPushes
  import opened ControllerRuns
  import opened RunSafety
  import opened UpdatePass
  import opened HeaderReads
  import opened Operations

  /** The targets of a key from the front of the list. */
  lemma {:induction false} TargetsFromFront(ts: seq<(Id, Id)>, k: Id)
    requires ts != []
    ensures TargetsIn(ts, k) == (if ts[0].0 == k then [ts[0].1] else []) + TargetsIn(ts[1..], k)
    decreases |ts|
  {
    var init := ts[..|ts| - 1];
    if |ts| == 1 {
      assert init == [] && ts[1..] == [];
    } else {
      TargetsFromFront(init, k);
      assert ts[1..][..|ts| - 2] == init[1..];
    }
  }

  ghost function Prepend(nodes: Route, r: Option<Route>): Option<Route> {
    if r.None? then None else Some(nodes + r.value)
  }

  lemma PrependNothing(r: Option<Route>)
    ensures Prepend([], r) == r
  {
    assert r.Some? ==> [] + r.value == r.value;
  }

  lemma PrependTwice(a: Route, b: Route, r: Option<Route>)
    ensures Prepend(a, Prepend(b, r)) == Prepend(a + b, r)
  {
    assert r.Some? ==> a + (b + r.value) == a + b + r.value;
  }

  class Controller {
    const site: Site
    const digraph: Digraph
    var kind: Kind
    var table: Table
    /** Every push so far, sent or not. */
    var pushes: seq<Push>

    ghost function Now(): State
      reads this, digraph
    {
      State(digraph.Value(), kind, table, pushes)
    }

    ghost predicate Valid()
      reads this, digraph
    {
      digraph.Valid() && Safe(Now())
    }

    constructor (site: Site, digraph: Digraph, kind: Kind)
      requires digraph.Valid() && (kind == ByAddress || kind == ByFlow([]))
      ensures Valid() && this.site == site && this.digraph == digraph && this.kind == kind
      ensures table == [] && pushes == []
    {
      this.site, this.digraph, this.kind := site, digraph, kind;
      table, pushes := [], [];
      new;
      forall k: Id ensures KeyOk(kind, [], k) {
      }
    }

    // ---------------------------------------------------------------- the cache

    method FindEntry(s: Id, k: Id) returns (i: int)
      ensures i == Find(table, s, k)
    {
      i := 0;
      while i < |table|
        invariant 0 <= i <= |table|
        invariant forall j :: 0 <= j < i ==> !Matches(table[j], s, k)
      {
        if table[i].source == s && table[i].key == k {
          return;
        }
        i := i + 1;
      }
      i := -1;
    }

    method Add(s: Id, k: Id, nextHop: Id, a: Action, w: int, h: nat)
      modifies this`table
      ensures table == Put(old(table), site.self, s, k, nextHop, a, w, h)
    {
      var i := FindEntry(s, k);
      if i < 0 {
        table := table + [Entry(s, k, nextHop, a, w, h, RouteNew, true, s == site.self, RETRANSMIT_TIME)];
      } else {
        var e := table[i];
        if e.nextHop != nextHop || e.action != a {
          e := e.(nextHop := nextHop, action := a, flag := RouteUpdated, changed := true,
                  online := false, countdown := RETRANSMIT_TIME);
        }
        e := e.(weight := w, hops := h);
        if s == site.self {
          e := e.(online := true);
        }
        table := table[i := e];
      }
    }

    method SetEntryOnline(m: Setup)
      requires Valid()
      modifies this`table
      ensures Valid() && table == SetOnline(old(table), m)
    {
      var i := FindEntry(m.source, m.key);
      if i >= 0 {
        if table[i].nextHop == m.nextHop && table[i].action == m.action {
          MarkKeepsTableOk(kind, table, i, table[i].(online := true));
          MarkKeepsInSync(table, pushes, i, table[i].(online := true));
          table := table[i := table[i].(online := true)];
        }
      }
    }

    // ---------------------------------------------------------------- routes

    /** get_better_route. */
    method BetterRoute(s: Id, d: Id, better: Option<Route>) returns (r: Option<Route>)
      requires digraph.Valid() && (better.Some? ==> better.value != [])
      modifies digraph
      ensures digraph.Valid()
      ensures (digraph.Value(), r) == OneTarget(old(digraph.Value()), s, d, better)
      ensures r.Some? ==> r.value != []
    {
      hide FindRoute;
      hide WithVertex;
      hide GoodNet;
      hide GoodMetric;
      hide NoDup;
      hide ListsAll;
      var found := digraph.ShortestRoute(s, d);
      r := better;
      if found.Some? {
        if better.None? {
          r := found;
        } else if found.value[0].weight > better.value[0].weight {
        } else {
          r := found;
        }
      }
    }

    /** get_flow_*_better_route: all targets registered for the key, in list order. */
    method KeyRoute(s: Id, k: Id) returns (r: Option<Route>)
      requires digraph.Valid()
      modifies digraph
      ensures digraph.Valid()
      ensures (digraph.Value(), r) == BestRoute(old(digraph.Value()), s, Targets(kind, k), None)
    {
      hide OneTarget;
      r := None;
      match kind
      case ByAddress =>
        r := BetterRoute(s, k, None);
        assert [k][1..] == [];
      case ByFlow(ts) =>
        ghost var n := digraph.Value();
        var i := 0;
        while i < |ts|
          invariant 0 <= i <= |ts| && digraph.Valid()
          invariant r.Some? ==> r.value != []
          invariant BestRoute(n, s, TargetsIn(ts, k), None) == BestRoute(digraph.Value(), s, TargetsIn(ts[i..], k), r)
        {
          TargetsFromFront(ts[i..], k);
          assert ts[i..][1..] == ts[i + 1..];
          if ts[i].0 == k {
            ghost var left := TargetsIn(ts[i..], k);
            assert left[0] == ts[i].1 && left[1..] == TargetsIn(ts[i + 1..], k);
            ghost var before, best := digraph.Value(), r;
            r := BetterRoute(s, ts[i].1, r);
            assert OneTarget(before, s, left[0], best) == (digraph.Value(), r);
          } else {
            assert TargetsIn(ts[i..], k) == TargetsIn(ts[i + 1..], k);
          }
          i := i + 1;
        }
    }

    /** get_current_route_from_*: follows the table until there is no FORWARD entry or the hops stop falling. */
    method CurrentRoute(start: nat) returns (route: Option<Route>)
      requires start < |table|
      ensures route == Rebuild(table, table[start])
    {
      if table[start].action != Forward {
        return None;
      }
      var field := Some(table[start]);
      var nodes: Route := [];
      var target := table[start].nextHop;
      assert Rebuild(table, table[start]) == Prepend(nodes, Rebuild(table, table[start])) by {
        PrependNothing(Rebuild(table, table[start]));
      }
      while field.Some? && field.value.action == Forward
        invariant field.Some? && field.value.action == Forward ==>
          Rebuild(table, table[start]) == Prepend(nodes, Rebuild(table, field.value))
        invariant !(field.Some? && field.value.action == Forward) ==>
          Rebuild(table, table[start]) == Some(nodes + [RouteNode(target, 0, 0)])
        decreases if field.Some? then field.value.hops as int else -1
      {
        var e := field.value;
        var i := FindEntry(e.nextHop, e.key);
        if i >= 0 && e.hops <= table[i].hops {
          return None;
        }
        var node := RouteNode(e.source, e.weight, e.hops);
        ghost var before := nodes;
        nodes := nodes + [node];
        target := e.nextHop;
        field := if i < 0 then None else Some(table[i]);
        ghost var rest := if field.Some? && field.value.action == Forward then Rebuild(table, field.value)
                          else Some([RouteNode(target, 0, 0)]);
        assert Rebuild(table, e) == Prepend([node], rest) by {
          assert [node] + [RouteNode(target, 0, 0)] == [node, RouteNode(target, 0, 0)];
        }
        PrependTwice(before, [node], rest);
      }
      route := Some(nodes + [RouteNode(target, 0, 0)]);
    }

    method InstallRoute(k: Id, route: Route)
      modifies this`table
      ensures table == Install(old(table), site.self, k, route)
    {
      var rest := route;
      while |rest| >= 2
        invariant Install(table, site.self, k, rest) == Install(old(table), site.self, k, route)
      {
        Add(rest[1].id, k, rest[0].id, Forward, rest[1].weight, rest[1].hops);
        rest := rest[1..];
      }
    }

    /**
      Re-adds the weights of the current route of an entry; NULL when route or digraph have lost it.  From
      here on `crashed` says that a NULL header edge was read.
     */
    method CurrentWeight(i: nat) returns (w: Option<int>, crashed: bool)
      requires Valid() && i < |table|
      ensures crashed <==> CheckFails(digraph.out, table, table[i])
      ensures w.Some? <==> !RouteLost(digraph.out, table, table[i])
      ensures w.Some? ==> w.value == PathWeight(digraph.out, Ids(Rebuild(table, table[i]).value))
    {
      var current := CurrentRoute(i);
      if current.None? {
        return None, false;
      }
      RebuildFollowsTable(table, table[i]);
      w, crashed := digraph.CheckRoute(Ids(current.value));
    }

    /** configure_flow_*_route. */
    method ConfigureRoute(k: Id, route: Route) returns (crashed: bool)
      requires Valid() && route != []
      modifies this`table
      ensures crashed <==> ConfigureFails(digraph.out, old(table), k, route)
      ensures !crashed ==> table == Configure(digraph.out, old(table), site.self, k, route)
    {
      crashed := false;
      var src := route[|route| - 1];
      var i := FindEntry(src.id, k);
      var lost := true;
      if i >= 0 {
        var w;
        w, crashed := CurrentWeight(i);
        if crashed {
          return;
        }
        if w.Some? {
          table := table[i := table[i].(weight := w.value)];
          lost := false;
        }
      }
      if lost || src.weight as real < table[i].weight as real / (1.0 + SENSIBILITY) {
        InstallRoute(k, route);
      }
    }

    /** The better route of an entry's key configured, or DROP. */
    method ServeEntry(s: Id, k: Id) returns (crashed: bool)
      requires Valid()
      modifies this`table, digraph
      ensures crashed <==> ServeFails(old(digraph.Value()), kind, old(table), s, k)
      ensures !crashed ==> Valid()
      ensures !crashed ==>
                (digraph.Value(), table) == Serve(old(digraph.Value()), kind, site.self, old(table), s, k)
    {
      hide BestRoute;
      hide Configure;
      hide ConfigureFails;
      ServeKeepsTableOk(digraph.Value(), kind, site.self, table, s, k);
      ServeKeepsInSync(digraph.Value(), kind, site.self, table, s, k, pushes);
      FreshRoute(digraph.Value(), s, Targets(kind, k));
      var route := KeyRoute(s, k);
      crashed := false;
      if route.None? {
        if kind.ByAddress? || k != CONTROLLER_FLOW {
          Add(s, k, s, Drop, ROUTE_MAX_WEIGHT, ROUTE_MAX_HOPS);
        }
      } else {
        crashed := ConfigureRoute(k, route.value);
      }
    }

    // ---------------------------------------------------------------- pushes

    /** process_*_flow_setup: nothing is sent without a route to the node or without room for the packet. */
    method PushEntry(e: Entry)
      requires digraph.Valid()
      modifies this`pushes, digraph
      ensures digraph.Valid()
      ensures (digraph.Value(), pushes) == PushSetup(site, old(digraph.Value()), old(pushes), SetupOf(e))
      ensures |pushes| == |old(pushes)| + 1 && old(pushes) <= pushes && Carries(pushes[|old(pushes)|].setup, e)
      ensures pushes[|old(pushes)|].sent <==>
                Reachable(old(digraph.Value()).out, site.self, e.source) && site.room(|old(pushes)|)
    {
      PushIsExact(site, digraph.Value(), pushes, SetupOf(e));
      var found := true;
      if e.source != site.self {
        var route := BetterRoute(site.self, e.source, None);
        found := route.Some?;
      }
      pushes := pushes + [Push(SetupOf(e), found && site.room(|pushes|))];
    }

    /** process_flow_*_table_changes: pushes and unmarks every entry marked as changed. */
    method ProcessTableChanges()
      requires Valid()
      modifies this`table, this`pushes, digraph
      ensures Valid() && Now() == FlushFrom(site, old(Now()), 0)
    {
      hide PushSetup;
      var i := 0;
      while i < |table|
        invariant 0 <= i && Valid() && kind == old(kind)
        invariant FlushFrom(site, Now(), i) == FlushFrom(site, old(Now()), 0)
        decreases |table| - i
      {
        ghost var before := Now();
        FlushEntryKeepsSafe(site, before, i);
        if table[i].changed {
          PushEntry(table[i]);
          table := table[i := table[i].(changed := false)];
        }
        assert Now() == FlushEntry(site, before, i);
        i := i + 1;
      }
    }

    /** checks_flow_*_table_changes. */
    method CheckTableChanges() returns (crashed: bool)
      requires Valid()
      modifies this`table, this`pushes, digraph
      ensures crashed <==> WalkFails(old(digraph.Value()), kind, site.self, old(table), 0)
      ensures !crashed ==> Valid() && Now() == Pass(site, old(Now()))
    {
      hide Serve;
      hide ServeFails;
      hide Extends;
      hide TableOk;
      hide GoodNet;
      hide InSync;
      ghost var n := digraph.Value();
      crashed := false;
      var i := 0;
      while i < |table|
        invariant 0 <= i && Valid() && pushes == old(pushes)
        invariant Walk(digraph.Value(), kind, site.self, table, i) == Walk(n, kind, site.self, old(table), 0)
        invariant WalkFails(digraph.Value(), kind, site.self, table, i) <==>
                    WalkFails(n, kind, site.self, old(table), 0)
        decreases Waiting(table, i), |table| - i
      {
        if !table[i].changed {
          ghost var t := table;
          ServeExtends(digraph.Value(), kind, site.self, table, table[i].source, table[i].key);
          crashed := ServeEntry(table[i].source, table[i].key);
          if crashed {
            return;
          }
          WaitingShrinks(t, table, i);
        } else {
          MarkedIsSkipped(table, i);
        }
        i := i + 1;
      }
      ProcessTableChanges();
    }

    // ---------------------------------------------------------------- packets

    /** process_*_flow_request.  No current route is checked, so no header is read. */
    method ProcessRequest(s: Id, k: Id)
      requires Valid()
      modifies this`table, this`pushes, digraph
      ensures Valid() && Now() == Operate(site, digraph.metric, old(Now()), Request(s, k))
    {
      hide Serve;
      hide PushSetup;
      hide ServeFails;
      hide FlushFrom;
      hide TableOk;
      hide InSync;
      hide GoodNet;
      StepIsSafe(site, Now(), Ask(s, k));
      var i := FindEntry(s, k);
      if i >= 0 {
        if table[i].online {
          PushEntry(table[i]);
        }
      } else {
        FirstRequestNeverFails(digraph.Value(), kind, table, s, k);
        var crashed := ServeEntry(s, k);
        ProcessTableChanges();
      }
    }

    /** process_register_flowid: a new target, then a pass. */
    method RegisterTarget(f: Id, d: Id) returns (crashed: bool)
      requires Valid() && kind.ByFlow?
      modifies this, digraph
      ensures crashed <==> Crashes(site, digraph.metric, old(Now()), Registration(f, d))
      ensures !crashed ==> Valid() && Now() == Operate(site, digraph.metric, old(Now()), Registration(f, d))
    {
      hide Walk;
      hide WalkFails;
      hide FlushFrom;
      StepIsSafe(site, Now(), Register(f, d));
      if (f, d) !in kind.targets {
        kind := ByFlow(kind.targets + [(f, d)]);
      }
      crashed := CheckTableChanges();
    }

    /** The digraph part of a neighbour report and the pass of one table after it, if the report is noticed. */
    method ProcessReport(src: Id, ns: seq<Neighbor>) returns (crashed: bool)
      requires Valid()
      modifies this, digraph
      ensures crashed <==> Crashes(site, digraph.metric, old(Now()), NeighborReport(src, ns))
      ensures !crashed ==> Valid() && Now() == Operate(site, digraph.metric, old(Now()), NeighborReport(src, ns))
    {
      hide Report;
      hide Pass;
      hide WalkFails;
      hide TableOk;
      hide InSync;
      ReportKeepsGood(digraph.Value(), digraph.metric, src, ns);
      var changed := digraph.ProcessNeighborReport(src, ns);
      crashed := false;
      if changed {
        crashed := CheckTableChanges();
      }
    }
  }
}
