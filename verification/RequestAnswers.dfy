/**
  What the controller answers to a route request (process_control_flow_request, process_data_flow_request_packet):
  a known entry is pushed again exactly when it is online, an unknown one is made, pushed and delivers.
 */
module RequestAnswers {
  import opened Options
  import opened Graphs
  import opened Routes
  import opened NeighborReports
  import opened FlowTables
  import opened LoopFreedom
  import opened RouteUpdates
  import opened TableSafety
  import opened SetupPushes
  import opened ControllerRuns
  import opened RunSafety
  import opened UpdatePass
  import opened Operations
  import opened RouteReplacement

  /** Push number `i` tells the node what the entry says, and was sent if it could be. */
  ghost predicate PushesEntry(c: Site, g: Graph, ps: seq<Push>, i: int, e: Entry) {
    && 0 <= i < |ps| && Carries(ps[i].setup, e)
    && (ps[i].sent <==> Reachable(g, c.self, e.source) && c.room(i))
  }

  /** A request for an entry of the table: one push of it when it is online, nothing otherwise. */
  lemma KnownRequest(c: Site, metric: Metric, st: State, e: Entry)
    requires Safe(st) && GoodMetric(metric) && e in st.table
    ensures var x := Operate(c, metric, st, Request(e.source, e.key));
            && x.table == st.table && x.kind == st.kind && SameEdges(st.net.out, x.net.out)
            && (!e.online ==> x.pushes == st.pushes)
            && (e.online ==>
                  && st.pushes <= x.pushes && |x.pushes| == |st.pushes| + 1
                  && PushesEntry(c, st.net.out, x.pushes, |st.pushes|, e))
  {
    hide PushSetup;
    hide TableOk;
    hide InSync;
    hide Serve;
    hide FlushFrom;
    EntriesAreOk(st.kind, st.table);
    EntryLookup(st.table, e);
    PushIsExact(c, st.net, st.pushes, SetupOf(e));
  }

  /** The entry of `s` is new, and pushed as it is after everything pushed before. */
  ghost predicate MadeAndPushed(c: Site, st: State, x: State, s: Id, k: Id, e: Entry, i: int) {
    && e in x.table && e.source == s && e.key == k && i >= |st.pushes|
    && PushesEntry(c, st.net.out, x.pushes, i, e) && e.countdown == 60 && (e.online <==> s == c.self)
    && forall j :: i < j < |x.pushes| ==> !Concerns(x.pushes[j], s, k)
  }

  /** The entry forwards, and from its node the next hops lead over links to one of the targets. */
  ghost predicate LeadsToTarget(x: State, s: Id, k: Id, e: Entry) {
    e.action == Forward && exists d :: d in Targets(x.kind, k) && Delivers(x.net.out, x.table, k, d, s)
  }

  /** Just made: marked, with a full minute on the timer, and confirmed only at the controller itself. */
  ghost predicate Fresh(self: Id, e: Entry) {
    e.changed && e.countdown == 60 && (e.online <==> e.source == self)
  }

  /** The table before the pushes of a first request. */
  ghost predicate FirstTable(c: Site, st: State, y: State, s: Id, k: Id) {
    if exists d :: d in Targets(st.kind, k) && d != s && Reachable(st.net.out, s, d) then
      exists d, r ::
        d in Targets(st.kind, k) && IsRoute(y.net.out, s, d, r) && y.table == Install(st.table, c.self, k, r)
    else if st.kind.ByAddress? || k != 0 then
      exists w: int, h: nat :: y.table == Put(st.table, c.self, s, k, s, Drop, w, h)
    else y.table == st.table
  }

  lemma FirstAsk(c: Site, st: State, s: Id, k: Id)
    requires Safe(st) && Lookup(st.table, s, k) == None
    ensures var y := Step(c, st, Ask(s, k));
            && y.kind == st.kind && y.pushes == st.pushes && SameEdges(st.net.out, y.net.out)
            && FirstTable(c, st, y, s, k)
  {
    hide BestRoute;
    hide Install;
    hide Put;
    hide TableOk;
    hide InSync;
    var ts := Targets(st.kind, k);
    FreshRoute(st.net, s, ts);
    var (m, r) := BestRoute(st.net, s, ts, None);
    var y := Step(c, st, Ask(s, k));
    if r.Some? {
      var d :| d in ts && IsRoute(m.out, s, d, r.value);
      assert y.table == Install(st.table, c.self, k, r.value);
    }
  }

  lemma InstalledFirst(g: Graph, t: Table, self: Id, s: Id, k: Id, d: Id, r: Route)
    requires IsRoute(g, s, d, r) && Lookup(t, s, k) == None
    ensures var u := Install(t, self, k, r);
            && Lookup(u, s, k).Some? && Fresh(self, Lookup(u, s, k).value) && Lookup(u, s, k).value.action == Forward
            && Delivers(g, u, k, d, s)
  {
    hide Install;
    var u := Install(t, self, k, r);
    InstallReplaces(t, self, k, r);
    assert NewHop(t, u, self, k, r, |r| - 1);
    InstalledArrives(g, t, self, s, k, d, r, |r| - 1);
  }

  lemma FirstEntry(c: Site, st: State, y: State, s: Id, k: Id)
    requires FirstTable(c, st, y, s, k) && y.kind == st.kind && Lookup(st.table, s, k) == None
    ensures var o := Lookup(y.table, s, k);
            var found := Feasible(st.net.out, s, Targets(st.kind, k));
            && (o.Some? <==> found || st.kind.ByAddress? || k != 0)
            && (o.Some? ==> Fresh(c.self, o.value))
            && (found ==> LeadsToTarget(y, s, k, o.value))
            && (o.Some? && !found ==> o.value.action == Drop && o.value.nextHop == s)
  {
    hide Install;
    hide Put;
    hide Delivers;
    var t, u, ts := st.table, y.table, Targets(st.kind, k);
    if exists d :: d in ts && d != s && Reachable(st.net.out, s, d) {
      var d, r :| d in ts && IsRoute(y.net.out, s, d, r) && u == Install(t, c.self, k, r);
      InstalledFirst(y.net.out, t, c.self, s, k, d, r);
    } else if st.kind.ByAddress? || k != 0 {
      var w: int, h: nat :| u == Put(t, c.self, s, k, s, Drop, w, h);
      PutLookup(t, c.self, s, k, s, Drop, w, h, s, k);
    }
  }

  lemma UnmarkedDelivers(g: Graph, t: Table, u: Table, k: Id, d: Id, v: Id)
    requires OnlyUnmarked(t, u) && Delivers(g, t, k, d, v)
    ensures Delivers(g, u, k, d, v)
  {
    forall x: Id ensures Hop1(t, k, x) == Hop1(u, k, x) {
      UnmarkedSameHops(t, u, k, x);
    }
    var n: nat :| Arrives(g, t, k, d, v, n);
    StillDelivers(g, t, u, k, d, v, n);
  }

  /** The pushes after a first request, as far as the new entry goes. */
  lemma FirstIsPushed(c: Site, st: State, y: State, s: Id, k: Id) returns (e: Entry, i: int)
    requires Safe(y) && y.kind == st.kind && y.pushes == st.pushes && SameEdges(st.net.out, y.net.out)
    requires Lookup(y.table, s, k).Some? && Fresh(c.self, Lookup(y.table, s, k).value)
    ensures var x := FlushFrom(c, y, 0);
            && e == Lookup(y.table, s, k).value.(changed := false) && MadeAndPushed(c, st, x, s, k, e, i)
  {
    hide FlushFrom;
    hide TableOk;
    hide GoodNet;
    var x := FlushFrom(c, y, 0);
    var j := Find(y.table, s, k);
    FlushClears(c, y, 0);
    FlushPushesMarked(c, y, 0, j);
    e := x.table[j];
    i := LastPush(x.pushes, s, k);
    assert Pushed(e, x.pushes);
    SameEdgesSameReach(st.net.out, y.net.out, c.self, s);
  }

  lemma LeadsOnUnmarked(y: State, x: State, s: Id, k: Id, e: Entry, f: Entry)
    requires OnlyUnmarked(y.table, x.table) && SameEdges(y.net.out, x.net.out) && x.kind == y.kind
    requires LeadsToTarget(y, s, k, e) && f == e.(changed := false)
    ensures LeadsToTarget(x, s, k, f)
  {
    var d :| d in Targets(y.kind, k) && Delivers(y.net.out, y.table, k, d, s);
    var n: nat :| Arrives(y.net.out, y.table, k, d, s, n);
    SameEdgesSameArrival(y.net.out, x.net.out, y.table, k, d, s, n);
    UnmarkedDelivers(x.net.out, y.table, x.table, k, d, s);
  }

  /**
    A request for which the table has no entry.  An entry is made, and pushed last and as it is, exactly when
    some target other than the source can be reached or the key is not the flow to the controller.  In the first
    case its next hops lead over links to a target, in the other case it says DROP.
   */
  lemma FirstRequest(c: Site, metric: Metric, st: State, s: Id, k: Id) returns (e: Entry, i: int)
    requires Safe(st) && GoodMetric(metric)
    requires forall o :: o in st.table ==> o.source != s || o.key != k
    ensures var x := Operate(c, metric, st, Request(s, k));
            var found := exists d :: d in Targets(st.kind, k) && d != s && Reachable(st.net.out, s, d);
            && x.kind == st.kind && SameEdges(st.net.out, x.net.out) && NoMarks(x.table)
            && (if found || st.kind.ByAddress? || k != 0 then
                  && MadeAndPushed(c, st, x, s, k, e, i)
                  && (if found then LeadsToTarget(x, s, k, e) else e.action == Drop && e.nextHop == s)
                else OnlyUnmarked(st.table, x.table))
  {
    hide Step;
    hide FlushFrom;
    hide TableOk;
    hide GoodNet;
    hide InSync;
    hide FirstTable;
    hide Delivers;
    hide MadeAndPushed;
    var y, x := Step(c, st, Ask(s, k)), Operate(c, metric, st, Request(s, k));
    assert Lookup(st.table, s, k) == None;
    StepIsSafe(c, st, Ask(s, k));
    FirstAsk(c, st, s, k);
    FirstEntry(c, st, y, s, k);
    FlushClears(c, y, 0);
    assert SameEdges(st.net.out, x.net.out) by {
      assert forall v :: Out(st.net.out, v) == Out(y.net.out, v) == Out(x.net.out, v);
    }
    var o := Lookup(y.table, s, k);
    e, i := NewEntry(c.self, s, k, s, Drop, 0, 0), 0;
    if o.Some? {
      e, i := FirstIsPushed(c, st, y, s, k);
      if Feasible(st.net.out, s, Targets(st.kind, k)) {
        LeadsOnUnmarked(y, x, s, k, o.value, e);
      }
    } else {
      assert y.table == st.table by {
        NothingMade(c, st, y, s, k);
      }
    }
  }

  lemma NothingMade(c: Site, st: State, y: State, s: Id, k: Id)
    requires FirstTable(c, st, y, s, k) && y.kind == st.kind
    requires !Feasible(st.net.out, s, Targets(st.kind, k)) && !(st.kind.ByAddress? || k != 0)
    ensures y.table == st.table
  {
  }
}
