/**
  Which entries the controller takes for confirmed by their nodes, and when it pushes the others again
  (sdn_flow_*_table_set_online, sdn_reliability_timer_event).
 */
module Reliability {
  import opened Options
  import opened Graphs
  import opened Routes
  import opened NeighborReports
  import opened FlowTables
  import opened RouteUpdates
  import opened TableSafety
  import opened SetupPushes
  import opened ControllerRuns
  import opened RunSafety
  import opened RequestAnswers

  // ---------------------------------------------------------------- acknowledgements

  /** An acknowledgement confirms the entry that says the same, if there is one, and does nothing else. */
  lemma ConfirmIsExact(c: Site, st: State, m: Setup, j: nat)
    requires Safe(st) && j < |st.table|
    ensures var x := Step(c, st, Confirm(m));
            var e := st.table[j];
            && x.net == st.net && x.kind == st.kind && x.pushes == st.pushes && |x.table| == |st.table|
            && x.table[j] ==
               if e.source == m.source && e.key == m.key && e.nextHop == m.nextHop && e.action == m.action
               then e.(online := true) else e
  {
    FindAt(st.table, j);
  }

  /** The acknowledgements so far contain one of the setup that the entry stands for. */
  ghost predicate Acknowledged(h: seq<Event>, e: Entry) {
    exists n :: 0 <= n < |h| && h[n].Confirm? && Carries(h[n].setup, e)
  }

  /** Online without acknowledgement are the entries of the controller itself, and these always. */
  ghost predicate OnlineOk(self: Id, h: seq<Event>, e: Entry) {
    if e.source == self then e.online else e.online ==> Acknowledged(h, e)
  }

  /** An entry not yet confirmed is pushed again within one minute of its timer. */
  ghost predicate TimerOk(e: Entry) {
    !e.online ==> 1 <= e.countdown <= 60
  }

  ghost predicate EntryOk(self: Id, h: seq<Event>, e: Entry) {
    OnlineOk(self, h, e) && TimerOk(e)
  }

  ghost predicate AllOk(self: Id, h: seq<Event>, t: Table) {
    forall i :: 0 <= i < |t| ==> EntryOk(self, h, t[i])
  }

  lemma PutKeepsAllOk(self: Id, h: seq<Event>, t: Table, s: Id, k: Id, nextHop: Id, a: Action, w: int, hops: nat)
    requires AllOk(self, h, t)
    ensures AllOk(self, h, Put(t, self, s, k, nextHop, a, w, hops))
  {
    var i := Find(t, s, k);
    assert i >= 0 ==> EntryOk(self, h, t[i]);
  }

  lemma {:induction false} InstallKeepsAllOk(self: Id, h: seq<Event>, t: Table, k: Id, r: Route)
    requires AllOk(self, h, t)
    ensures AllOk(self, h, Install(t, self, k, r))
    decreases |r|
  {
    if |r| >= 2 {
      hide Put;
      PutKeepsAllOk(self, h, t, r[1].id, k, r[0].id, Forward, r[1].weight, r[1].hops);
      InstallKeepsAllOk(self, h, Put(t, self, r[1].id, k, r[0].id, Forward, r[1].weight, r[1].hops), k, r[1..]);
    }
  }

  lemma ServeKeepsAllOk(self: Id, h: seq<Event>, n: Net, kind: Kind, t: Table, s: Id, k: Id)
    requires GoodNet(n) && AllOk(self, h, t)
    ensures AllOk(self, h, Serve(n, kind, self, t, s, k).1)
  {
    hide BestRoute;
    hide Install;
    hide Put;
    var (m, r) := BestRoute(n, s, Targets(kind, k), None);
    PutKeepsAllOk(self, h, t, s, k, s, Drop, ROUTE_MAX_WEIGHT, ROUTE_MAX_HOPS);
    if r.Some? {
      var i := Find(t, r.value[|r.value| - 1].id, k);
      InstallKeepsAllOk(self, h, t, k, r.value);
      if i >= 0 && !RouteLost(m.out, t, t[i]) {
        var u := t[i := t[i].(weight := PathWeight(m.out, Ids(Rebuild(t, t[i]).value)))];
        assert EntryOk(self, h, t[i]) && AllOk(self, h, u);
        InstallKeepsAllOk(self, h, u, k, r.value);
      }
    }
  }

  lemma MoreHistory(self: Id, h: seq<Event>, e: Event, t: Table)
    requires AllOk(self, h, t)
    ensures AllOk(self, h + [e], t)
  {
    forall i | 0 <= i < |t| ensures EntryOk(self, h + [e], t[i]) {
      assert EntryOk(self, h, t[i]);
      if n :| 0 <= n < |h| && h[n].Confirm? && Carries(h[n].setup, t[i]) {
        assert (h + [e])[n] == h[n];
      }
    }
  }

  lemma StepKeepsAllOk(c: Site, h: seq<Event>, st: State, e: Event)
    requires Safe(st) && AllOk(c.self, h, st.table)
    ensures AllOk(c.self, h + [e], Step(c, st, e).table)
  {
    hide Serve;
    hide PushSetup;
    hide TableOk;
    hide InSync;
    MoreHistory(c.self, h, e, st.table);
    match e
    case Ask(s, k) =>
      ServeKeepsAllOk(c.self, h + [e], st.net, st.kind, st.table, s, k);
    case Recheck(i) =>
      if i < |st.table| {
        ServeKeepsAllOk(c.self, h + [e], st.net, st.kind, st.table, st.table[i].source, st.table[i].key);
      }
    case Flush(i) =>
      if i < |st.table| {
        assert EntryOk(c.self, h + [e], st.table[i]);
      }
    case Confirm(m) =>
      assert (h + [e])[|h|] == e;
      forall j | 0 <= j < |st.table| ensures EntryOk(c.self, h + [e], SetOnline(st.table, m)[j]) {
        assert EntryOk(c.self, h + [e], st.table[j]);
      }
    case Tick(i) =>
      if i < |st.table| {
        assert EntryOk(c.self, h + [e], st.table[i]);
        assert EntryOk(c.self, h + [e], TickEntry(c, st, i).table[i]);
      }
    case _ =>
  }

  lemma {:induction false} RunKeepsAllOk(c: Site, st: State, events: seq<Event>, n: nat)
    requires Safe(st) && st.table == [] && n <= |events|
    ensures AllOk(c.self, events[..n], Run(c, st, events[..n]).table)
  {
    hide Step;
    hide AllOk;
    if n == 0 {
      assert AllOk(c.self, events[..0], []) by {
        NothingYet(c.self, events[..0]);
      }
    } else {
      var before, e := events[..n - 1], events[n - 1];
      assert events[..n] == before + [e];
      RunKeepsAllOk(c, st, events, n - 1);
      RunIsSafe(c, st, before);
      RunSnoc(c, st, before, e);
      StepKeepsAllOk(c, before, Run(c, st, before), e);
    }
  }

  lemma NothingYet(self: Id, h: seq<Event>)
    ensures AllOk(self, h, [])
  {
  }

  /**
    In every state of every run: the entries of the controller itself are online; any other entry is online only
    if an acknowledgement has come that names the source, key, next hop and action it has now; and the timer of
    every entry that is not online stands between 1 and 60.
   */
  lemma OnlineWasConfirmed(c: Site, st: State, events: seq<Event>, e: Entry)
    requires Initial(st) && e in Run(c, st, events).table
    ensures e.source == c.self ==> e.online
    ensures e.source != c.self && e.online ==>
              exists n :: 0 <= n < |events| && events[n].Confirm? && Carries(events[n].setup, e)
    ensures !e.online ==> 1 <= e.countdown <= 60
  {
    InitialIsSafe(st);
    assert events[..|events|] == events;
    RunKeepsAllOk(c, st, events, |events|);
    var i :| 0 <= i < |Run(c, st, events).table| && Run(c, st, events).table[i] == e;
    assert EntryOk(c.self, events, Run(c, st, events).table[i]);
  }

  // ---------------------------------------------------------------- the retransmission timer

  /** One second of one entry: pushed and the timer set to 60 when it would reach zero offline, else counted down. */
  lemma TickIsExact(c: Site, st: State, i: nat)
    requires Safe(st) && i < |st.table|
    ensures var x, e := Step(c, st, Tick(i)), st.table[i];
            && Safe(x) && x.kind == st.kind && SameEdges(st.net.out, x.net.out) && |x.table| == |st.table|
            && (forall j :: 0 <= j < |st.table| && j != i ==> x.table[j] == st.table[j])
            && if !e.online && e.countdown == 1 then
                 && x.table[i] == e.(countdown := 60)
                 && st.pushes <= x.pushes && |x.pushes| == |st.pushes| + 1
                 && PushesEntry(c, st.net.out, x.pushes, |st.pushes|, e)
               else
                 && x.table[i] == e.(countdown := if e.countdown >= 0 then e.countdown - 1 else e.countdown)
                 && x.pushes == st.pushes
  {
    hide PushSetup;
    hide TableOk;
    hide InSync;
    var e := st.table[i];
    StepIsSafe(c, st, Tick(i));
    PushIsExact(c, st.net, st.pushes, SetupOf(e.(countdown := 0)));
  }

  ghost function Ticks(i: nat, n: nat): seq<Event> {
    if n == 0 then [] else [Tick(i)] + Ticks(i, n - 1)
  }

  /**
    An entry that is not confirmed and whose timer stands at `n` is pushed again with the `n`-th second and not
    before, and then its timer stands at 60.
   */
  lemma {:induction false} PushedAgain(c: Site, st: State, i: nat, n: nat, m: nat)
    requires Safe(st) && i < |st.table| && !st.table[i].online && st.table[i].countdown == n && 1 <= m <= n
    ensures var x, e := Run(c, st, Ticks(i, m)), st.table[i];
            && |x.table| == |st.table|
            && if m < n then x.pushes == st.pushes && x.table[i] == e.(countdown := n - m)
               else
                 && x.table[i] == e.(countdown := 60)
                 && st.pushes <= x.pushes && |x.pushes| == |st.pushes| + 1
                 && PushesEntry(c, st.net.out, x.pushes, |st.pushes|, e)
    decreases m
  {
    hide Step;
    hide Safe;
    var a := Step(c, st, Tick(i));
    TickIsExact(c, st, i);
    assert Ticks(i, m)[1..] == Ticks(i, m - 1);
    if m > 1 {
      PushedAgain(c, a, i, n - 1, m - 1);
      SameEdgesSameReach(st.net.out, a.net.out, c.self, st.table[i].source);
    } else {
      assert Run(c, a, []) == a;
    }
  }
}
