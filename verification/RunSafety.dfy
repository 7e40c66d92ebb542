/**
  Every run of the controller keeps the forwarding entries loop free and in step with what was pushed.
 */
module RunSafety {
  import opened Options
  import opened Graphs
  import opened NeighborReports
  import opened FlowTables
  import opened LoopFreedom
  import opened RouteUpdates
  import opened TableSafety
  import opened SetupPushes
  import opened ControllerRuns

  /** A new push of an entry, marked or not. */
  lemma ResendKeepsSafe(c: Site, st: State, i: nat)
    requires Safe(st) && i < |st.table|
    ensures Safe(Resend(c, st, st.table[i]))
  {
    PushIsExact(c, st.net, st.pushes, SetupOf(st.table[i]));
    PushKeepsInSync(st.table, st.pushes, i, Reachable(st.net.out, c.self, st.table[i].source) && c.room(|st.pushes|));
  }

  lemma NewTarget(ts: seq<(Id, Id)>, f: Id, d: Id, k: Id)
    ensures TargetsIn(ts + [(f, d)], k) == TargetsIn(ts, k) + (if f == k then [d] else [])
  {
    assert (ts + [(f, d)])[..|ts|] == ts;
  }

  lemma RegisterKeepsTableOk(ts: seq<(Id, Id)>, t: Table, f: Id, d: Id)
    requires TableOk(ByFlow(ts), t)
    ensures TableOk(ByFlow(ts + [(f, d)]), t)
  {
    forall k: Id ensures KeyOk(ByFlow(ts + [(f, d)]), t, k) {
      assert KeyOk(ByFlow(ts), t, k);
      NewTarget(ts, f, d, k);
      if Targets(ByFlow(ts), k) == [] {
        assert Loopfree(t, k, d);
      }
    }
  }

  /** The retransmission timer changes no route. */
  lemma TickKeepsSafe(c: Site, st: State, i: nat)
    requires Safe(st)
    ensures Safe(TickEntry(c, st, i)) && SameEdges(st.net.out, TickEntry(c, st, i).net.out)
    ensures forall k: Id, v: Id :: SameRoute(st.table, TickEntry(c, st, i).table, k, v)
  {
    if i < |st.table| {
      var u := TickEntry(c, st, i).table;
      MarkKeepsTableOk(st.kind, st.table, i, u[i]);
      MarkKeepsInSync(st.table, st.pushes, i, u[i]);
      forall k: Id, v: Id ensures SameRoute(st.table, u, k, v) {
        MarkKeepsRoutes(st.table, i, u[i], k, v);
      }
      ResendKeepsSafe(c, st.(table := u), i);
      PushIsExact(c, st.net, st.pushes, SetupOf(u[i]));
    }
  }

  lemma StepIsSafe(c: Site, st: State, e: Event)
    requires Safe(st)
    ensures Safe(Step(c, st, e))
  {
    match e
    case Ask(s, k) =>
      if Lookup(st.table, s, k).Some? {
        ResendKeepsSafe(c, st, Find(st.table, s, k));
      } else {
        ServeKeepsTableOk(st.net, st.kind, c.self, st.table, s, k);
        ServeKeepsInSync(st.net, st.kind, c.self, st.table, s, k, st.pushes);
      }
    case Recheck(i) =>
      if i < |st.table| {
        ServeKeepsTableOk(st.net, st.kind, c.self, st.table, st.table[i].source, st.table[i].key);
        ServeKeepsInSync(st.net, st.kind, c.self, st.table, st.table[i].source, st.table[i].key, st.pushes);
      }
    case Flush(i) =>
      FlushEntryKeepsSafe(c, st, i);
    case DigraphChanged(net) =>
    case Register(f, d) =>
      if st.kind.ByFlow? {
        RegisterKeepsTableOk(st.kind.targets, st.table, f, d);
      }
    case Confirm(m) =>
      var i := Find(st.table, m.source, m.key);
      if i >= 0 {
        MarkKeepsTableOk(st.kind, st.table, i, st.table[i].(online := true));
        MarkKeepsInSync(st.table, st.pushes, i, st.table[i].(online := true));
      }
    case Tick(i) =>
      TickKeepsSafe(c, st, i);
  }

  lemma InitialIsSafe(st: State)
    requires Initial(st)
    ensures Safe(st)
  {
    forall k: Id ensures KeyOk(st.kind, st.table, k) {
    }
  }

  lemma {:induction false} RunIsSafe(c: Site, st: State, events: seq<Event>)
    requires Safe(st)
    ensures Safe(Run(c, st, events))
    decreases |events|
  {
    if events != [] {
      StepIsSafe(c, st, events[0]);
      RunIsSafe(c, Step(c, st, events[0]), events[1..]);
    }
  }

  /**
    In every state of every run, for every key with one target: the target forwards nothing for it, every
    chain of next hops ends at the target or at a DROP entry, and none ever returns to a vertex.
   */
  lemma EveryRunIsLoopFree(c: Site, st: State, events: seq<Event>, k: Id, d: Id, v: Id, m: nat)
    requires Initial(st) && Targets(Run(c, st, events).kind, k) == [d]
    ensures var t := Run(c, st, events).table;
            && Hop1(t, k, d) == None
            && (Hop1(t, k, v).Some? ==> Ends(t, k, d, v))
            && (m > 0 && Forwards(t, k, v, m) ==> After(t, k, v, m) != v)
  {
    var x := Run(c, st, events);
    InitialIsSafe(st);
    RunIsSafe(c, st, events);
    assert KeyOk(x.kind, x.table, k);
    if m > 0 && Forwards(x.table, k, v, m) {
      NoChainReturns(x.table, k, d, v, m);
    }
  }

  // ---------------------------------------------------------------- what was pushed

  lemma PushedOnceMore(c: Site, st: State, m: Setup)
    requires GoodNet(st.net)
    ensures var log := PushSetup(c, st.net, st.pushes, m).1;
            ExactFrom(c, st.net.out, st.pushes, log) && |log| == |st.pushes| + 1
  {
    PushIsExact(c, st.net, st.pushes, m);
  }

  /** A step adds at most one push, and it is sent exactly when the node can be reached and there is room. */
  lemma StepPushesExactly(c: Site, st: State, e: Event)
    requires Safe(st)
    ensures ExactFrom(c, st.net.out, st.pushes, Step(c, st, e).pushes)
    ensures |Step(c, st, e).pushes| <= |st.pushes| + 1
  {
    hide Serve;
    hide PushSetup;
    hide TableOk;
    hide InSync;
    var a := Step(c, st, e).pushes;
    assert ExactFrom(c, st.net.out, st.pushes, st.pushes);
    match e
    case Ask(s, k) =>
      if Lookup(st.table, s, k).Some? {
        PushedOnceMore(c, st, SetupOf(Lookup(st.table, s, k).value));
      }
    case Flush(i) =>
      if i < |st.table| {
        PushedOnceMore(c, st, SetupOf(st.table[i]));
      }
    case Tick(i) =>
      if i < |st.table| {
        PushedOnceMore(c, st, SetupOf(TickEntry(c, st, i).table[i]));
      }
    case Recheck(_) => assert a == st.pushes;
    case _ =>
  }

  /**
    Push number `i` of a run: its packet came into the send queue exactly when the controller could reach
    the node in the digraph of the moment and there was room.
   */
  lemma {:induction false} PushesAreExact(c: Site, st: State, events: seq<Event>, i: nat) returns (n: nat)
    requires Safe(st) && |st.pushes| <= i < |Run(c, st, events).pushes|
    ensures n < |events| && |Run(c, st, events[..n]).pushes| == i && i < |Run(c, st, events[..n + 1]).pushes|
    ensures var p := Run(c, st, events).pushes[i];
            p.sent <==> Reachable(Run(c, st, events[..n]).net.out, c.self, p.setup.source) && c.room(i)
    decreases |events|
  {
    var a := Step(c, st, events[0]);
    StepIsSafe(c, st, events[0]);
    StepPushesExactly(c, st, events[0]);
    PushesGrow(c, a, events[1..]);
    if i < |a.pushes| {
      n := 0;
      assert events[..1][1..] == [] && events[..0] == [];
      assert Run(c, st, events[..1]) == a;
    } else {
      var m := PushesAreExact(c, a, events[1..], i);
      n := m + 1;
      assert events[..n][1..] == events[1..][..m] && events[..n + 1][1..] == events[1..][..m + 1];
    }
  }

  lemma {:induction false} PushesGrow(c: Site, st: State, events: seq<Event>)
    requires Safe(st)
    ensures st.pushes <= Run(c, st, events).pushes
    decreases |events|
  {
    if events != [] {
      StepIsSafe(c, st, events[0]);
      StepPushesExactly(c, st, events[0]);
      PushesGrow(c, Step(c, st, events[0]), events[1..]);
    }
  }

  /**
    In every state of every run an entry not marked as changed is what was pushed last for its source and
    key; that push happened at step `n`, and it was sent exactly when the controller could reach the node then
    and there was room.
   */
  lemma UnmarkedWasPushed(c: Site, st: State, events: seq<Event>, e: Entry) returns (i: nat, n: nat)
    requires Initial(st) && e in Run(c, st, events).table && !e.changed
    ensures var x := Run(c, st, events);
            && i == LastPush(x.pushes, e.source, e.key) && Carries(x.pushes[i].setup, e)
            && n < |events| && |Run(c, st, events[..n]).pushes| == i && i < |Run(c, st, events[..n + 1]).pushes|
            && (x.pushes[i].sent <==> Reachable(Run(c, st, events[..n]).net.out, c.self, e.source) && c.room(i))
  {
    var x := Run(c, st, events);
    InitialIsSafe(st);
    RunIsSafe(c, st, events);
    var j :| 0 <= j < |x.table| && x.table[j] == e;
    assert Pushed(x.table[j], x.pushes);
    i := LastPush(x.pushes, e.source, e.key);
    n := PushesAreExact(c, st, events, i);
  }
}
