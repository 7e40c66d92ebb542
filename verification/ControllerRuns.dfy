/**
  The controller as a state machine.  Its steps are single requests, single iterations of an update pass,
  single pushes, registrations, acknowledgements, retransmissions and arbitrary digraph changes, so that
  its runs contain every whole or partial pass and every interleaving of them.
 */
module ControllerRuns {
  import opened Graphs
  import opened NeighborReports
  import opened FlowTables
  import opened RouteUpdates
  import opened TableSafety
  import opened SetupPushes

  datatype Event =
    | Ask(source: Id, key: Id)
    | Recheck(index: nat)
    | Flush(index: nat)
    | DigraphChanged(net: Net)
    | Register(flowid: Id, target: Id)
    | Confirm(setup: Setup)
    | Tick(index: nat)

  /** sdn_flow_*_table_set_online. */
  function SetOnline(t: Table, m: Setup): Table {
    var i := Find(t, m.source, m.key);
    if i >= 0 && t[i].nextHop == m.nextHop && t[i].action == m.action then t[i := t[i].(online := true)] else t
  }

  /** The push of an entry that is not waiting to be pushed. */
  ghost function Resend(c: Site, st: State, e: Entry): State
    requires GoodNet(st.net)
  {
    var (k, log) := PushSetup(c, st.net, st.pushes, SetupOf(e));
    st.(net := k, pushes := log)
  }

  /** One entry of sdn_reliability_timer_event. */
  ghost function TickEntry(c: Site, st: State, i: nat): State
    requires GoodNet(st.net)
  {
    if i >= |st.table| then st
    else
      var t := st.table;
      var e := if t[i].countdown >= 0 then t[i].(countdown := t[i].countdown - 1) else t[i];
      if !e.online && e.countdown == 0 then Resend(c, st.(table := t[i := e.(countdown := RETRANSMIT_TIME)]), e)
      else st.(table := t[i := e])
  }

  /** One step; the digraph is always a good one (see RunSafety). */
  ghost function Step(c: Site, st: State, e: Event): State {
    if !GoodNet(st.net) then st
    else match e
    case Ask(s, k) =>
      var o := Lookup(st.table, s, k);
      if o.Some? then (if o.value.online then Resend(c, st, o.value) else st)
      else
        var (m, u) := Serve(st.net, st.kind, c.self, st.table, s, k);
        st.(net := m, table := u)
    case Recheck(i) =>
      if i < |st.table| then
        var (m, u) := Serve(st.net, st.kind, c.self, st.table, st.table[i].source, st.table[i].key);
        st.(net := m, table := u)
      else st
    case Flush(i) => FlushEntry(c, st, i)
    case DigraphChanged(net) => if GoodNet(net) then st.(net := net) else st
    case Register(f, d) =>
      if st.kind.ByFlow? && (f, d) !in st.kind.targets then st.(kind := ByFlow(st.kind.targets + [(f, d)])) else st
    case Confirm(m) => st.(table := SetOnline(st.table, m))
    case Tick(i) => TickEntry(c, st, i)
  }

  /** The empty controller, for either table. */
  ghost predicate Initial(st: State) {
    st.net == Net(map[], map[]) && (st.kind == ByAddress || st.kind == ByFlow([])) && st.table == [] && st.pushes == []
  }

  /** The state after a list of events.  The states of a run are those after the prefixes of its events. */
  ghost function Run(c: Site, st: State, events: seq<Event>): State
    decreases |events|
  {
    if events == [] then st else Run(c, Step(c, st, events[0]), events[1..])
  }

  lemma {:induction false} RunJoin(c: Site, st: State, a: seq<Event>, b: seq<Event>)
    ensures Run(c, st, a + b) == Run(c, Run(c, st, a), b)
    decreases |a|
  {
    if a == [] {
      assert a + b == b;
    } else {
      assert (a + b)[1..] == a[1..] + b;
      RunJoin(c, Step(c, st, a[0]), a[1..], b);
    }
  }

  lemma RunSnoc(c: Site, st: State, a: seq<Event>, e: Event)
    ensures Run(c, st, a + [e]) == Step(c, Run(c, st, a), e)
  {
    RunJoin(c, st, a, [e]);
  }

  lemma RunTwo(c: Site, st: State, e: Event, f: Event)
    ensures Run(c, st, [e]) == Step(c, st, e) && Run(c, st, [e, f]) == Step(c, Step(c, st, e), f)
  {
    assert [e][1..] == [] && [e] + [f] == [e, f];
    RunSnoc(c, st, [e], f);
  }

  lemma {:induction false} OnlyRegistrationsChangeTargets(c: Site, st: State, events: seq<Event>)
    requires forall e :: e in events ==> !e.Register?
    ensures Run(c, st, events).kind == st.kind
    decreases |events|
  {
    if events != [] {
      OnlyRegistrationsChangeTargets(c, Step(c, st, events[0]), events[1..]);
    }
  }
}
