/**
  Pushing table entries to the nodes (process_flow_*_table_changes, process_*_flow_setup, send_src_rtd_*).
  A push can fail: the controller may have no route to the node, no packet buffer or no place in the send
  queue.  The mark of the entry is cleared all the same.
 */
module SetupPushes {
  import opened Options
  import opened Graphs
  import opened Routes
  import opened NeighborReports
  import opened FlowTables
  import opened RouteUpdates
  import opened TableSafety

  datatype Setup = Setup(source: Id, key: Id, nextHop: Id, action: Action)

  function SetupOf(e: Entry): Setup {
    Setup(e.source, e.key, e.nextHop, e.action)
  }

  /** The setup tells the node of the entry what the entry says. */
  predicate Carries(m: Setup, e: Entry) {
    m.source == e.source && m.key == e.key && m.nextHop == e.nextHop && m.action == e.action
  }

  /** Two entries that say the same. */
  predicate SameSetup(e: Entry, f: Entry) {
    e.source == f.source && e.key == f.key && e.nextHop == f.nextHop && e.action == f.action
  }

  /** One push and whether its packet came into the send queue. */
  datatype Push = Push(setup: Setup, sent: bool)

  /** The controller with one of its two tables; `pushes` lists every push so far, successful or not. */
  datatype State = State(net: Net, kind: Kind, table: Table, pushes: seq<Push>)

  /** The address of the controller, and which pushes find a packet buffer and a place in the send queue. */
  datatype Site = Site(self: Id, room: nat -> bool)

  predicate Concerns(p: Push, s: Id, k: Id) {
    p.setup.source == s && p.setup.key == k
  }

  /** Index of the newest push for a source and key, or -1. */
  function LastPush(ps: seq<Push>, s: Id, k: Id): (i: int)
    ensures -1 <= i < |ps|
    ensures i >= 0 ==> Concerns(ps[i], s, k)
    ensures forall j :: i < j < |ps| ==> !Concerns(ps[j], s, k)
  {
    if ps == [] then -1
    else if Concerns(ps[|ps| - 1], s, k) then |ps| - 1
    else LastPush(ps[..|ps| - 1], s, k)
  }

  lemma LastPushSnoc(ps: seq<Push>, p: Push, s: Id, k: Id)
    ensures LastPush(ps + [p], s, k) == if Concerns(p, s, k) then |ps| else LastPush(ps, s, k)
  {
    assert (ps + [p])[..|ps|] == ps;
  }

  /** An entry not marked as changed is what was pushed last for its source and key. */
  ghost predicate Pushed(e: Entry, ps: seq<Push>) {
    !e.changed ==>
      var i := LastPush(ps, e.source, e.key);
      i >= 0 && Carries(ps[i].setup, e)
  }

  ghost predicate InSync(t: Table, ps: seq<Push>) {
    forall i :: 0 <= i < |t| ==> Pushed(t[i], ps)
  }

  // ---------------------------------------------------------------- table changes

  lemma {:induction false} InstallKeepsInSync(t: Table, self: Id, k: Id, r: Route, ps: seq<Push>)
    requires InSync(t, ps)
    ensures InSync(Install(t, self, k, r), ps)
    decreases |r|
  {
    if |r| >= 2 {
      InstallKeepsInSync(Put(t, self, r[1].id, k, r[0].id, Forward, r[1].weight, r[1].hops), self, k, r[1..], ps);
    }
  }

  lemma ConfigureKeepsInSync(g: Graph, t: Table, self: Id, k: Id, r: Route, ps: seq<Push>)
    requires r != [] && InSync(t, ps)
    ensures InSync(Configure(g, t, self, k, r), ps)
  {
    InstallKeepsInSync(t, self, k, r, ps);
    var i := Find(t, r[|r| - 1].id, k);
    if i >= 0 && !RouteLost(g, t, t[i]) {
      var u := t[i := t[i].(weight := PathWeight(g, Ids(Rebuild(t, t[i]).value)))];
      assert InSync(u, ps) by {
        assert Pushed(t[i], ps);
      }
      InstallKeepsInSync(u, self, k, r, ps);
    }
  }

  lemma ServeKeepsInSync(n: Net, kind: Kind, self: Id, t: Table, s: Id, k: Id, ps: seq<Push>)
    requires GoodNet(n) && InSync(t, ps)
    ensures InSync(Serve(n, kind, self, t, s, k).1, ps)
  {
    hide BestRoute;
    var (m, r) := BestRoute(n, s, Targets(kind, k), None);
    if r.Some? {
      ConfigureKeepsInSync(m.out, t, self, k, r.value, ps);
    }
  }

  lemma MarkKeepsInSync(t: Table, ps: seq<Push>, i: nat, e: Entry)
    requires i < |t| && InSync(t, ps) && SameSetup(e, t[i]) && e.changed == t[i].changed
    ensures InSync(t[i := e], ps)
  {
    assert Pushed(t[i], ps);
  }

  // ---------------------------------------------------------------- one push

  /** send_src_rtd_*: a setup for the controller itself needs no route, any other one a route to its node. */
  ghost function PushSetup(c: Site, n: Net, ps: seq<Push>, m: Setup): (Net, seq<Push>)
    requires GoodNet(n)
  {
    if m.source == c.self then (n, ps + [Push(m, c.room(|ps|))])
    else
      var (k, r) := OneTarget(n, c.self, m.source, None);
      (k, ps + [Push(m, r.Some? && c.room(|ps|))])
  }

  /** A push is sent exactly when the controller can reach the node and there is room for the packet. */
  lemma PushIsExact(c: Site, n: Net, ps: seq<Push>, m: Setup)
    requires GoodNet(n)
    ensures var (k, log) := PushSetup(c, n, ps, m);
            && GoodNet(k) && SameEdges(n.out, k.out)
            && log == ps + [Push(m, Reachable(n.out, c.self, m.source) && c.room(|ps|))]
  {
    if m.source == c.self {
      assert PathFromTo(n.out, [c.self], c.self, c.self);
    } else {
      OneTargetStep(n, c.self, m.source, None);
    }
  }

  /** Pushing an entry again, marked or not, keeps all entries in step. */
  lemma PushKeepsInSync(t: Table, ps: seq<Push>, i: nat, sent: bool)
    requires Unique(t) && i < |t| && InSync(t, ps)
    ensures InSync(t[i := t[i].(changed := false)], ps + [Push(SetupOf(t[i]), sent)])
    ensures InSync(t, ps + [Push(SetupOf(t[i]), sent)])
  {
    var p := Push(SetupOf(t[i]), sent);
    forall j | 0 <= j < |t| ensures Pushed(t[j], ps + [p]) && (j == i ==> Pushed(t[i].(changed := false), ps + [p])) {
      LastPushSnoc(ps, p, t[j].source, t[j].key);
      assert Pushed(t[j], ps);
      assert SameKey(t, i, j) ==> i == j;
    }
  }

  // ---------------------------------------------------------------- pushing all changes

  /** One iteration of process_flow_*_table_changes. */
  ghost function FlushEntry(c: Site, st: State, i: nat): State
    requires GoodNet(st.net)
  {
    if i < |st.table| && st.table[i].changed then
      var (k, log) := PushSetup(c, st.net, st.pushes, SetupOf(st.table[i]));
      st.(net := k, pushes := log, table := st.table[i := st.table[i].(changed := false)])
    else st
  }

  ghost predicate Safe(st: State) {
    GoodNet(st.net) && TableOk(st.kind, st.table) && InSync(st.table, st.pushes)
  }

  ghost predicate NoMarks(t: Table) {
    forall j :: 0 <= j < |t| ==> !t[j].changed
  }

  /** Clearing marks changes nothing else. */
  ghost predicate OnlyUnmarked(t: Table, u: Table) {
    |u| == |t| && forall j :: 0 <= j < |t| ==> u[j] == t[j].(changed := u[j].changed)
  }

  /** The pushes from `ps` on are sent exactly when the controller reaches the node and there is room. */
  ghost predicate ExactFrom(c: Site, g: Graph, ps: seq<Push>, log: seq<Push>) {
    && ps <= log
    && forall i :: |ps| <= i < |log| ==> (log[i].sent <==> Reachable(g, c.self, log[i].setup.source) && c.room(i))
  }

  lemma FlushEntryKeepsSafe(c: Site, st: State, i: nat)
    requires Safe(st)
    ensures var a := FlushEntry(c, st, i);
            && Safe(a) && a.kind == st.kind && SameEdges(st.net.out, a.net.out)
            && OnlyUnmarked(st.table, a.table) && ExactFrom(c, st.net.out, st.pushes, a.pushes)
            && (forall j :: 0 <= j < |st.table| ==> a.table[j].changed == (st.table[j].changed && j != i))
            && (if i < |st.table| && st.table[i].changed
                then |a.pushes| == |st.pushes| + 1 && Carries(a.pushes[|st.pushes|].setup, st.table[i])
                else a == st)
  {
    if i < |st.table| && st.table[i].changed {
      var e := st.table[i];
      PushIsExact(c, st.net, st.pushes, SetupOf(e));
      MarkKeepsTableOk(st.kind, st.table, i, e.(changed := false));
      PushKeepsInSync(st.table, st.pushes, i, Reachable(st.net.out, c.self, e.source) && c.room(|st.pushes|));
    }
  }

  /** process_flow_*_table_changes from position `i`. */
  ghost function FlushFrom(c: Site, st: State, i: nat): State
    requires Safe(st)
    decreases |st.table| - i
  {
    if i >= |st.table| then st
    else
      FlushEntryKeepsSafe(c, st, i);
      FlushFrom(c, FlushEntry(c, st, i), i + 1)
  }

  /** All marks are cleared, whether or not the pushes are sent. */
  lemma {:induction false} FlushClears(c: Site, st: State, i: nat)
    requires Safe(st)
    requires forall j :: 0 <= j < |st.table| && j < i ==> !st.table[j].changed
    ensures var x := FlushFrom(c, st, i);
            && Safe(x) && x.kind == st.kind && SameEdges(st.net.out, x.net.out)
            && OnlyUnmarked(st.table, x.table) && ExactFrom(c, st.net.out, st.pushes, x.pushes)
            && forall j :: 0 <= j < |x.table| ==> !x.table[j].changed
    decreases |st.table| - i
  {
    if i < |st.table| {
      hide FlushEntry;
      hide TableOk;
      hide InSync;
      hide GoodNet;
      hide ExactFrom;
      var a := FlushEntry(c, st, i);
      FlushEntryKeepsSafe(c, st, i);
      FlushClears(c, a, i + 1);
      var x := FlushFrom(c, a, i + 1);
      ExactJoin(c, st.net.out, a.net.out, st.pushes, a.pushes, x.pushes);
      assert forall v :: Out(st.net.out, v) == Out(a.net.out, v) == Out(x.net.out, v);
    } else {
      assert ExactFrom(c, st.net.out, st.pushes, st.pushes);
    }
  }

  lemma ExactJoin(c: Site, g: Graph, h: Graph, ps: seq<Push>, qs: seq<Push>, log: seq<Push>)
    requires SameEdges(g, h) && ExactFrom(c, g, ps, qs) && ExactFrom(c, h, qs, log)
    ensures ExactFrom(c, g, ps, log)
  {
    forall i | |ps| <= i < |log|
      ensures log[i].sent <==> Reachable(g, c.self, log[i].setup.source) && c.room(i)
    {
      SameEdgesSameReach(g, h, c.self, log[i].setup.source);
      assert i < |qs| ==> log[i] == qs[i];
    }
  }

  lemma OtherEntryOtherKey(st: State, i: nat, j: nat, p: Push)
    requires Safe(st) && i < |st.table| && j < |st.table| && Carries(p.setup, st.table[i])
    ensures Concerns(p, st.table[j].source, st.table[j].key) <==> i == j
  {
    assert SameKey(st.table, i, j) ==> i == j;
  }

  /** Exactly the marked entries are pushed. */
  lemma {:induction false} FlushPushesMarked(c: Site, st: State, i: nat, j: nat)
    requires Safe(st) && j < |st.table|
    ensures var x, e := FlushFrom(c, st, i), st.table[j];
            && st.pushes <= x.pushes
            && (LastPush(x.pushes, e.source, e.key) >= |st.pushes| <==> j >= i && e.changed)
    decreases |st.table| - i
  {
    hide FlushEntry;
    hide TableOk;
    hide InSync;
    hide GoodNet;
    hide Concerns;
    hide LastPush;
    if i < |st.table| {
      var a, n := FlushEntry(c, st, i), |st.pushes|;
      FlushEntryKeepsSafe(c, st, i);
      FlushPushesMarked(c, a, i + 1, j);
      var x := FlushFrom(c, a, i + 1);
      if st.table[i].changed {
        assert x.pushes[n] == a.pushes[n];
        OtherEntryOtherKey(st, i, j, x.pushes[n]);
      }
    } else {
      assert FlushFrom(c, st, i) == st;
    }
  }

  /** The marked entries from position `i` on, in list order. */
  ghost function MarkedFrom(t: Table, i: nat): seq<Entry>
    decreases |t| - i
  {
    if i >= |t| then [] else (if t[i].changed then [t[i]] else []) + MarkedFrom(t, i + 1)
  }

  /** The pushes behind `ps` carry the entries of `es`, one each and in their order. */
  ghost predicate PushesAll(ps: seq<Push>, log: seq<Push>, es: seq<Entry>) {
    && ps <= log && |log| == |ps| + |es|
    && forall j :: 0 <= j < |es| ==> Carries(log[|ps| + j].setup, es[j])
  }

  lemma {:induction false} MarkedUnchanged(t: Table, u: Table, i: nat)
    requires |u| == |t| && forall j :: i <= j < |t| ==> u[j] == t[j]
    ensures MarkedFrom(u, i) == MarkedFrom(t, i)
    decreases |t| - i
  {
    if i < |t| {
      MarkedUnchanged(t, u, i + 1);
    }
  }

  lemma PushesOneMore(ps: seq<Push>, a: seq<Push>, log: seq<Push>, e: Entry, es: seq<Entry>)
    requires PushesAll(ps, a, [e]) && PushesAll(a, log, es)
    ensures PushesAll(ps, log, [e] + es)
  {
    assert log[|ps|] == a[|ps|];
    forall j | 0 <= j < |es| + 1 ensures Carries(log[|ps| + j].setup, ([e] + es)[j]) {
      assert Carries(a[|ps| + 0].setup, [e][0]);
      assert j > 0 ==> log[|ps| + j] == log[|a| + (j - 1)] && ([e] + es)[j] == es[j - 1];
    }
  }

  /** Every marked entry is pushed once, in the order of the list. */
  lemma {:induction false} FlushPushesInOrder(c: Site, st: State, i: nat)
    requires Safe(st)
    ensures PushesAll(st.pushes, FlushFrom(c, st, i).pushes, MarkedFrom(st.table, i))
    decreases |st.table| - i
  {
    hide FlushEntry;
    hide TableOk;
    hide InSync;
    hide GoodNet;
    hide PushesAll;
    if i < |st.table| {
      var a := FlushEntry(c, st, i);
      FlushEntryKeepsSafe(c, st, i);
      FlushPushesInOrder(c, a, i + 1);
      MarkedLater(st.table, a.table, i);
      if st.table[i].changed {
        assert PushesAll(st.pushes, a.pushes, [st.table[i]]) by {
          OnePushed(c, st, i);
        }
        PushesOneMore(st.pushes, a.pushes, FlushFrom(c, a, i + 1).pushes, st.table[i], MarkedFrom(st.table, i + 1));
      } else {
        assert [] + MarkedFrom(st.table, i + 1) == MarkedFrom(st.table, i + 1);
      }
    } else {
      NonePushed(st.pushes);
    }
  }

  lemma NonePushed(ps: seq<Push>)
    ensures PushesAll(ps, ps, [])
  {
  }

  lemma OnePushed(c: Site, st: State, i: nat)
    requires Safe(st) && i < |st.table| && st.table[i].changed
    ensures PushesAll(st.pushes, FlushEntry(c, st, i).pushes, [st.table[i]])
  {
    FlushEntryKeepsSafe(c, st, i);
  }

  /** Taking the mark off one entry leaves the marked entries behind it as they are. */
  lemma MarkedLater(t: Table, u: Table, i: nat)
    requires OnlyUnmarked(t, u) && forall j :: 0 <= j < |t| ==> u[j].changed == (t[j].changed && j != i)
    ensures MarkedFrom(u, i + 1) == MarkedFrom(t, i + 1)
  {
    MarkedUnchanged(t, u, i + 1);
  }
}
