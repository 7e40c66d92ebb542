/**
  Controller discovery as a protocol: beacons in the air may be lost, delayed, duplicated and reordered, and
  nodes meet and forget neighbours at any time.
 */
module DiscoveryRuns {
  import opened Graphs
  import opened Discovery

  /** `hears` holds (u, v) when v can hear u; `wide` the nodes whose `int` has more than 16 bits. */
  datatype Radio = Radio(controllers: set<Id>, hears: set<(Id, Id)>, wide: set<Id>)

  datatype State = State(nodes: map<Id, Node>, air: multiset<Beacon>)

  datatype Event =
    | Send(node: Id)
    | Deliver(beacon: Beacon, to: Id)
    | Lose(beacon: Beacon)
    | Meet(node: Id, other: Id)
    | Forget(node: Id, other: Id)

  function WithoutNeighbor(s: seq<Id>, x: Id): (r: seq<Id>)
    ensures forall y :: y in r <==> y in s && y != x
  {
    if s == [] then [] else (if s[0] == x then [] else [s[0]]) + WithoutNeighbor(s[1..], x)
  }

  /** A delivered beacon stays in the air: it may reach further nodes, later, or the same node again. */
  function Step(r: Radio, st: State, e: Event): State {
    match e
    case Send(v) =>
      if v in st.nodes then
        st.(air := st.air + multiset{Beacon(v, st.nodes[v].metric, st.nodes[v].neighbors)})
      else st
    case Deliver(b, v) =>
      if b in st.air && v in st.nodes && (b.source, v) in r.hears then
        st.(nodes := st.nodes[v := Receive(v, st.nodes[v], b, v in r.wide)])
      else st
    case Lose(b) => st.(air := st.air - multiset{b})
    case Meet(v, w) =>
      if v in st.nodes && (w, v) in r.hears then
        st.(nodes := st.nodes[v := st.nodes[v].(neighbors := st.nodes[v].neighbors + [w])])
      else st
    case Forget(v, w) =>
      if v in st.nodes then
        st.(nodes := st.nodes[v := st.nodes[v].(neighbors := WithoutNeighbor(st.nodes[v].neighbors, w))])
      else st
  }

  predicate TwoWay(r: Radio, u: Id, v: Id) {
    (u, v) in r.hears && (v, u) in r.hears
  }

  /** A controller is at most `n` hops over two-way links away: the reference for the metric. */
  ghost predicate Within(r: Radio, v: Id, n: nat)
    decreases n
  {
    v in r.controllers || (n > 0 && exists u: Id :: TwoWay(r, u, v) && Within(r, u, n - 1))
  }

  lemma {:induction false} WithinMore(r: Radio, v: Id, n: nat, m: nat)
    requires Within(r, v, n) && n <= m
    ensures Within(r, v, m)
    decreases n
  {
    if v !in r.controllers {
      var u :| TwoWay(r, u, v) && Within(r, u, n - 1);
      WithinMore(r, u, n - 1, m - 1);
    }
  }

  ghost predicate ListedIsHeard(r: Radio, v: Id, ns: seq<Id>) {
    forall w :: w in ns ==> (w, v) in r.hears
  }

  /** The next hop is a two-way neighbour whose current metric is smaller. */
  ghost predicate Climbs(r: Radio, st: State, v: Id, n: Node) {
    n.nextHop in st.nodes && TwoWay(r, n.nextHop, v) && st.nodes[n.nextHop].metric < n.metric
  }

  ghost predicate NodeOk(r: Radio, st: State, v: Id)
    requires v in st.nodes
  {
    var n := st.nodes[v];
    && (v in r.controllers <==> n.metric == 0)
    && ListedIsHeard(r, v, n.neighbors)
    && (n.metric < MAX_METRIC ==> Within(r, v, n.metric))
    && (n.metric < MAX_METRIC && v !in r.controllers ==> Climbs(r, st, v, n))
  }

  /** A beacon never promises less than its sender has by now. */
  ghost predicate BeaconOk(r: Radio, st: State, b: Beacon) {
    && b.source in st.nodes && st.nodes[b.source].metric <= b.metric
    && ListedIsHeard(r, b.source, b.neighbors)
    && (b.metric < MAX_METRIC ==> Within(r, b.source, b.metric))
  }

  ghost predicate Inv(r: Radio, st: State) {
    && (forall v {:trigger NodeOk(r, st, v)} :: v in st.nodes ==> NodeOk(r, st, v))
    && (forall b {:trigger BeaconOk(r, st, b)} :: b in st.air ==> BeaconOk(r, st, b))
  }

  ghost predicate Falls(st: State, u: State) {
    st.nodes.Keys == u.nodes.Keys && forall v :: v in st.nodes ==> u.nodes[v].metric <= st.nodes[v].metric
  }

  /** One node changes, without raising its metric: everyone else is as well off as before. */
  lemma OneNodeChanges(r: Radio, st: State, v: Id, n: Node)
    requires Inv(r, st) && v in st.nodes && n.metric <= st.nodes[v].metric
    requires NodeOk(r, st.(nodes := st.nodes[v := n]), v)
    ensures Inv(r, st.(nodes := st.nodes[v := n]))
  {
    var u := st.(nodes := st.nodes[v := n]);
    forall x | x in u.nodes ensures NodeOk(r, u, x) {
      assert NodeOk(r, st, x);
    }
    forall b | b in u.air ensures BeaconOk(r, u, b) {
      assert BeaconOk(r, st, b);
    }
  }

  lemma DeliverKeepsInv(r: Radio, st: State, b: Beacon, v: Id)
    requires Inv(r, st) && b in st.air && v in st.nodes && (b.source, v) in r.hears
    ensures Inv(r, Step(r, st, Deliver(b, v)))
  {
    var n := Receive(v, st.nodes[v], b, v in r.wide);
    ReceiveIsPlain(v, st.nodes[v], b, v in r.wide);
    assert NodeOk(r, st, v) && BeaconOk(r, st, b);
    var u := st.(nodes := st.nodes[v := n]);
    assert NodeOk(r, u, v) by {
      if n != st.nodes[v] {
        assert TwoWay(r, b.source, v) && Within(r, b.source, b.metric);
        assert b.source != v;
        assert Climbs(r, u, v, n);
        assert v !in r.controllers;
      } else {
        assert u.nodes == st.nodes;
        assert Climbs(r, st, v, n) ==> Climbs(r, u, v, n);
      }
    }
    OneNodeChanges(r, st, v, n);
  }

  lemma StepKeepsInv(r: Radio, st: State, e: Event)
    requires Inv(r, st)
    ensures Inv(r, Step(r, st, e)) && Falls(st, Step(r, st, e))
  {
    match e
    case Send(v) =>
      if v in st.nodes {
        var u := Step(r, st, e);
        assert NodeOk(r, st, v);
        forall x | x in u.nodes ensures NodeOk(r, u, x) {
          assert NodeOk(r, st, x);
        }
        forall b | b in u.air ensures BeaconOk(r, u, b) {
          assert b in st.air ==> BeaconOk(r, st, b);
        }
      }
    case Deliver(b, v) =>
      if b in st.air && v in st.nodes && (b.source, v) in r.hears {
        DeliverKeepsInv(r, st, b, v);
        ReceiveIsPlain(v, st.nodes[v], b, v in r.wide);
      }
    case Lose(b) =>
      var u := Step(r, st, e);
      forall x | x in u.nodes ensures NodeOk(r, u, x) {
        assert NodeOk(r, st, x);
      }
      forall c | c in u.air ensures BeaconOk(r, u, c) {
        assert BeaconOk(r, st, c);
      }
    case Meet(v, w) =>
      if v in st.nodes && (w, v) in r.hears {
        NeighborsChange(r, st, v, st.nodes[v].neighbors + [w]);
      }
    case Forget(v, w) =>
      if v in st.nodes {
        assert NodeOk(r, st, v);
        NeighborsChange(r, st, v, WithoutNeighbor(st.nodes[v].neighbors, w));
      }
  }

  lemma NeighborsChange(r: Radio, st: State, v: Id, ns: seq<Id>)
    requires Inv(r, st) && v in st.nodes
    requires forall w :: w in ns && w !in st.nodes[v].neighbors ==> (w, v) in r.hears
    ensures Inv(r, st.(nodes := st.nodes[v := st.nodes[v].(neighbors := ns)]))
  {
    assert NodeOk(r, st, v);
    OneNodeChanges(r, st, v, st.nodes[v].(neighbors := ns));
  }

  // ---------------------------------------------------------------- runs

  /** symmcheck_cd_init on every node; the next hop starts out as whatever memory holds. */
  ghost predicate Initial(r: Radio, st: State) {
    && st.air == multiset{}
    && forall v :: v in st.nodes ==>
      st.nodes[v].metric == (if v in r.controllers then 0 else MAX_METRIC) && st.nodes[v].neighbors == []
  }

  ghost predicate IsRun(r: Radio, run: seq<State>, events: seq<Event>) {
    && |run| == |events| + 1 && Initial(r, run[0])
    && forall i {:trigger events[i]} :: 0 <= i < |events| ==> run[i + 1] == Step(r, run[i], events[i])
  }

  lemma {:induction false} EveryStateIsSound(r: Radio, run: seq<State>, events: seq<Event>, n: nat)
    requires IsRun(r, run, events) && n < |run|
    ensures Inv(r, run[n])
  {
    if n > 0 {
      EveryStateIsSound(r, run, events, n - 1);
      StepKeepsInv(r, run[n - 1], events[n - 1]);
    } else {
      forall v | v in run[0].nodes ensures NodeOk(r, run[0], v) {
      }
    }
  }

  lemma {:induction false} MetricsNeverIncrease(r: Radio, run: seq<State>, events: seq<Event>, m: nat, n: nat)
    requires IsRun(r, run, events) && m <= n < |run|
    ensures Falls(run[m], run[n])
    decreases n
  {
    if m < n {
      MetricsNeverIncrease(r, run, events, m, n - 1);
      EveryStateIsSound(r, run, events, n - 1);
      StepKeepsInv(r, run[n - 1], events[n - 1]);
    }
  }

  /** How often node `v` adopts a new metric in the first `n` steps. */
  ghost function Adoptions(run: seq<State>, v: Id, n: nat): nat
    requires n < |run| && forall i :: 0 <= i <= n ==> v in run[i].nodes
  {
    if n == 0 then 0
    else Adoptions(run, v, n - 1) + if run[n].nodes[v].metric != run[n - 1].nodes[v].metric then 1 else 0
  }

  /** Every adoption is paid for with metric, so a node adopts fewer than MAX_METRIC times in any run. */
  lemma {:induction false} AdoptionsAreBounded(r: Radio, run: seq<State>, events: seq<Event>, v: Id, n: nat)
    requires IsRun(r, run, events) && n < |run| && v in run[0].nodes && v !in r.controllers
    ensures forall i :: 0 <= i <= n ==> v in run[i].nodes
    ensures Adoptions(run, v, n) + run[n].nodes[v].metric <= MAX_METRIC
    ensures Adoptions(run, v, n) < MAX_METRIC
  {
    forall i | 0 <= i <= n ensures v in run[i].nodes {
      MetricsNeverIncrease(r, run, events, 0, i);
    }
    EveryStateIsSound(r, run, events, n);
    assert NodeOk(r, run[n], v);
    if n > 0 {
      AdoptionsAreBounded(r, run, events, v, n - 1);
      MetricsNeverIncrease(r, run, events, n - 1, n);
    }
  }

  // ---------------------------------------------------------------- next hops

  /** The node after `n` next hops, stopping at a controller. */
  ghost function Follow(r: Radio, st: State, v: Id, n: nat): Id
    decreases n
  {
    if n == 0 || v in r.controllers || v !in st.nodes then v else Follow(r, st, st.nodes[v].nextHop, n - 1)
  }

  /** Every hop lowers the metric by at least one until a controller is reached. */
  lemma {:induction false} FollowFalls(r: Radio, st: State, v: Id, n: nat)
    requires Inv(r, st) && v in st.nodes && st.nodes[v].metric < MAX_METRIC
    ensures var w := Follow(r, st, v, n);
            && w in st.nodes
            && (w in r.controllers || st.nodes[w].metric + n <= st.nodes[v].metric)
    decreases n
  {
    assert NodeOk(r, st, v);
    if n > 0 && v !in r.controllers {
      FollowFalls(r, st, st.nodes[v].nextHop, n - 1);
    }
  }

  /**
    In every state of every run, from every node with a finite metric, the next hops lead to a controller in
    at most as many hops as the metric says, and never back to the node itself.
   */
  lemma NextHopsReachController(r: Radio, run: seq<State>, events: seq<Event>, i: nat, v: Id, n: nat)
    requires IsRun(r, run, events) && i < |run| && v in run[i].nodes && run[i].nodes[v].metric < MAX_METRIC
    ensures Follow(r, run[i], v, run[i].nodes[v].metric) in r.controllers
    ensures n > 0 && v !in r.controllers ==> Follow(r, run[i], v, n) != v
  {
    var st := run[i];
    EveryStateIsSound(r, run, events, i);
    FollowFalls(r, st, v, st.nodes[v].metric);
    assert NodeOk(r, st, Follow(r, st, v, st.nodes[v].metric));
    FollowFalls(r, st, v, n);
  }

  // ---------------------------------------------------------------- metric and distance

  /** A fresh beacon of `u` that lists `v` would change nothing at `v`. */
  ghost predicate NothingNew(r: Radio, st: State, u: Id, v: Id) {
    u in st.nodes && v in st.nodes && TwoWay(r, u, v) ==>
      Receive(v, st.nodes[v], Beacon(u, st.nodes[u].metric, [v]), v in r.wide) == st.nodes[v]
  }

  ghost predicate Quiet(r: Radio, st: State) {
    forall u, v {:trigger NothingNew(r, st, u, v)} :: NothingNew(r, st, u, v)
  }

  /** Everybody the radio connects, and every controller, takes part. */
  ghost predicate AllPresent(r: Radio, st: State) {
    r.controllers <= st.nodes.Keys && forall u: Id, v: Id :: (u, v) in r.hears ==> u in st.nodes && v in st.nodes
  }

  lemma {:induction false} QuietIsComplete(r: Radio, st: State, v: Id, n: nat)
    requires Inv(r, st) && AllPresent(r, st) && Quiet(r, st) && Within(r, v, n) && n < MAX_METRIC
    ensures v in st.nodes && st.nodes[v].metric <= n
    decreases n
  {
    if v in r.controllers {
      assert NodeOk(r, st, v);
    } else {
      var u :| TwoWay(r, u, v) && Within(r, u, n - 1);
      QuietIsComplete(r, st, u, n - 1);
      assert NothingNew(r, st, u, v);
      ReceiveIsPlain(v, st.nodes[v], Beacon(u, st.nodes[u].metric, [v]), v in r.wide);
    }
  }

  /**
    In every state of every run a finite metric is backed by a two-way path of at most that many hops; in
    every quiet state the metric is exactly the hop distance, and MAX_METRIC where there is none below it.
   */
  lemma MetricIsHopDistance(r: Radio, run: seq<State>, events: seq<Event>, i: nat, v: Id, n: nat)
    requires IsRun(r, run, events) && i < |run| && v in run[i].nodes && n < MAX_METRIC
    ensures run[i].nodes[v].metric <= n ==> Within(r, v, n)
    ensures AllPresent(r, run[i]) && Quiet(r, run[i]) ==> (run[i].nodes[v].metric <= n <==> Within(r, v, n))
  {
    EveryStateIsSound(r, run, events, i);
    assert NodeOk(r, run[i], v);
    if run[i].nodes[v].metric <= n {
      WithinMore(r, v, run[i].nodes[v].metric, n);
    }
    if AllPresent(r, run[i]) && Quiet(r, run[i]) && Within(r, v, n) {
      QuietIsComplete(r, run[i], v, n);
    }
  }

  // ---------------------------------------------------------------- the distance can always be reached

  function AfterAll(r: Radio, st: State, events: seq<Event>): State
    decreases |events|
  {
    if events == [] then st else AfterAll(r, Step(r, st, events[0]), events[1..])
  }

  lemma {:induction false} AfterJoin(r: Radio, st: State, a: seq<Event>, b: seq<Event>)
    ensures AfterAll(r, st, a + b) == AfterAll(r, AfterAll(r, st, a), b)
    decreases |a|
  {
    if a == [] {
      assert a + b == b;
    } else {
      assert (a + b)[1..] == a[1..] + b;
      AfterJoin(r, Step(r, st, a[0]), a[1..], b);
    }
  }

  /** `u` meets `v`, sends a beacon and `v` gets it: then `v` is at most one hop farther away than `u`. */
  lemma OneBeacon(r: Radio, st: State, u: Id, v: Id) returns (events: seq<Event>)
    requires Inv(r, st) && u in st.nodes && v in st.nodes && TwoWay(r, u, v)
    ensures var x := AfterAll(r, st, events);
            Inv(r, x) && x.nodes.Keys == st.nodes.Keys && x.nodes[v].metric <= st.nodes[u].metric + 1
  {
    var a := Step(r, st, Meet(u, v));
    StepKeepsInv(r, st, Meet(u, v));
    var b := Step(r, a, Send(u));
    StepKeepsInv(r, a, Send(u));
    var beacon := Beacon(u, st.nodes[u].metric, st.nodes[u].neighbors + [v]);
    var x := Step(r, b, Deliver(beacon, v));
    StepKeepsInv(r, b, Deliver(beacon, v));
    assert beacon in b.air && v in beacon.neighbors;
    ReceiveIsPlain(v, b.nodes[v], beacon, v in r.wide);
    events := [Meet(u, v), Send(u), Deliver(beacon, v)];
    assert events[1..] == [Send(u), Deliver(beacon, v)] && events[1..][1..] == [Deliver(beacon, v)];
    assert events[1..][1..][1..] == [];
    assert AfterAll(r, x, []) == x;
    assert AfterAll(r, b, events[1..][1..]) == x;
    assert AfterAll(r, a, events[1..]) == x;
  }

  /**
    Whatever has been lost so far: from every sound state there are events after which a node within `n` hops of a
    controller has a metric of at most `n`, and so the exact distance if `n` is the least such number.
   */
  lemma {:induction false} DistanceIsReached(r: Radio, st: State, v: Id, n: nat) returns (events: seq<Event>)
    requires Inv(r, st) && AllPresent(r, st) && Within(r, v, n) && n < MAX_METRIC
    ensures var x := AfterAll(r, st, events);
            && Inv(r, x) && x.nodes.Keys == st.nodes.Keys && v in x.nodes && x.nodes[v].metric <= n
            && (n > 0 && !Within(r, v, n - 1) ==> x.nodes[v].metric == n)
    decreases n
  {
    if v in r.controllers {
      events := [];
      assert NodeOk(r, st, v);
    } else {
      var u :| TwoWay(r, u, v) && Within(r, u, n - 1);
      var before := DistanceIsReached(r, st, u, n - 1);
      var y := AfterAll(r, st, before);
      var more := OneBeacon(r, y, u, v);
      AfterJoin(r, st, before, more);
      events := before + more;
      var x := AfterAll(r, y, more);
      assert NodeOk(r, x, v);
      if !Within(r, v, n - 1) && x.nodes[v].metric < n {
        WithinMore(r, v, x.nodes[v].metric, n - 1);
      }
    }
  }
}
