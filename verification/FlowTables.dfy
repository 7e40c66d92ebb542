/**
  The controller's flow table cache (controller-server/sdn-flow-table-cache.c) as a value.  The table by
  address and the table by flow id have the same code; `key` is the target address in one and the flow
  id in the other.
 */
module FlowTables {
  import opened Options
  import opened Graphs
  import opened Routes

  datatype Action = Receive | Forward | Drop

  datatype Flag = RouteStatic | RouteNew | RouteUpdated

  datatype Entry = Entry(source: Id, key: Id, nextHop: Id, action: Action, weight: int, hops: nat,
                         flag: Flag, changed: bool, online: bool, countdown: int)

  /** The linked list from head to tail. */
  type Table = seq<Entry>

  const ROUTE_MAX_WEIGHT := 65535
  const ROUTE_MAX_HOPS := 65535
  const RETRANSMIT_TIME := 60

  predicate Matches(e: Entry, s: Id, k: Id) {
    e.source == s && e.key == k
  }

  /** Index of the first matching entry, or -1 for NULL. */
  function Find(t: Table, s: Id, k: Id): (i: int)
    ensures -1 <= i < |t|
    ensures i >= 0 ==> Matches(t[i], s, k) && forall j :: 0 <= j < i ==> !Matches(t[j], s, k)
    ensures i < 0 ==> forall j :: 0 <= j < |t| ==> !Matches(t[j], s, k)
  {
    if t == [] then -1
    else if Matches(t[0], s, k) then 0
    else var r := Find(t[1..], s, k); if r < 0 then -1 else r + 1
  }

  function Lookup(t: Table, s: Id, k: Id): Option<Entry> {
    var i := Find(t, s, k);
    if i < 0 then None else Some(t[i])
  }

  /** sdn_flow_*_table_new, with the reliability option of the controller build. */
  function NewEntry(self: Id, s: Id, k: Id, nextHop: Id, a: Action, w: int, h: nat): Entry {
    Entry(s, k, nextHop, a, w, h, RouteNew, true, s == self, RETRANSMIT_TIME)
  }

  /** The update of an existing entry: marked as changed only when next hop or action differ. */
  function Overwrite(e: Entry, self: Id, nextHop: Id, a: Action, w: int, h: nat): Entry {
    var f := if nextHop != e.nextHop || a != e.action
             then e.(nextHop := nextHop, action := a, flag := RouteUpdated, changed := true,
                     online := false, countdown := RETRANSMIT_TIME)
             else e;
    f.(weight := w, hops := h, online := f.online || e.source == self)
  }

  /** sdn_flow_*_table_add. */
  function Put(t: Table, self: Id, s: Id, k: Id, nextHop: Id, a: Action, w: int, h: nat): Table {
    var i := Find(t, s, k);
    if i < 0 then t + [NewEntry(self, s, k, nextHop, a, w, h)]
    else t[i := Overwrite(t[i], self, nextHop, a, w, h)]
  }

  /** The install loop: one entry per hop, target side first. */
  function Install(t: Table, self: Id, k: Id, r: Route): Table
    decreases |r|
  {
    if |r| < 2 then t
    else Install(Put(t, self, r[1].id, k, r[0].id, Forward, r[1].weight, r[1].hops), self, k, r[1..])
  }

  // ---------------------------------------------------------------- the table as a map

  ghost predicate SameKey(t: Table, i: int, j: int) {
    0 <= i < |t| && 0 <= j < |t| && t[i].source == t[j].source && t[i].key == t[j].key
  }

  ghost predicate Unique(t: Table) {
    forall i, j {:trigger SameKey(t, i, j)} :: SameKey(t, i, j) ==> i == j
  }

  lemma FindAt(t: Table, i: nat)
    requires Unique(t) && i < |t|
    ensures Find(t, t[i].source, t[i].key) == i
  {
    assert SameKey(t, Find(t, t[i].source, t[i].key), i);
  }

  lemma PutKeepsUnique(t: Table, self: Id, s: Id, k: Id, nextHop: Id, a: Action, w: int, h: nat)
    requires Unique(t)
    ensures Unique(Put(t, self, s, k, nextHop, a, w, h))
  {
    var r := Put(t, self, s, k, nextHop, a, w, h);
    forall i, j | SameKey(r, i, j) ensures i == j {
      if i < |t| && j < |t| {
        assert SameKey(t, i, j);
      }
    }
  }

  /** The entry `Put` leaves under its own key. */
  function PutEntry(t: Table, self: Id, s: Id, k: Id, nextHop: Id, a: Action, w: int, h: nat): Entry {
    var o := Lookup(t, s, k);
    if o.None? then NewEntry(self, s, k, nextHop, a, w, h) else Overwrite(o.value, self, nextHop, a, w, h)
  }

  lemma PutLookup(t: Table, self: Id, s: Id, k: Id, nextHop: Id, a: Action, w: int, h: nat, s': Id, k': Id)
    ensures Lookup(Put(t, self, s, k, nextHop, a, w, h), s', k') ==
            if s' == s && k' == k then Some(PutEntry(t, self, s, k, nextHop, a, w, h)) else Lookup(t, s', k')
  {
    var r := Put(t, self, s, k, nextHop, a, w, h);
    var i, j := Find(t, s', k'), Find(r, s', k');
    assert forall n :: 0 <= n < |t| ==> (Matches(r[n], s', k') <==> Matches(t[n], s', k'));
    if i >= 0 {
      assert Matches(r[i], s', k');
    } else if j >= 0 {
      assert j == |t|;
    } else if s' == s && k' == k {
      assert Matches(r[|t|], s', k');
    }
  }

  /** Nothing but next hop and action decides where a packet goes. */
  function Hop1(t: Table, k: Id, v: Id): Option<Id> {
    var o := Lookup(t, v, k);
    if o.Some? && o.value.action == Forward then Some(o.value.nextHop) else None
  }

  predicate Dropped(t: Table, k: Id, v: Id) {
    var o := Lookup(t, v, k);
    o.Some? && o.value.action != Forward
  }

  lemma {:induction false} InstallLookup(t: Table, self: Id, k: Id, r: Route, v: Id, k': Id)
    requires DistinctIds(r)
    ensures var n := Install(t, self, k, r);
            && (k' != k || (forall i :: 0 < i < |r| ==> r[i].id != v) ==> Lookup(n, v, k') == Lookup(t, v, k'))
            && (forall i :: 0 < i < |r| && r[i].id == v && k' == k ==>
                  Lookup(n, v, k) == Some(PutEntry(t, self, v, k, r[i - 1].id, Forward, r[i].weight, r[i].hops)))
    decreases |r|
  {
    if |r| >= 2 {
      var t1 := Put(t, self, r[1].id, k, r[0].id, Forward, r[1].weight, r[1].hops);
      PutLookup(t, self, r[1].id, k, r[0].id, Forward, r[1].weight, r[1].hops, v, k');
      forall i, j ensures DifferentIds(r[1..], i, j) {
        assert DifferentIds(r, i + 1, j + 1);
      }
      assert forall i :: 1 < i < |r| ==> DifferentIds(r, 1, i) && r[i].id != r[1].id;
      InstallLookup(t1, self, k, r[1..], v, k');
    }
  }

  lemma {:induction false} InstallKeepsUnique(t: Table, self: Id, k: Id, r: Route)
    requires Unique(t)
    ensures Unique(Install(t, self, k, r))
    decreases |r|
  {
    if |r| >= 2 {
      PutKeepsUnique(t, self, r[1].id, k, r[0].id, Forward, r[1].weight, r[1].hops);
      InstallKeepsUnique(Put(t, self, r[1].id, k, r[0].id, Forward, r[1].weight, r[1].hops), self, k, r[1..]);
    }
  }
}
