/**
  Following the next hops of one flow-table key: which chains end, where they end, and how installing a
  route or dropping an entry changes them.
 */
module LoopFreedom {
  import opened Options
  import opened Graphs
  import opened Routes
  import opened FlowTables

  /** From `v` the FORWARD entries lead in exactly `n` hops to the destination or to a DROP entry. */
  ghost predicate Leads(t: Table, k: Id, d: Id, v: Id, n: nat)
    decreases n
  {
    match Hop1(t, k, v)
    case None => n == 0 && (v == d || Dropped(t, k, v))
    case Some(x) => n > 0 && Leads(t, k, d, x, n - 1)
  }

  ghost predicate Ends(t: Table, k: Id, d: Id, v: Id) {
    exists n: nat :: Leads(t, k, d, v, n)
  }

  /** The FORWARD entries of key `k` are acyclic, end properly, and the destination holds none. */
  ghost predicate Loopfree(t: Table, k: Id, d: Id) {
    && Hop1(t, k, d) == None
    && forall v: Id {:trigger Ends(t, k, d, v)} :: Hop1(t, k, v).Some? ==> Ends(t, k, d, v)
  }

  /** The vertex after `n` hops, stopping where there is no FORWARD entry. */
  ghost function After(t: Table, k: Id, v: Id, n: nat): Id
    decreases n
  {
    if n == 0 || Hop1(t, k, v).None? then v else After(t, k, Hop1(t, k, v).value, n - 1)
  }

  lemma {:induction false} LeadsDropsByOne(t: Table, k: Id, d: Id, v: Id, n: nat, m: nat)
    requires Leads(t, k, d, v, n) && m <= n
    ensures Leads(t, k, d, After(t, k, v, m), n - m)
    decreases m
  {
    if m > 0 {
      LeadsDropsByOne(t, k, d, Hop1(t, k, v).value, n - 1, m - 1);
    }
  }

  lemma {:induction false} LeadsIsUnique(t: Table, k: Id, d: Id, v: Id, n: nat, m: nat)
    requires Leads(t, k, d, v, n) && Leads(t, k, d, v, m)
    ensures n == m
    decreases n
  {
    if Hop1(t, k, v).Some? {
      LeadsIsUnique(t, k, d, Hop1(t, k, v).value, n - 1, m - 1);
    }
  }

  /** The chain from `v` makes `m` hops. */
  ghost predicate Forwards(t: Table, k: Id, v: Id, m: nat) {
    forall j :: 0 <= j < m ==> Hop1(t, k, After(t, k, v, j)).Some?
  }

  /** In a loop-free table no chain of FORWARD entries ever comes back to where it started. */
  lemma NoChainReturns(t: Table, k: Id, d: Id, v: Id, m: nat)
    requires Loopfree(t, k, d) && m > 0 && Forwards(t, k, v, m)
    ensures After(t, k, v, m) != v
  {
    assert Hop1(t, k, After(t, k, v, 0)).Some?;
    assert Ends(t, k, d, v);
    var n: nat :| Leads(t, k, d, v, n);
    if n < m {
      LeadsDropsByOne(t, k, d, v, n, n);
      assert false;
    } else {
      LeadsDropsByOne(t, k, d, v, n, m);
      if After(t, k, v, m) == v {
        LeadsIsUnique(t, k, d, v, n, n - m);
      }
    }
  }

  // ---------------------------------------------------------------- changing a loop-free table

  /** Same next hop and same action. */
  ghost predicate SameRoute(t: Table, u: Table, k: Id, v: Id) {
    Hop1(t, k, v) == Hop1(u, k, v) && Dropped(t, k, v) == Dropped(u, k, v)
  }

  /** Chains that start at changed vertices end; then every chain that ended before still ends. */
  lemma {:induction false} ChainsStillEnd(t: Table, u: Table, k: Id, d: Id, v: Id, n: nat)
    requires Leads(t, k, d, v, n)
    requires forall x: Id {:trigger Ends(u, k, d, x)} :: SameRoute(t, u, k, x) || Ends(u, k, d, x)
    ensures Ends(u, k, d, v)
    decreases n
  {
    if !Ends(u, k, d, v) {
      assert SameRoute(t, u, k, v);
      if n == 0 {
        assert Leads(u, k, d, v, 0);
      } else {
        var x := Hop1(t, k, v).value;
        ChainsStillEnd(t, u, k, d, x, n - 1);
        var m: nat :| Leads(u, k, d, x, m);
        assert Leads(u, k, d, v, m + 1);
      }
      assert false;
    }
  }

  lemma ChangeKeepsLoopfree(t: Table, u: Table, k: Id, d: Id)
    requires Loopfree(t, k, d) && Hop1(u, k, d) == None
    requires forall x: Id {:trigger Ends(u, k, d, x)} :: SameRoute(t, u, k, x) || Ends(u, k, d, x)
    ensures Loopfree(u, k, d)
  {
    forall v: Id | Hop1(u, k, v).Some? ensures Ends(u, k, d, v) {
      if SameRoute(t, u, k, v) {
        assert Ends(t, k, d, v);
        var n: nat :| Leads(t, k, d, v, n);
        ChainsStillEnd(t, u, k, d, v, n);
      } else {
        assert Ends(u, k, d, v);
      }
    }
  }

  /** Setting one entry to DROP. */
  lemma DropKeepsLoopfree(t: Table, self: Id, s: Id, k: Id, d: Id)
    requires Loopfree(t, k, d)
    ensures Loopfree(Put(t, self, s, k, s, Drop, ROUTE_MAX_WEIGHT, ROUTE_MAX_HOPS), k, d)
  {
    var u := Put(t, self, s, k, s, Drop, ROUTE_MAX_WEIGHT, ROUTE_MAX_HOPS);
    forall x: Id ensures SameRoute(t, u, k, x) || Ends(u, k, d, x) {
      PutLookup(t, self, s, k, s, Drop, ROUTE_MAX_WEIGHT, ROUTE_MAX_HOPS, x, k);
      if x == s {
        assert Leads(u, k, d, x, 0);
      }
    }
    PutLookup(t, self, s, k, s, Drop, ROUTE_MAX_WEIGHT, ROUTE_MAX_HOPS, d, k);
    ChangeKeepsLoopfree(t, u, k, d);
  }

  lemma HeadStandsAlone(r: Route)
    requires DistinctIds(r)
    ensures forall j :: 0 < j < |r| ==> r[j].id != r[0].id
  {
    forall j | 0 < j < |r| ensures r[j].id != r[0].id {
      assert DifferentIds(r, 0, j);
    }
  }

  /** After an install the next hops along the route lead to its target in as many hops as the position says. */
  lemma {:induction false} InstalledLeads(t: Table, self: Id, k: Id, r: Route, i: nat)
    requires DistinctIds(r) && i < |r| && Hop1(t, k, r[0].id) == None
    ensures Leads(Install(t, self, k, r), k, r[0].id, r[i].id, i)
  {
    InstallLookup(t, self, k, r, r[i].id, k);
    if i > 0 {
      InstalledLeads(t, self, k, r, i - 1);
    } else {
      HeadStandsAlone(r);
    }
  }

  /** Installing any route over the entries of a loop-free key, whatever was there before. */
  lemma InstallKeepsLoopfree(t: Table, self: Id, k: Id, r: Route)
    requires |r| >= 1 && DistinctIds(r) && Loopfree(t, k, r[0].id)
    ensures Loopfree(Install(t, self, k, r), k, r[0].id)
  {
    var d, u := r[0].id, Install(t, self, k, r);
    forall x: Id ensures SameRoute(t, u, k, x) || Ends(u, k, d, x) {
      InstallLookup(t, self, k, r, x, k);
      if i :| 0 <= i < |r| && r[i].id == x {
        InstalledLeads(t, self, k, r, i);
      }
    }
    HeadStandsAlone(r);
    InstallLookup(t, self, k, r, d, k);
    ChangeKeepsLoopfree(t, u, k, d);
  }

  // ---------------------------------------------------------------- chains over existing edges

  /** The next hops from `v` reach `d` in `n` hops, each along an edge of the digraph. */
  ghost predicate Arrives(g: Graph, t: Table, k: Id, d: Id, v: Id, n: nat)
    decreases n
  {
    if v == d then n == 0
    else
      var x := Hop1(t, k, v);
      n > 0 && x.Some? && HasEdge(g, v, x.value) && Arrives(g, t, k, d, x.value, n - 1)
  }

  ghost predicate Delivers(g: Graph, t: Table, k: Id, d: Id, v: Id) {
    exists n: nat :: Arrives(g, t, k, d, v, n)
  }

  lemma {:induction false} ArrivesIsReachable(g: Graph, t: Table, k: Id, d: Id, v: Id, n: nat)
    requires Arrives(g, t, k, d, v, n)
    ensures Reachable(g, v, d)
    decreases n
  {
    if v == d {
      assert PathFromTo(g, [v], v, d);
    } else {
      ArrivesIsReachable(g, t, k, d, Hop1(t, k, v).value, n - 1);
      ReachStep(g, v, Hop1(t, k, v).value, d);
    }
  }

  /** Deliveries survive a change as long as every changed vertex delivers or was on no delivering chain. */
  lemma {:induction false} StillDelivers(g: Graph, t: Table, u: Table, k: Id, d: Id, v: Id, n: nat)
    requires Arrives(g, t, k, d, v, n)
    requires forall x: Id {:trigger Delivers(g, u, k, d, x)} ::
      Hop1(t, k, x) == Hop1(u, k, x) || Delivers(g, u, k, d, x) || !Reachable(g, x, d)
    ensures Delivers(g, u, k, d, v)
    decreases n
  {
    ArrivesIsReachable(g, t, k, d, v, n);
    if v == d {
      assert Arrives(g, u, k, d, v, 0);
    } else if !Delivers(g, u, k, d, v) {
      var x := Hop1(t, k, v).value;
      StillDelivers(g, t, u, k, d, x, n - 1);
      var m: nat :| Arrives(g, u, k, d, x, m);
      assert Arrives(g, u, k, d, v, m + 1);
      assert false;
    }
  }

  lemma {:induction false} InstalledArrives(g: Graph, t: Table, self: Id, s: Id, k: Id, d: Id, r: Route, i: nat)
    requires IsRoute(g, s, d, r) && i < |r|
    ensures Arrives(g, Install(t, self, k, r), k, d, r[i].id, i)
  {
    if i > 0 {
      InstallLookup(t, self, k, r, r[i].id, k);
      assert DifferentIds(r, 0, i) && RouteHop(g, r, i);
      InstalledArrives(g, t, self, s, k, d, r, i - 1);
    }
  }

  // ---------------------------------------------------------------- paths through the table

  /** Consecutive vertices of `p` are joined by the next hops of the table. */
  ghost predicate TableHop(t: Table, k: Id, p: seq<Id>, i: int) {
    0 <= i < |p| - 1 ==> Hop1(t, k, p[i]) == Some(p[i + 1])
  }

  ghost predicate FollowsTable(t: Table, k: Id, p: seq<Id>) {
    forall i {:trigger TableHop(t, k, p, i)} :: TableHop(t, k, p, i)
  }

  lemma TableTail(t: Table, k: Id, p: seq<Id>)
    requires FollowsTable(t, k, p) && |p| >= 2
    ensures FollowsTable(t, k, p[1..]) && Hop1(t, k, p[0]) == Some(p[1])
  {
    assert TableHop(t, k, p, 0);
    forall i ensures TableHop(t, k, p[1..], i) {
      assert TableHop(t, k, p, i + 1);
    }
  }

  /** A table path in a loop-free key that stops at a vertex without entry has come to the destination. */
  lemma {:induction false} TablePathEnds(t: Table, k: Id, d: Id, p: seq<Id>, n: nat)
    requires p != [] && FollowsTable(t, k, p) && Leads(t, k, d, p[0], n)
    requires Lookup(t, p[|p| - 1], k) == None
    ensures p[|p| - 1] == d
    decreases |p|
  {
    if |p| >= 2 {
      TableTail(t, k, p);
      TablePathEnds(t, k, d, p[1..], n - 1);
    }
  }

  /** A table path over existing edges to a destination that forwards nothing delivers. */
  lemma {:induction false} TablePathArrives(g: Graph, t: Table, k: Id, d: Id, p: seq<Id>)
    requires p != [] && FollowsTable(t, k, p) && IsPath(g, p)
    requires p[|p| - 1] == d && Hop1(t, k, d) == None
    ensures Arrives(g, t, k, d, p[0], |p| - 1)
    decreases |p|
  {
    if |p| >= 2 {
      TableTail(t, k, p);
      assert Hop(g, p, 0);
      forall i ensures Hop(g, p[1..], i) {
        assert Hop(g, p, i + 1);
      }
      TablePathArrives(g, t, k, d, p[1..]);
    }
  }
}
