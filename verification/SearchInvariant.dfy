/**
  What every step of the search keeps true, and the whole search from a source.
 */
module SearchInvariant {
  import opened Graphs
  import opened ShortestPath

  /** Where a vertex can be; the first settled vertex is the source. */
  ghost predicate Placed(g: Graph, s: Search, v: Id)
    requires s.settled != []
  {
    && (v in s.settled ==> v in g)
    && (v in s.queue ==> v in g && v in s.root && v !in s.settled)
    && (v in s.root ==> v in s.queue || v in s.settled)
    && (v in s.settled && v != s.settled[0] ==> v in s.root)
  }

  ghost predicate Shape(g: Graph, s: Search) {
    && s.settled != [] && NoDup(s.settled) && NoDup(s.queue)
    && s.settled[0] !in s.root
    && s.cost.Keys == s.root.Keys
    && (forall x :: x in s.queue ==> x in s.cost)
    && (forall v: Id {:trigger Placed(g, s, v)} :: Placed(g, s, v))
  }

  /** `v` hangs on an already settled parent by a real edge, and its label is exact. */
  ghost predicate Hangs(g: Graph, s: Search, v: Id)
    requires v in s.root
  {
    && s.root[v] in s.settled
    && HasEdge(g, s.root[v], v)
    && Label(s, v) == Label(s, s.root[v]) + EdgeWeight(g, s.root[v], v)
  }

  /** The parent of the j-th settled vertex was settled before it. */
  ghost predicate ParentEarlier(s: Search, j: nat)
    requires j < |s.settled|
  {
    s.settled[j] in s.root ==> s.root[s.settled[j]] in s.settled[..j]
  }

  ghost predicate Tree(g: Graph, s: Search) {
    && (forall v {:trigger Hangs(g, s, v)} :: v in s.root ==> Hangs(g, s, v))
    && (forall j {:trigger ParentEarlier(s, j)} :: 0 <= j < |s.settled| ==> ParentEarlier(s, j))
  }

  /** What scanning edge `n` of the i-th settled vertex has achieved. */
  ghost predicate EdgeDone(g: Graph, s: Search, i: nat, n: nat)
    requires i < |s.settled| && n < |Out(g, s.settled[i])|
  {
    var e := Out(g, s.settled[i])[n];
    && (e.to in s.settled || e.to in s.queue)
    && (e.to !in s.settled[..i + 1] ==> Label(s, e.to) <= Label(s, s.settled[i]) + e.weight)
  }

  /** All edges of earlier settled vertices are done, and the first `k` edges of the last one. */
  ghost predicate Scanned(g: Graph, s: Search, k: nat) {
    forall i: nat, n: nat {:trigger EdgeDone(g, s, i, n)} ::
      i < |s.settled| && n < |Out(g, s.settled[i])| && (i == |s.settled| - 1 ==> n < k) ==> EdgeDone(g, s, i, n)
  }

  ghost predicate Inv(g: Graph, s: Search, k: nat) {
    WellFormed(g) && Shape(g, s) && Tree(g, s) && Scanned(g, s, k)
  }

  function Last(s: Search): Id
    requires s.settled != []
  {
    s.settled[|s.settled| - 1]
  }

  /** The invariant between two pops. */
  ghost predicate Paused(g: Graph, s: Search) {
    s.settled != [] && Inv(g, s, |Out(g, Last(s))|)
  }

  lemma RelaxKeepsShape(g: Graph, s: Search, u: Id, e: Edge)
    requires WellFormed(g) && Shape(g, s) && u in s.settled && e in Out(g, u)
    ensures Shape(g, Relax(s, u, e))
  {
    var r := Relax(s, u, e);
    assert Placed(g, s, e.to) && Placed(g, s, u) && FineVertex(g, u);
    forall v: Id ensures Placed(g, r, v) {
      assert Placed(g, s, v);
    }
  }

  lemma RelaxLabels(g: Graph, s: Search, u: Id, e: Edge)
    requires Shape(g, s) && u in s.settled
    ensures var r := Relax(s, u, e);
            && (forall v :: v in s.settled ==> Label(r, v) == Label(s, v))
            && (forall v :: v != e.to ==> Label(r, v) == Label(s, v))
            && (forall v :: v in s.queue ==> v in r.queue)
            && (e.to in s.root ==> Label(r, e.to) <= Label(s, e.to))
            && (e.to in r.settled || e.to in r.queue)
            && (e.to !in s.settled ==> Label(r, e.to) <= Label(s, u) + e.weight)
  {
    assert Placed(g, s, e.to);
  }

  lemma RelaxKeepsTree(g: Graph, s: Search, u: Id, e: Edge)
    requires WellFormed(g) && Shape(g, s) && Tree(g, s) && u in s.settled && e in Out(g, u)
    ensures Tree(g, Relax(s, u, e))
  {
    RelaxLabels(g, s, u, e);
    EdgeOfGraph(g, u, e);
    var r := Relax(s, u, e);
    assert Placed(g, s, e.to);
    forall v | v in r.root ensures Hangs(g, r, v) {
      if v in s.root {
        assert Hangs(g, s, v);
      }
    }
    forall j | 0 <= j < |r.settled| ensures ParentEarlier(r, j) {
      assert ParentEarlier(s, j);
      assert s.settled[j] in s.settled;
    }
  }

  lemma RelaxKeepsScanned(g: Graph, s: Search, k: nat)
    requires Shape(g, s) && Scanned(g, s, k) && k < |Out(g, Last(s))|
    ensures Scanned(g, Relax(s, Last(s), Out(g, Last(s))[k]), k + 1)
  {
    var u := Last(s);
    var e0 := Out(g, u)[k];
    var r := Relax(s, u, e0);
    RelaxLabels(g, s, u, e0);
    forall i: nat, n: nat | i < |r.settled| && n < |Out(g, r.settled[i])| && (i == |r.settled| - 1 ==> n < k + 1)
      ensures EdgeDone(g, r, i, n)
    {
      assert s.settled[i] in s.settled;
      if i == |r.settled| - 1 && n == k {
        assert s.settled[..i + 1] == s.settled;
      } else {
        assert EdgeDone(g, s, i, n);
      }
    }
  }

  lemma RelaxKeepsInv(g: Graph, s: Search, k: nat)
    requires Inv(g, s, k) && k < |Out(g, Last(s))|
    ensures Inv(g, Relax(s, Last(s), Out(g, Last(s))[k]), k + 1)
  {
    RelaxKeepsShape(g, s, Last(s), Out(g, Last(s))[k]);
    RelaxKeepsTree(g, s, Last(s), Out(g, Last(s))[k]);
    RelaxKeepsScanned(g, s, k);
  }

  lemma {:induction false} ScanKeepsInv(g: Graph, s: Search, k: nat, es: seq<Edge>)
    requires Inv(g, s, k) && k <= |Out(g, Last(s))| && es == Out(g, Last(s))[k..]
    ensures Paused(g, Scan(s, Last(s), es))
    decreases |es|
  {
    if es != [] {
      var r := Relax(s, Last(s), es[0]);
      assert es[1..] == Out(g, Last(s))[k + 1..];
      assert Inv(g, r, k + 1) by {
        RelaxKeepsInv(g, s, k);
      }
      assert Last(r) == Last(s);
      ScanKeepsInv(g, r, k + 1, es[1..]);
    }
  }

  /** The state in which the popped vertex is visited but none of its edges is scanned. */
  function Settle(s: Search): Search
    requires s.queue != []
  {
    Search(s.settled + [s.queue[0]], s.cost, s.root, s.queue[1..])
  }

  lemma SettleKeepsShape(g: Graph, s: Search)
    requires Shape(g, s) && s.queue != []
    ensures Shape(g, Settle(s))
  {
    NoDupTail(s.queue);
    forall v: Id ensures Placed(g, Settle(s), v) {
      assert Placed(g, s, v);
    }
    assert forall x :: x in s.queue <==> x == s.queue[0] || x in s.queue[1..];
    assert Placed(g, s, s.queue[0]);
    NoDupAdd(s.queue[0], s.settled);
  }

  lemma SettleKeepsTree(g: Graph, s: Search)
    requires Shape(g, s) && Tree(g, s) && s.queue != []
    ensures Tree(g, Settle(s))
  {
    var r := Settle(s);
    forall v | v in r.root ensures Hangs(g, r, v) {
      assert Hangs(g, s, v);
    }
    forall j | 0 <= j < |r.settled| ensures ParentEarlier(r, j) {
      if j < |s.settled| {
        assert ParentEarlier(s, j);
        assert r.settled[..j] == s.settled[..j];
      } else {
        assert Hangs(g, s, r.settled[j]);
        assert r.settled[..j] == s.settled;
      }
    }
  }

  lemma SettleKeepsScanned(g: Graph, s: Search)
    requires Paused(g, s) && s.queue != []
    ensures Scanned(g, Settle(s), 0)
  {
    var r := Settle(s);
    forall i: nat, n: nat | i < |r.settled| && n < |Out(g, r.settled[i])| && (i == |r.settled| - 1 ==> n < 0)
      ensures EdgeDone(g, r, i, n)
    {
      assert EdgeDone(g, s, i, n);
      assert r.settled[..i + 1] == s.settled[..i + 1];
      var e := Out(g, r.settled[i])[n];
      if e.to in s.queue {
        assert e.to == s.queue[0] || e.to in s.queue[1..];
      }
    }
  }

  lemma SettleKeepsInv(g: Graph, s: Search)
    requires Paused(g, s) && s.queue != []
    ensures Inv(g, Settle(s), 0)
  {
    SettleKeepsShape(g, s);
    SettleKeepsTree(g, s);
    SettleKeepsScanned(g, s);
  }

  lemma PopKeepsPaused(g: Graph, s: Search)
    requires Paused(g, s) && s.queue != []
    ensures Paused(g, Pop(g, s))
    ensures Pop(g, s).settled == s.settled + [s.queue[0]]
  {
    SettleKeepsInv(g, s);
    ScanKeepsInv(g, Settle(s), 0, Out(g, s.queue[0]));
  }

  lemma SourceAloneKeepsInv(g: Graph, src: Id)
    requires WellFormed(g) && src in g
    ensures CLEAN.(settled := CLEAN.settled + [src]) == Search([src], map[], map[], [])
    ensures Inv(g, Search([src], map[], map[], []), 0)
  {
    var r := Search([src], map[], map[], []);
    forall v: Id ensures Placed(g, r, v) {
    }
    assert Scanned(g, r, 0);
  }

  lemma StartIsPaused(g: Graph, src: Id)
    requires WellFormed(g) && src in g
    ensures Paused(g, Visit(g, CLEAN, src)) && Visit(g, CLEAN, src).settled == [src]
  {
    SourceAloneKeepsInv(g, src);
    ScanKeepsInv(g, Search([src], map[], map[], []), 0, Out(g, src));
  }

  lemma PausedStaysInside(g: Graph, s: Search)
    requires Paused(g, s)
    ensures (set v | v in s.settled) <= g.Keys && s.root.Keys <= g.Keys
  {
    assert forall v: Id :: Placed(g, s, v) ==> (v in s.settled || v in s.root ==> v in g);
  }

  ghost function Unsettled(g: Graph, s: Search): set<Id> {
    g.Keys - (set x | x in s.settled)
  }

  lemma PopSettlesOneMore(g: Graph, s: Search)
    requires Paused(g, s) && s.queue != []
    ensures Unsettled(g, Pop(g, s)) < Unsettled(g, s)
  {
    PopKeepsPaused(g, s);
    assert Placed(g, s, s.queue[0]);
    assert s.queue[0] in Unsettled(g, s) && s.queue[0] !in Unsettled(g, Pop(g, s));
  }

  lemma RunOnce(g: Graph, s: Search)
    requires Paused(g, s) && s.queue != []
    ensures Paused(g, Pop(g, s)) && Run(g, Pop(g, s)) == Run(g, s)
    ensures Unsettled(g, Pop(g, s)) < Unsettled(g, s)
    ensures s.queue[0] in g
  {
    PopKeepsPaused(g, s);
    PopSettlesOneMore(g, s);
    assert Placed(g, s, s.queue[0]);
  }

  /** Pops and visits until the queue is empty. */
  function Run(g: Graph, s: Search): (r: Search)
    requires Paused(g, s)
    ensures Paused(g, r) && r.queue == [] && s.settled <= r.settled
    decreases Unsettled(g, s)
  {
    if s.queue == [] then s
    else
      PopKeepsPaused(g, s);
      PopSettlesOneMore(g, s);
      Run(g, Pop(g, s))
  }

  /** The state after the source has been visited. */
  function Started(g: Graph, src: Id): (r: Search)
    requires WellFormed(g) && src in g
    ensures Paused(g, r) && r.settled == [src]
  {
    StartIsPaused(g, src);
    Visit(g, CLEAN, src)
  }

  /** The whole search from `src`. */
  function SearchFrom(g: Graph, src: Id): (r: Search)
    requires WellFormed(g) && src in g
    ensures Paused(g, r) && r.queue == [] && r.settled[0] == src
  {
    Run(g, Started(g, src))
  }
}
