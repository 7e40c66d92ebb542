/**
  On digraphs whose edges all have one weight the queue never gets stale, so that labels are shortest.
 */
module EqualWeights {
  import opened Graphs
  import opened ShortestPath
  import opened SearchInvariant
  import opened ShortestLabels

  ghost predicate AllWeigh(g: Graph, w: int) {
    forall v: Id, e: Edge :: e in Out(g, v) ==> e.weight == w
  }

  ghost predicate QueuedUp(s: Search, i: int, j: int) {
    0 <= i <= j < |s.queue| ==> Label(s, s.queue[i]) <= Label(s, s.queue[j])
  }

  /** The queue is sorted and spans at most one edge weight above the last visited vertex. */
  ghost predicate Level(s: Search, w: int) {
    && s.settled != []
    && (forall i, j {:trigger QueuedUp(s, i, j)} :: QueuedUp(s, i, j))
    && (forall x :: x in s.queue ==> Label(s, Last(s)) <= Label(s, x) <= Label(s, Last(s)) + w)
  }

  lemma {:induction false} PushGoesLast(q: seq<Id>, cost: map<Id, int>, v: Id)
    requires forall x :: x in q ==> CostOf(cost, x) <= CostOf(cost, v)
    ensures Push(q, cost, v) == q + [v]
  {
    if q != [] {
      assert q[0] in q;
      PushGoesLast(q[1..], cost, v);
    }
  }

  /** A vertex already queued is never relabelled, and a new one goes to the end. */
  lemma RelaxKeepsLevel(g: Graph, s: Search, e: Edge, w: int)
    requires Shape(g, s) && Level(s, w) && e.weight == w && w > 0
    ensures Level(Relax(s, Last(s), e), w)
  {
    var u := Last(s);
    var r := Relax(s, u, e);
    RelaxLabels(g, s, u, e);
    assert Placed(g, s, e.to) && Placed(g, s, u) && u in s.settled;
    if e.to !in s.settled && e.to !in s.root {
      forall x | x in s.queue ensures Label(r, x) == Label(s, x) <= Label(r, e.to) {
        assert Placed(g, s, x);
      }
      PushGoesLast(s.queue, r.cost, e.to);
      QueuedLastKeepsLevel(s, r, e.to, w);
    }
  }

  lemma QueuedLastKeepsLevel(s: Search, r: Search, v: Id, w: int)
    requires Level(s, w) && r.settled == s.settled && r.queue == s.queue + [v]
    requires Label(r, Last(r)) == Label(s, Last(s)) && Label(r, v) == Label(r, Last(r)) + w && w > 0
    requires forall x :: x in s.queue ==> Label(r, x) == Label(s, x)
    ensures Level(r, w)
  {
    forall i, j ensures QueuedUp(r, i, j) {
      assert QueuedUp(s, i, j);
    }
  }

  lemma {:induction false} ScanKeepsLevel(g: Graph, s: Search, k: nat, es: seq<Edge>, w: int)
    requires Inv(g, s, k) && k <= |Out(g, Last(s))| && es == Out(g, Last(s))[k..]
    requires Level(s, w) && AllWeigh(g, w) && w > 0
    ensures Level(Scan(s, Last(s), es), w)
    decreases |es|
  {
    if es != [] {
      var r := Relax(s, Last(s), es[0]);
      assert es[1..] == Out(g, Last(s))[k + 1..];
      assert Inv(g, r, k + 1) by {
        RelaxKeepsInv(g, s, k);
      }
      assert Level(r, w) by {
        assert es[0] in Out(g, Last(s));
        RelaxKeepsLevel(g, s, es[0], w);
      }
      assert Last(r) == Last(s);
      ScanKeepsLevel(g, r, k + 1, es[1..], w);
    }
  }

  lemma PopKeepsLevel(g: Graph, s: Search, w: int)
    requires Paused(g, s) && s.queue != [] && Level(s, w) && AllWeigh(g, w) && w > 0
    ensures Level(Pop(g, s), w)
  {
    SettleKeepsInv(g, s);
    SettleKeepsLevel(s, w);
    ScanKeepsLevel(g, Settle(s), 0, Out(g, s.queue[0]), w);
  }

  lemma SettleKeepsLevel(s: Search, w: int)
    requires s.queue != [] && Level(s, w)
    ensures Level(Settle(s), w)
  {
    var r := Settle(s);
    assert s.queue[0] in s.queue;
    forall i, j ensures QueuedUp(r, i, j) {
      assert QueuedUp(s, i + 1, j + 1);
    }
    forall x | x in r.queue ensures Label(r, Last(r)) <= Label(r, x) <= Label(r, Last(r)) + w {
      var i :| 0 <= i < |r.queue| && r.queue[i] == x;
      assert QueuedUp(s, 0, i + 1) && s.queue[i + 1] == x;
    }
  }

  lemma {:induction false} LevelPopsLeast(g: Graph, s: Search, w: int)
    requires Paused(g, s) && Level(s, w) && AllWeigh(g, w) && w > 0
    ensures PopsLeast(g, s)
    decreases Unsettled(g, s)
  {
    if s.queue != [] {
      forall x | x in s.queue ensures Label(s, s.queue[0]) <= Label(s, x) {
        var i :| 0 <= i < |s.queue| && s.queue[i] == x;
        assert QueuedUp(s, 0, i);
      }
      PopKeepsPaused(g, s);
      PopSettlesOneMore(g, s);
      PopKeepsLevel(g, s, w);
      LevelPopsLeast(g, Pop(g, s), w);
    }
  }

  /** When all edges have the same positive weight, every pop takes a least label and every label is shortest. */
  lemma EqualWeightsGiveShortest(g: Graph, src: Id, w: int)
    requires WellFormed(g) && src in g && AllWeigh(g, w) && w > 0
    ensures Paused(g, Started(g, src)) && PopsLeast(g, Started(g, src))
    ensures AllShortest(g, SearchFrom(g, src))
  {
    assert Positive(g) by {
      forall v: Id ensures PositiveVertex(g, v) {
      }
    }
    SourceAloneKeepsInv(g, src);
    var s := Search([src], map[], map[], []);
    ScanKeepsLevel(g, s, 0, Out(g, src), w);
    LevelPopsLeast(g, Started(g, src), w);
    LeastPopsGiveShortest(g, src);
  }
}
