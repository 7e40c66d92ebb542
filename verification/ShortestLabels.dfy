/**
  When the labels of a finished search are shortest distances.
 */
module ShortestLabels {
  import opened Graphs
  import opened ShortestPath
  import opened SearchInvariant
  import opened SearchTree

  /** Every label is the weight of a shortest path: what Dijkstra's algorithm is for. */
  ghost predicate AllShortest(g: Graph, s: Search)
    requires s.settled != []
  {
    forall p {:trigger PathWeight(g, p)} ::
      IsPath(g, p) && p[0] == s.settled[0] ==> Label(s, p[|p| - 1]) <= PathWeight(g, p)
  }

  /**
    The i-th settled vertex has an edge back to a vertex settled no later whose label it would lower:
    exactly the update that the `visited == 0` guard of the scan suppresses.
   */
  ghost predicate Suppressed(g: Graph, s: Search, i: nat, n: nat)
    requires i < |s.settled| && n < |Out(g, s.settled[i])|
  {
    var e := Out(g, s.settled[i])[n];
    e.to in s.settled[..i + 1] && Label(s, s.settled[i]) + e.weight < Label(s, e.to)
  }

  ghost predicate NoneSuppressed(g: Graph, s: Search) {
    forall i: nat, n: nat {:trigger Suppressed(g, s, i, n)} ::
      i < |s.settled| && n < |Out(g, s.settled[i])| ==> !Suppressed(g, s, i, n)
  }

  /** The labels are shortest if and only if no label update was suppressed by the visited flag. */
  lemma ShortestIffNoneSuppressed(g: Graph, s: Search)
    requires Paused(g, s) && s.queue == []
    ensures AllShortest(g, s) <==> NoneSuppressed(g, s)
  {
    if NoneSuppressed(g, s) {
      forall p | IsPath(g, p) && p[0] == s.settled[0]
        ensures Label(s, p[|p| - 1]) <= PathWeight(g, p)
      {
        LabelBelowPath(g, s, p);
      }
    }
    if AllShortest(g, s) {
      forall i: nat, n: nat | i < |s.settled| && n < |Out(g, s.settled[i])|
        ensures !Suppressed(g, s, i, n)
      {
        ShortestSuppressesNone(g, s, i, n);
      }
    }
  }

  lemma ShortestSuppressesNone(g: Graph, s: Search, i: nat, n: nat)
    requires Paused(g, s) && AllShortest(g, s)
    requires i < |s.settled| && n < |Out(g, s.settled[i])|
    ensures !Suppressed(g, s, i, n)
  {
    var e := Out(g, s.settled[i])[n];
    var p := Chain(g, s, i);
    ChainIsPath(g, s, p);
    EdgeOfGraph(g, s.settled[i], e);
    PathSnoc(g, p, e.to);
    assert Label(s, e.to) <= PathWeight(g, p + [e.to]);
  }

  lemma {:induction false} LabelBelowPath(g: Graph, s: Search, p: seq<Id>)
    requires Paused(g, s) && s.queue == [] && NoneSuppressed(g, s)
    requires IsPath(g, p) && p[0] == s.settled[0]
    ensures Label(s, p[|p| - 1]) <= PathWeight(g, p)
  {
    if |p| > 1 {
      var q := p[..|p| - 1];
      PathPrefix(g, p, |p| - 1);
      LabelBelowPath(g, s, q);
      PathStaysSettled(g, s, q);
      var u, v := p[|p| - 2], p[|p| - 1];
      assert Hop(g, p, |p| - 2);
      var i :| 0 <= i < |s.settled| && s.settled[i] == u;
      var n :| 0 <= n < |Out(g, u)| && Out(g, u)[n] == FindEdge(Out(g, u), v).value;
      assert EdgeDone(g, s, i, n) && !Suppressed(g, s, i, n);
    }
  }

  // ---------------------------------------------------------------- pops of least label

  /** Every pop of the run from `s` removes a queued vertex of least label. */
  ghost predicate PopsLeast(g: Graph, s: Search)
    requires Paused(g, s)
    decreases Unsettled(g, s)
  {
    s.queue != [] ==>
      && (forall x :: x in s.queue ==> Label(s, s.queue[0]) <= Label(s, x))
      && (PopKeepsPaused(g, s); PopSettlesOneMore(g, s); PopsLeast(g, Pop(g, s)))
  }

  /** Labels rise in settling order, and nothing queued lies below the last settled vertex. */
  ghost predicate Rising(s: Search) {
    && s.settled != []
    && (forall i, j :: 0 <= i <= j < |s.settled| ==> Label(s, s.settled[i]) <= Label(s, s.settled[j]))
    && (forall x :: x in s.queue ==> Label(s, Last(s)) <= Label(s, x))
  }

  lemma RelaxKeepsRising(g: Graph, s: Search, e: Edge)
    requires Shape(g, s) && Rising(s) && e.weight > 0
    ensures Rising(Relax(s, Last(s), e))
  {
    RelaxLabels(g, s, Last(s), e);
    assert Placed(g, s, e.to);
    assert forall i :: 0 <= i < |s.settled| ==> s.settled[i] in s.settled;
  }

  lemma {:induction false} ScanKeepsRising(g: Graph, s: Search, k: nat, es: seq<Edge>)
    requires Inv(g, s, k) && k <= |Out(g, Last(s))| && es == Out(g, Last(s))[k..]
    requires Rising(s) && Positive(g)
    ensures Rising(Scan(s, Last(s), es))
    decreases |es|
  {
    if es != [] {
      var r := Relax(s, Last(s), es[0]);
      assert es[1..] == Out(g, Last(s))[k + 1..];
      assert Inv(g, r, k + 1) by {
        RelaxKeepsInv(g, s, k);
      }
      assert Rising(r) by {
        assert PositiveVertex(g, Last(s));
        RelaxKeepsRising(g, s, es[0]);
      }
      assert Last(r) == Last(s);
      ScanKeepsRising(g, r, k + 1, es[1..]);
    }
  }

  lemma LeastPopKeepsRising(g: Graph, s: Search)
    requires Paused(g, s) && s.queue != [] && Rising(s) && Positive(g)
    requires forall x :: x in s.queue ==> Label(s, s.queue[0]) <= Label(s, x)
    ensures Rising(Pop(g, s))
  {
    SettleKeepsInv(g, s);
    SettleKeepsRising(s);
    ScanKeepsRising(g, Settle(s), 0, Out(g, s.queue[0]));
  }

  lemma SettleKeepsRising(s: Search)
    requires s.queue != [] && Rising(s)
    requires forall x :: x in s.queue ==> Label(s, s.queue[0]) <= Label(s, x)
    ensures Rising(Settle(s))
  {
    assert forall x :: x in s.queue[1..] ==> x in s.queue;
    assert s.queue[0] in s.queue;
  }

  lemma StartRises(g: Graph, src: Id)
    requires WellFormed(g) && Positive(g) && src in g
    ensures Rising(Started(g, src))
  {
    SourceAloneKeepsInv(g, src);
    ScanKeepsRising(g, Search([src], map[], map[], []), 0, Out(g, src));
  }

  lemma {:induction false} RunRises(g: Graph, s: Search)
    requires Paused(g, s) && Rising(s) && Positive(g) && PopsLeast(g, s)
    ensures Rising(Run(g, s))
    decreases Unsettled(g, s)
  {
    if s.queue != [] {
      PopKeepsPaused(g, s);
      PopSettlesOneMore(g, s);
      LeastPopKeepsRising(g, s);
      RunRises(g, Pop(g, s));
    }
  }

  /** With positive weights and pops of least label, every label is a shortest distance. */
  lemma LeastPopsGiveShortest(g: Graph, src: Id)
    requires WellFormed(g) && Positive(g) && src in g
    requires PopsLeast(g, Started(g, src))
    ensures AllShortest(g, SearchFrom(g, src))
  {
    var f := SearchFrom(g, src);
    StartRises(g, src);
    RunRises(g, Started(g, src));
    RisingSuppressesNone(g, f);
    ShortestIffNoneSuppressed(g, f);
  }

  lemma RisingSuppressesNone(g: Graph, s: Search)
    requires Shape(g, s) && Rising(s) && Positive(g)
    ensures NoneSuppressed(g, s)
  {
    forall i: nat, n: nat | i < |s.settled| && n < |Out(g, s.settled[i])|
      ensures !Suppressed(g, s, i, n)
    {
      assert PositiveVertex(g, s.settled[i]);
      assert Out(g, s.settled[i])[n] in Out(g, s.settled[i]);
    }
  }
}
