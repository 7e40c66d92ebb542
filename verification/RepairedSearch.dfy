/**
  A repair of the search, not the code of controller-server/digraph/dijkstra.c: with positive weights every
  label is a shortest distance, whatever the digraph.
 */
module RepairedSearch {
  import opened Graphs
  import opened ShortestPath
  import opened SearchInvariant
  import opened ShortestLabels
  import opened RepairedRelax

  function ScanRepaired(s: Search, u: Id, es: seq<Edge>): (r: Search)
    ensures r.settled == s.settled
    decreases |es|
  {
    if es == [] then s else ScanRepaired(RelaxRepaired(s, u, es[0]), u, es[1..])
  }

  lemma {:induction false} ScanKeepsGood(g: Graph, s: Search, k: nat, es: seq<Edge>)
    requires Good(g, s, k) && k <= |Out(g, Last(s))| && es == Out(g, Last(s))[k..]
    ensures var r := ScanRepaired(s, Last(s), es); Good(g, r, |Out(g, Last(r))|)
    decreases |es|
  {
    if es != [] {
      RelaxKeepsGood(g, s, k);
      assert es[1..] == Out(g, Last(s))[k + 1..];
      ScanKeepsGood(g, RelaxRepaired(s, Last(s), es[0]), k + 1, es[1..]);
    }
  }

  function PopRepaired(g: Graph, s: Search): Search
    requires s.queue != []
  {
    ScanRepaired(Settle(s), s.queue[0], Out(g, s.queue[0]))
  }

  lemma PopKeepsGood(g: Graph, s: Search)
    requires s.settled != [] && Good(g, s, |Out(g, Last(s))|) && s.queue != []
    ensures var r := PopRepaired(g, s);
            && r.settled == s.settled + [s.queue[0]] && Good(g, r, |Out(g, Last(r))|)
            && Unsettled(g, r) < Unsettled(g, s)
  {
    forall x | x in s.queue ensures Label(s, s.queue[0]) <= Label(s, x) {
      var i :| 0 <= i < |s.queue| && s.queue[i] == x;
      assert InOrder(s, 0, i);
    }
    SettleKeepsInv(g, s);
    SettleKeepsRising(s);
    forall i, j ensures InOrder(Settle(s), i, j) {
      assert InOrder(s, i + 1, j + 1);
    }
    ScanKeepsGood(g, Settle(s), 0, Out(g, s.queue[0]));
    assert Placed(g, s, s.queue[0]);
    assert s.queue[0] in Unsettled(g, s);
  }

  function RunRepaired(g: Graph, s: Search): (r: Search)
    requires s.settled != [] && Good(g, s, |Out(g, Last(s))|)
    ensures Paused(g, r) && Rising(r) && r.queue == [] && r.settled[0] == s.settled[0]
    decreases Unsettled(g, s)
  {
    if s.queue == [] then s
    else
      PopKeepsGood(g, s);
      RunRepaired(g, PopRepaired(g, s))
  }

  lemma StartIsGood(g: Graph, src: Id)
    requires WellFormed(g) && Positive(g) && src in g
    ensures var r := ScanRepaired(Search([src], map[], map[], []), src, Out(g, src));
            r.settled == [src] && Good(g, r, |Out(g, Last(r))|)
  {
    var s := Search([src], map[], map[], []);
    SourceAloneKeepsInv(g, src);
    assert Sorted(s) by {
      forall i, j ensures InOrder(s, i, j) {
      }
    }
    ScanKeepsGood(g, s, 0, Out(g, src));
  }

  function SearchRepaired(g: Graph, src: Id): (r: Search)
    requires WellFormed(g) && Positive(g) && src in g
    ensures Paused(g, r) && r.queue == [] && r.settled[0] == src
  {
    StartIsGood(g, src);
    RunRepaired(g, ScanRepaired(Search([src], map[], map[], []), src, Out(g, src)))
  }

  /** The repaired search finds shortest distances on every digraph with positive weights. */
  lemma RepairedIsShortest(g: Graph, src: Id)
    requires WellFormed(g) && Positive(g) && src in g
    ensures AllShortest(g, SearchRepaired(g, src))
  {
    StartIsGood(g, src);
    var r := SearchRepaired(g, src);
    RisingSuppressesNone(g, r);
    ShortestIffNoneSuppressed(g, r);
  }
}
