/**
  A digraph on which the search does not find a shortest path.
 */
module StaleQueue {
  import opened Options
  import opened Graphs
  import opened ShortestPath
  import opened SearchInvariant
  import opened ShortestLabels

  /** A-B 10, A-C 11, A-D 1, D-C 1, C-B 1 for the vertices 0 to 3, edges in the order they were added. */
  const STALE: Graph := map[
    0 := [Edge(1, 10, 10, EdgeNew), Edge(3, 1, 1, EdgeNew), Edge(2, 11, 11, EdgeNew)],
    1 := [],
    2 := [Edge(1, 1, 1, EdgeNew)],
    3 := [Edge(2, 1, 1, EdgeNew)]]

  const STALE_COST: map<Id, int> := map[1 := 10, 3 := 1, 2 := 2]
  const STALE_ROOT: map<Id, Id> := map[1 := 0, 3 := 0, 2 := 3]
  const STALE_1 := Search([0], map[1 := 10, 3 := 1, 2 := 11], map[1 := 0, 3 := 0, 2 := 0], [3, 1, 2])
  const STALE_2 := Search([0, 3], STALE_COST, STALE_ROOT, [1, 2])
  const STALE_3 := Search([0, 3, 1], STALE_COST, STALE_ROOT, [2])
  const STALE_4 := Search([0, 3, 1, 2], STALE_COST, STALE_ROOT, [])

  lemma StaleGraph()
    ensures WellFormed(STALE) && Positive(STALE)
  {
  }

  lemma StaleRelax()
    ensures var es := STALE[0];
            var a := Relax(Search([0], map[], map[], []), 0, es[0]);
            var b := Relax(a, 0, es[1]);
            && a == Search([0], map[1 := 10], map[1 := 0], [1])
            && b == Search([0], map[1 := 10, 3 := 1], map[1 := 0, 3 := 0], [3, 1])
  {
    assert map[1 := 10][3 := 1] == map[1 := 10, 3 := 1];
  }

  lemma StaleRelaxLast()
    ensures var b := Search([0], map[1 := 10, 3 := 1], map[1 := 0, 3 := 0], [3, 1]);
            Relax(b, 0, STALE[0][2]) == STALE_1
  {
    assert Push([3, 1], STALE_1.cost, 2) == [3] + Push([1], STALE_1.cost, 2);
  }

  lemma StaleStart()
    requires WellFormed(STALE)
    ensures Started(STALE, 0) == STALE_1
  {
    hide Relax;
    var es := STALE[0];
    var s0 := Search([0], map[], map[], []);
    var a := Search([0], map[1 := 10], map[1 := 0], [1]);
    var b := Search([0], map[1 := 10, 3 := 1], map[1 := 0, 3 := 0], [3, 1]);
    StaleRelax();
    StaleRelaxLast();
    assert es[1..][0] == es[1] && es[1..][1..] == [es[2]];
    assert Scan(s0, 0, es) == Scan(a, 0, es[1..]) == Scan(b, 0, [es[2]]) == Scan(STALE_1, 0, []);
  }

  lemma StaleFirstPop()
    ensures Pop(STALE, STALE_1) == STALE_2
  {
    var e := Edge(2, 1, 1, EdgeNew);
    assert Out(STALE, 3) == [e];
    assert Relax(Settle(STALE_1), 3, e) == STALE_2;
    assert Scan(Settle(STALE_1), 3, [e]) == Scan(STALE_2, 3, []);
  }

  lemma StaleSecondPop()
    ensures Pop(STALE, STALE_2) == STALE_3
  {
    assert Out(STALE, 1) == [];
  }

  lemma StaleThirdPop()
    ensures Pop(STALE, STALE_3) == STALE_4
  {
    var f := Edge(1, 1, 1, EdgeNew);
    assert Out(STALE, 2) == [f];
    assert Relax(STALE_4, 2, f) == STALE_4;
    assert Scan(STALE_4, 2, [f]) == Scan(STALE_4, 2, []);
  }

  lemma StaleRun()
    ensures WellFormed(STALE) && SearchFrom(STALE, 0) == STALE_4
    ensures !PopsLeast(STALE, Started(STALE, 0))
  {
    StaleGraph();
    hide Scan;
    hide Relax;
    StaleStart();
    StaleFirstPop();
    StaleSecondPop();
    StaleThirdPop();
    PopKeepsPaused(STALE, STALE_1);
    PopKeepsPaused(STALE, STALE_2);
    PopKeepsPaused(STALE, STALE_3);
    assert Run(STALE, STALE_1) == Run(STALE, STALE_2) == Run(STALE, STALE_3) == Run(STALE, STALE_4);
    assert 2 in STALE_2.queue && Label(STALE_2, 2) < Label(STALE_2, STALE_2.queue[0]);
    assert !PopsLeast(STALE, STALE_2);
  }

  /**
    Lowering the label of C does not move it ahead of B in the queue: B is settled at 10 although a
    path of weight 3 exists, so least pops cannot be dropped as a hypothesis.
   */
  lemma StaleQueueExample()
    ensures WellFormed(STALE) && Positive(STALE) && !PopsLeast(STALE, Started(STALE, 0))
    ensures Label(SearchFrom(STALE, 0), 1) == 10
    ensures PathFromTo(STALE, [0, 3, 2, 1], 0, 1) && PathWeight(STALE, [0, 3, 2, 1]) == 3
  {
    StaleGraph();
    StaleRun();
    StalePath();
  }

  lemma StalePath()
    ensures PathFromTo(STALE, [0, 3, 2, 1], 0, 1) && PathWeight(STALE, [0, 3, 2, 1]) == 3
  {
    var p1, p2, p3: seq<Id>, p4 := [0], [0, 3], [0, 3, 2], [0, 3, 2, 1];
    assert FindEdge(STALE[0], 3) == FindEdge(STALE[0][1..], 3) == Some(STALE[0][1]);
    assert IsPath(STALE, p1) && PathWeight(STALE, p1) == 0;
    assert p2 == p1 + [3];
    PathSnoc(STALE, p1, 3);
    assert p3 == p2 + [2];
    PathSnoc(STALE, p2, 2);
    assert p4 == p3 + [1];
    PathSnoc(STALE, p3, 1);
  }
}
