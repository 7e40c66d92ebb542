/**
  A repair of the relaxation, not the code of controller-server/digraph/dijkstra.c: when relaxing lowers the
  label of a vertex that is already queued, the vertex is taken out of the queue and pushed again.
 */
module RepairedRelax {
  import opened Graphs
  import opened ShortestPath
  import opened SearchInvariant
  import opened ShortestLabels

  function Unqueued(q: seq<Id>, v: Id): (r: seq<Id>)
    ensures forall x :: x in r <==> x in q && x != v
    ensures NoDup(q) ==> NoDup(r)
  {
    if q == [] then []
    else
      assert NoDup(q) ==> NoDup(q[1..]) && q[0] !in q[1..] by {
        if NoDup(q) {
          NoDupTail(q);
        }
      }
      var rest := Unqueued(q[1..], v);
      if q[0] == v then rest
      else
        assert NoDup(q) ==> NoDup([q[0]] + rest) by {
          if NoDup(q) {
            NoDupAdd(q[0], rest);
          }
        }
        [q[0]] + rest
  }

  predicate Lowers(s: Search, u: Id, e: Edge) {
    e.to !in s.settled && e.to in s.root && Label(s, u) + e.weight < Label(s, e.to)
  }

  function RelaxRepaired(s: Search, u: Id, e: Edge): Search {
    var r := Relax(s, u, e);
    if Lowers(s, u, e) then r.(queue := Push(Unqueued(r.queue, e.to), r.cost, e.to)) else r
  }

  ghost predicate InOrder(s: Search, i: int, j: int) {
    0 <= i < j < |s.queue| ==> Label(s, s.queue[i]) <= Label(s, s.queue[j])
  }

  ghost predicate Sorted(s: Search) {
    forall i, j {:trigger InOrder(s, i, j)} :: InOrder(s, i, j)
  }

  /** Pushing into a sorted queue keeps it sorted. */
  lemma {:induction false} PushKeepsSorted(s: Search, q: seq<Id>, v: Id)
    requires Sorted(s.(queue := q))
    ensures Sorted(s.(queue := Push(q, s.cost, v)))
    decreases |q|
  {
    var r := Push(q, s.cost, v);
    if q != [] && !(Label(s, v) < Label(s, q[0])) {
      var rest := Push(q[1..], s.cost, v);
      forall i, j ensures InOrder(s.(queue := q[1..]), i, j) {
        assert InOrder(s.(queue := q), i + 1, j + 1);
      }
      PushKeepsSorted(s, q[1..], v);
      forall i, j ensures InOrder(s.(queue := r), i, j) {
        assert InOrder(s.(queue := rest), i - 1, j - 1);
        if 0 == i < j < |r| && rest[j - 1] != v {
          assert rest[j - 1] in rest && rest[j - 1] in q[1..];
          var k :| 0 <= k < |q| - 1 && q[1..][k] == rest[j - 1];
          assert InOrder(s.(queue := q), 0, k + 1);
        }
      }
    } else {
      forall i, j ensures InOrder(s.(queue := r), i, j) {
        assert InOrder(s.(queue := q), i - 1, j - 1) && InOrder(s.(queue := q), 0, j - 1);
      }
    }
  }

  lemma {:induction false} UnqueuedKeepsSorted(s: Search, q: seq<Id>, v: Id)
    requires Sorted(s.(queue := q))
    ensures Sorted(s.(queue := Unqueued(q, v)))
    decreases |q|
  {
    if q != [] {
      var rest := Unqueued(q[1..], v);
      forall i, j ensures InOrder(s.(queue := q[1..]), i, j) {
        assert InOrder(s.(queue := q), i + 1, j + 1);
      }
      UnqueuedKeepsSorted(s, q[1..], v);
      if q[0] != v {
        forall i, j ensures InOrder(s.(queue := [q[0]] + rest), i, j) {
          assert InOrder(s.(queue := rest), i - 1, j - 1);
          if 0 == i < j < |rest| + 1 {
            assert rest[j - 1] in rest && rest[j - 1] in q[1..];
            var k :| 0 <= k < |q| - 1 && q[1..][k] == rest[j - 1];
            assert InOrder(s.(queue := q), 0, k + 1);
          }
        }
      }
    }
  }

  /** The order of the queue matters to none of the invariants. */
  lemma ReorderKeepsInv(g: Graph, s: Search, q: seq<Id>, k: nat)
    requires Inv(g, s, k) && Rising(s) && NoDup(q) && forall x :: x in q <==> x in s.queue
    ensures Inv(g, s.(queue := q), k) && Rising(s.(queue := q))
  {
    ReorderKeepsShape(g, s, q);
    ReorderKeepsTree(g, s, q);
    ReorderKeepsScanned(g, s, q, k);
  }

  lemma ReorderKeepsShape(g: Graph, s: Search, q: seq<Id>)
    requires Shape(g, s) && NoDup(q) && forall x :: x in q <==> x in s.queue
    ensures Shape(g, s.(queue := q))
  {
    forall v: Id ensures Placed(g, s.(queue := q), v) {
      assert Placed(g, s, v);
    }
  }

  lemma ReorderKeepsTree(g: Graph, s: Search, q: seq<Id>)
    requires Tree(g, s)
    ensures Tree(g, s.(queue := q))
  {
    var r := s.(queue := q);
    forall v | v in r.root ensures Hangs(g, r, v) {
      assert Hangs(g, s, v);
    }
    forall j | 0 <= j < |r.settled| ensures ParentEarlier(r, j) {
      assert ParentEarlier(s, j);
    }
  }

  lemma ReorderKeepsScanned(g: Graph, s: Search, q: seq<Id>, k: nat)
    requires Scanned(g, s, k) && forall x :: x in q <==> x in s.queue
    ensures Scanned(g, s.(queue := q), k)
  {
    var r := s.(queue := q);
    forall i: nat, n: nat | i < |r.settled| && n < |Out(g, r.settled[i])| && (i == |r.settled| - 1 ==> n < k)
      ensures EdgeDone(g, r, i, n)
    {
      assert EdgeDone(g, s, i, n);
    }
  }

  /** The invariant of the repaired search while the edges of the last settled vertex are scanned. */
  ghost predicate Good(g: Graph, s: Search, k: nat) {
    Positive(g) && Inv(g, s, k) && Rising(s) && Sorted(s)
  }

  lemma RelaxKeepsGood(g: Graph, s: Search, k: nat)
    requires Good(g, s, k) && k < |Out(g, Last(s))|
    ensures Good(g, RelaxRepaired(s, Last(s), Out(g, Last(s))[k]), k + 1)
    ensures RelaxRepaired(s, Last(s), Out(g, Last(s))[k]).settled == s.settled
  {
    var u, e := Last(s), Out(g, Last(s))[k];
    var r := Relax(s, u, e);
    RelaxKeepsInv(g, s, k);
    assert PositiveVertex(g, u);
    RelaxKeepsRising(g, s, e);
    RelaxLabels(g, s, u, e);
    assert Placed(g, s, e.to);
    if Lowers(s, u, e) {
      var q := Unqueued(r.queue, e.to);
      assert r.queue == s.queue;
      UnqueuedKeepsSorted(s, s.queue, e.to);
      forall i, j ensures InOrder(r.(queue := q), i, j) {
        assert InOrder(s.(queue := q), i, j);
      }
      PushKeepsSorted(r, q, e.to);
      ReorderKeepsInv(g, r, Push(q, r.cost, e.to), k + 1);
    } else {
      RelaxSorts(g, s, u, e);
    }
  }

  lemma RelaxSorts(g: Graph, s: Search, u: Id, e: Edge)
    requires Shape(g, s) && Sorted(s) && !Lowers(s, u, e)
    ensures Sorted(Relax(s, u, e))
  {
    if e.to !in s.settled && e.to !in s.root {
      var r := Relax(s, u, e);
      assert Placed(g, s, e.to);
      forall i, j ensures InOrder(r.(queue := s.queue), i, j) {
        assert InOrder(s, i, j);
        if 0 <= i < j < |s.queue| {
          assert s.queue[i] in s.queue && s.queue[j] in s.queue;
        }
      }
      PushKeepsSorted(r, s.queue, e.to);
    }
  }
}
