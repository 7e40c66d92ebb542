/**
  The weighted digraph of the controller as a value: every vertex id maps to its edges in list
  order, the header edge first (controller-server/digraph/digraph.h).  Ids are the two-byte
  addresses of the network.
 */
module Graphs {
  import opened Options

  type Id = x: int | 0 <= x < 0x1_0000

  datatype Status = EdgeNew | EdgeStatic | EdgeUpdated | EdgeDeleted

  datatype Edge = Edge(to: Id, etx: nat, weight: int, status: Status)

  type Graph = map<Id, seq<Edge>>

  function Out(g: Graph, v: Id): seq<Edge> {
    if v in g then g[v] else []
  }

  /** At most one edge per target: what `digraph_add_edge` maintains. */
  ghost predicate Distinct(es: seq<Edge>) {
    forall i, j {:trigger DifferentTargets(es, i, j)} :: DifferentTargets(es, i, j)
  }

  ghost predicate DifferentTargets(es: seq<Edge>, i: int, j: int) {
    0 <= i < j < |es| ==> es[i].to != es[j].to
  }

  lemma DistinctTail(es: seq<Edge>)
    requires Distinct(es) && es != []
    ensures Distinct(es[1..]) && forall e :: e in es[1..] ==> e.to != es[0].to
  {
    forall i, j ensures DifferentTargets(es[1..], i, j) {
      assert DifferentTargets(es, i + 1, j + 1);
    }
    forall j | 0 <= j < |es[1..]| ensures es[1..][j].to != es[0].to {
      assert DifferentTargets(es, 0, j + 1);
    }
  }

  lemma DistinctRemove(es: seq<Edge>, n: nat)
    requires Distinct(es) && n < |es|
    ensures Distinct(es[..n] + es[n + 1..])
  {
    var r := es[..n] + es[n + 1..];
    forall i, j ensures DifferentTargets(r, i, j) {
      assert DifferentTargets(es, if i < n then i else i + 1, if j < n then j else j + 1);
    }
  }

  /** Lists with the same targets in the same order. */
  lemma DistinctSameTargets(es: seq<Edge>, fs: seq<Edge>)
    requires Distinct(es) && |es| == |fs| && forall i :: 0 <= i < |es| ==> fs[i].to == es[i].to
    ensures Distinct(fs)
  {
    forall i, j ensures DifferentTargets(fs, i, j) {
      assert DifferentTargets(es, i, j);
    }
  }

  lemma DistinctCons(e: Edge, es: seq<Edge>)
    requires Distinct(es) && forall x :: x in es ==> x.to != e.to
    ensures Distinct([e] + es)
  {
    forall i, j ensures DifferentTargets([e] + es, i, j) {
      assert DifferentTargets(es, i - 1, j - 1);
    }
  }

  ghost predicate FineVertex(g: Graph, v: Id) {
    Distinct(Out(g, v)) && forall e :: e in Out(g, v) ==> e.to in g
  }

  ghost predicate WellFormed(g: Graph) {
    forall v: Id {:trigger FineVertex(g, v)} :: FineVertex(g, v)
  }

  ghost predicate PositiveVertex(g: Graph, v: Id) {
    forall e :: e in Out(g, v) ==> e.weight > 0
  }

  ghost predicate Positive(g: Graph) {
    forall v: Id {:trigger PositiveVertex(g, v)} :: PositiveVertex(g, v)
  }

  /** The scan of an edge list from its header. */
  function FindEdge(es: seq<Edge>, v: Id): (r: Option<Edge>)
    ensures r.Some? ==> r.value in es && r.value.to == v
    ensures r.None? ==> forall e :: e in es ==> e.to != v
  {
    if es == [] then None
    else if es[0].to == v then Some(es[0])
    else FindEdge(es[1..], v)
  }

  predicate HasEdge(g: Graph, u: Id, v: Id) {
    FindEdge(Out(g, u), v).Some?
  }

  function EdgeWeight(g: Graph, u: Id, v: Id): int {
    var o := FindEdge(Out(g, u), v);
    if o.Some? then o.value.weight else 0
  }

  ghost predicate Hop(g: Graph, p: seq<Id>, i: int) {
    0 <= i < |p| - 1 ==> HasEdge(g, p[i], p[i + 1])
  }

  ghost predicate IsPath(g: Graph, p: seq<Id>) {
    |p| > 0 && forall i {:trigger Hop(g, p, i)} :: Hop(g, p, i)
  }

  /**
    Checking a route against the digraph reads the header edge of every vertex but the last; at position `k`
    the hops before still exist and the vertex has no edge, so the header is NULL.
   */
  ghost predicate ReadsNullAt(g: Graph, p: seq<Id>, k: int) {
    0 <= k < |p| - 1 && Out(g, p[k]) == [] && forall i {:trigger Hop(g, p, i)} :: i < k ==> Hop(g, p, i)
  }

  ghost predicate ReadsNull(g: Graph, p: seq<Id>) {
    exists k :: ReadsNullAt(g, p, k)
  }

  ghost predicate PathFromTo(g: Graph, p: seq<Id>, s: Id, t: Id) {
    IsPath(g, p) && p[0] == s && p[|p| - 1] == t
  }

  ghost predicate Reachable(g: Graph, s: Id, t: Id) {
    exists p :: PathFromTo(g, p, s, t)
  }

  ghost predicate Differ<T>(p: seq<T>, i: int, j: int) {
    0 <= i < j < |p| ==> p[i] != p[j]
  }

  ghost predicate NoDup<T>(p: seq<T>) {
    forall i, j {:trigger Differ(p, i, j)} :: Differ(p, i, j)
  }

  lemma NoDupAdd<T>(x: T, p: seq<T>)
    requires NoDup(p) && x !in p
    ensures NoDup([x] + p) && NoDup(p + [x])
  {
    forall i, j ensures Differ([x] + p, i, j) && Differ(p + [x], i, j) {
      assert Differ(p, i - 1, j - 1) && Differ(p, i, j);
    }
  }

  lemma NoDupTail<T>(p: seq<T>)
    requires NoDup(p) && p != []
    ensures NoDup(p[1..]) && p[0] !in p[1..]
  {
    forall i, j ensures Differ(p[1..], i, j) {
      assert Differ(p, i + 1, j + 1);
    }
    forall j | 0 <= j < |p[1..]| ensures p[1..][j] != p[0] {
      assert Differ(p, 0, j + 1);
    }
  }

  function PathWeight(g: Graph, p: seq<Id>): int {
    if |p| <= 1 then 0
    else PathWeight(g, p[..|p| - 1]) + EdgeWeight(g, p[|p| - 2], p[|p| - 1])
  }

  /** With at most one edge per target, every listed edge is the one the scan finds. */
  lemma {:induction false} ListedEdgeIsFound(es: seq<Edge>, e: Edge)
    requires Distinct(es) && e in es
    ensures FindEdge(es, e.to) == Some(e)
  {
    DistinctTail(es);
    if es[0] != e {
      assert e in es[1..];
      ListedEdgeIsFound(es[1..], e);
    }
  }

  lemma EdgeOfGraph(g: Graph, u: Id, e: Edge)
    requires WellFormed(g) && e in Out(g, u)
    ensures HasEdge(g, u, e.to) && EdgeWeight(g, u, e.to) == e.weight
  {
    assert FineVertex(g, u);
    ListedEdgeIsFound(Out(g, u), e);
  }

  lemma PathSnoc(g: Graph, p: seq<Id>, v: Id)
    requires IsPath(g, p) && HasEdge(g, p[|p| - 1], v)
    ensures IsPath(g, p + [v])
    ensures PathWeight(g, p + [v]) == PathWeight(g, p) + EdgeWeight(g, p[|p| - 1], v)
  {
    forall i ensures Hop(g, p + [v], i) {
      assert Hop(g, p, i);
    }
    assert (p + [v])[..|p|] == p;
  }

  lemma PathPrefix(g: Graph, p: seq<Id>, n: nat)
    requires IsPath(g, p) && 0 < n <= |p|
    ensures IsPath(g, p[..n])
  {
    forall i ensures Hop(g, p[..n], i) {
      assert Hop(g, p, i);
    }
  }

  /** No edge at all. */
  ghost predicate Unlinked(g: Graph) {
    forall v: Id :: Out(g, v) == []
  }

  /** Any two graphs with the same edges have the same paths. */
  ghost predicate SameEdges(g: Graph, h: Graph) {
    forall v :: Out(g, v) == Out(h, v)
  }

  lemma SameEdgesSameReach(g: Graph, h: Graph, s: Id, t: Id)
    requires SameEdges(g, h)
    ensures Reachable(g, s, t) <==> Reachable(h, s, t)
  {
    if Reachable(g, s, t) {
      var p :| PathFromTo(g, p, s, t);
      assert forall i :: Hop(g, p, i) ==> Hop(h, p, i);
      assert PathFromTo(h, p, s, t);
    }
    if Reachable(h, s, t) {
      var p :| PathFromTo(h, p, s, t);
      assert forall i :: Hop(h, p, i) ==> Hop(g, p, i);
      assert PathFromTo(g, p, s, t);
    }
  }

  lemma ReachStep(g: Graph, u: Id, v: Id, t: Id)
    requires HasEdge(g, u, v) && Reachable(g, v, t)
    ensures Reachable(g, u, t)
  {
    var p :| PathFromTo(g, p, v, t);
    forall i ensures Hop(g, [u] + p, i) {
      assert Hop(g, p, i - 1);
    }
    assert PathFromTo(g, [u] + p, u, t);
  }
}
