/**
  The tree of parent links that a search leaves: its chains are real paths, and a finished search has
  visited exactly what can be reached.
 */
module SearchTree {
  import opened Graphs
  import opened ShortestPath
  import opened SearchInvariant

  ghost predicate Rooted(s: Search, p: seq<Id>, i: int) {
    0 <= i < |p| - 1 ==> p[i + 1] in s.root && p[i] == s.root[p[i + 1]]
  }

  /** A path along the route_root links, starting at the source. */
  ghost predicate FollowsRoots(s: Search, p: seq<Id>) {
    && p != [] && s.settled != [] && p[0] == s.settled[0]
    && forall i {:trigger Rooted(s, p, i)} :: Rooted(s, p, i)
  }

  /** The vertices from the source to the j-th settled vertex along the route_root links. */
  ghost function Chain(g: Graph, s: Search, j: nat): (p: seq<Id>)
    requires Shape(g, s) && Tree(g, s) && j < |s.settled|
    ensures FollowsRoots(s, p) && p[|p| - 1] == s.settled[j]
    ensures NoDup(p) && forall v :: v in p ==> v in s.settled[..j + 1]
    decreases j
  {
    var v := s.settled[j];
    if j == 0 then [v]
    else
      assert Differ(s.settled, 0, j) && Placed(g, s, v);
      assert Hangs(g, s, v) && ParentEarlier(s, j);
      var i :| 0 <= i < j && s.settled[i] == s.root[v];
      var q := Chain(g, s, i);
      assert v !in q by {
        assert forall k :: 0 <= k < j ==> Differ(s.settled, k, j) && s.settled[k] != v;
      }
      NoDupAdd(v, q);
      assert forall k :: Rooted(s, q, k) ==> Rooted(s, q + [v], k);
      q + [v]
  }

  lemma {:induction false} ChainIsPath(g: Graph, s: Search, p: seq<Id>)
    requires Shape(g, s) && Tree(g, s) && FollowsRoots(s, p)
    ensures IsPath(g, p) && PathWeight(g, p) == Label(s, p[|p| - 1])
  {
    if |p| > 1 {
      var q := p[..|p| - 1];
      assert forall k :: Rooted(s, p, k) ==> Rooted(s, q, k);
      ChainIsPath(g, s, q);
      assert Rooted(s, p, |p| - 2) && Hangs(g, s, p[|p| - 1]);
      PathSnoc(g, q, p[|p| - 1]);
      assert p == q + [p[|p| - 1]];
    }
  }

  /** A finished search has settled exactly the vertices reachable from the source. */
  lemma SettledIsReachable(g: Graph, s: Search, t: Id)
    requires Paused(g, s) && s.queue == []
    ensures t in s.settled <==> Reachable(g, s.settled[0], t)
  {
    if t in s.settled {
      var j :| 0 <= j < |s.settled| && s.settled[j] == t;
      ChainIsPath(g, s, Chain(g, s, j));
      assert PathFromTo(g, Chain(g, s, j), s.settled[0], t);
    }
    if Reachable(g, s.settled[0], t) {
      var p :| PathFromTo(g, p, s.settled[0], t);
      PathStaysSettled(g, s, p);
    }
  }

  lemma {:induction false} PathStaysSettled(g: Graph, s: Search, p: seq<Id>)
    requires Paused(g, s) && s.queue == []
    requires IsPath(g, p) && p[0] == s.settled[0]
    ensures p[|p| - 1] in s.settled
  {
    if |p| > 1 {
      PathPrefix(g, p, |p| - 1);
      PathStaysSettled(g, s, p[..|p| - 1]);
      var u, v := p[|p| - 2], p[|p| - 1];
      assert Hop(g, p, |p| - 2);
      var i :| 0 <= i < |s.settled| && s.settled[i] == u;
      var n :| 0 <= n < |Out(g, u)| && Out(g, u)[n] == FindEdge(Out(g, u), v).value;
      assert EdgeDone(g, s, i, n);
    }
  }
}
