/**
  The search of controller-server/digraph/dijkstra.c as a function on values: one `Search` value is
  the scratch state of all vertices plus the queue.  `settled` lists the visited vertices in visiting
  order; a vertex's `visited` flag is membership in it.  A vertex outside `root` has a NULL
  route_root and route_weight 0.
 */
module ShortestPath {
  import opened Graphs

  datatype Search = Search(settled: seq<Id>, cost: map<Id, int>, root: map<Id, Id>, queue: seq<Id>)

  const CLEAN := Search([], map[], map[], [])

  /** The route_weight field of a vertex. */
  function CostOf(cost: map<Id, int>, v: Id): int {
    if v in cost then cost[v] else 0
  }

  function Label(s: Search, v: Id): int {
    CostOf(s.cost, v)
  }

  /** Insertion before the first queued vertex of larger label, labels read at the time of the push. */
  function Push(q: seq<Id>, cost: map<Id, int>, v: Id): (r: seq<Id>)
    ensures |r| == |q| + 1
    ensures forall x :: x in r <==> x in q || x == v
    ensures NoDup(q) && v !in q ==> NoDup(r)
  {
    if q == [] then [v]
    else if CostOf(cost, v) < CostOf(cost, q[0]) then
      assert NoDup(q) && v !in q ==> NoDup([v] + q) by {
        if NoDup(q) && v !in q {
          NoDupAdd(v, q);
        }
      }
      assert forall x :: x in [v] + q <==> x in q || x == v;
      [v] + q
    else
      assert forall x :: x in q <==> x == q[0] || x in q[1..];
      var rest := Push(q[1..], cost, v);
      assert NoDup(q) && v !in q ==> NoDup([q[0]] + rest) by {
        if NoDup(q) && v !in q {
          NoDupTail(q);
          NoDupAdd(q[0], rest);
        }
      }
      [q[0]] + rest
  }

  /** One edge of the scan of vertex `u`. */
  function Relax(s: Search, u: Id, e: Edge): Search {
    var w := Label(s, u) + e.weight;
    if e.to in s.settled then s
    else if e.to !in s.root then
      var cost := s.cost[e.to := w];
      Search(s.settled, cost, s.root[e.to := u], Push(s.queue, cost, e.to))
    else if w < Label(s, e.to) then
      s.(cost := s.cost[e.to := w], root := s.root[e.to := u])
    else s
  }

  function Scan(s: Search, u: Id, es: seq<Edge>): (r: Search)
    ensures r.settled == s.settled
    decreases |es|
  {
    if es == [] then s else Scan(Relax(s, u, es[0]), u, es[1..])
  }

  /** Marks `u` visited and scans its edges from the header. */
  function Visit(g: Graph, s: Search, u: Id): Search {
    Scan(s.(settled := s.settled + [u]), u, Out(g, u))
  }

  function Pop(g: Graph, s: Search): Search
    requires s.queue != []
  {
    Visit(g, s.(queue := s.queue[1..]), s.queue[0])
  }
}
