/**
  Updates of the digraph (controller-server/digraph/digraph.c) and the neighbour report
  (controller-server/sdn-process-packets-controller.c) as functions on values, in the configured build
  where both SDN_NEIGHBORINFO_* macros are defined.
 */
module NeighborReports {
  import opened Options
  import opened Graphs

  const MAX_BATTERY_LEVEL: nat := 255
  const MAX_WEIGHT := 100

  /** Edges and remaining energy of every vertex. */
  datatype Net = Net(out: Graph, energy: map<Id, nat>)

  /** The link metric: minimum energy of the two ends and transmission metric to a weight. */
  type Metric = (nat, nat) -> int

  ghost predicate GoodMetric(metric: Metric) {
    forall e: nat, x: nat :: 1 <= metric(e, x) <= MAX_WEIGHT
  }

  ghost predicate GoodNet(n: Net) {
    WellFormed(n.out) && Positive(n.out) && n.out.Keys == n.energy.Keys
  }

  function WithVertex(n: Net, v: Id): Net {
    if v in n.out then n else Net(n.out[v := []], n.energy[v := MAX_BATTERY_LEVEL])
  }

  /** digraph_add_edge on one edge list: insertion behind the header, or update in place. */
  function AddEdge(es: seq<Edge>, to: Id, etx: nat, weight: int): seq<Edge> {
    if FindEdge(es, to).None? then
      var e := Edge(to, etx, weight, EdgeNew);
      if es == [] then [e] else [es[0], e] + es[1..]
    else UpdateEdge(es, to, etx, weight)
  }

  function UpdateEdge(es: seq<Edge>, to: Id, etx: nat, weight: int): (r: seq<Edge>)
    ensures |r| == |es|
  {
    if es == [] then []
    else if es[0].to == to then
      [Edge(to, etx, weight, if es[0].weight == weight then EdgeStatic else EdgeUpdated)] + es[1..]
    else [es[0]] + UpdateEdge(es[1..], to, etx, weight)
  }

  function EnergyOf(n: Net, v: Id): nat {
    if v in n.energy then n.energy[v] else MAX_BATTERY_LEVEL
  }

  /** The weight of a link from the lower energy of its two ends. */
  function WeightOf(n: Net, metric: Metric, u: Id, v: Id, etx: nat): int {
    metric(if EnergyOf(n, u) < EnergyOf(n, v) then EnergyOf(n, u) else EnergyOf(n, v), etx)
  }

  function Connect(n: Net, metric: Metric, u: Id, v: Id, etx: nat): Net {
    n.(out := n.out[u := AddEdge(Out(n.out, u), v, etx, WeightOf(n, metric, u, v, etx))])
  }

  function MarkAll(es: seq<Edge>): (r: seq<Edge>)
    ensures |r| == |es| && forall i :: 0 <= i < |es| ==> r[i] == es[i].(status := EdgeDeleted)
  {
    seq(|es|, i requires 0 <= i < |es| => es[i].(status := EdgeDeleted))
  }

  /** The edges that survive digraph_del_marked_edges_to_del_from, in order. */
  function Unmarked(es: seq<Edge>): seq<Edge> {
    if es == [] then []
    else if es[0].status == EdgeDeleted then Unmarked(es[1..])
    else [es[0]] + Unmarked(es[1..])
  }

  datatype Neighbor = Neighbor(id: Id, etx: nat)

  /** One entry of the report: the edge towards the neighbour, and a reverse edge if there is none. */
  function ReportOne(n: Net, metric: Metric, src: Id, nb: Neighbor): Net {
    var a := WithVertex(n, nb.id);
    var b := Connect(a, metric, src, nb.id, nb.etx);
    if HasEdge(b.out, nb.id, src) then b else Connect(b, metric, nb.id, src, nb.etx)
  }

  function ReportAll(n: Net, metric: Metric, src: Id, ns: seq<Neighbor>): Net {
    if ns == [] then n
    else ReportOne(ReportAll(n, metric, src, ns[..|ns| - 1]), metric, src, ns[|ns| - 1])
  }

  /** The reporting vertex, added if new, with all its edges marked. */
  function Marked(n: Net, src: Id): Net {
    var a := WithVertex(n, src);
    a.(out := a.out[src := MarkAll(a.out[src])])
  }

  function Swept(c: Net, src: Id): Net {
    c.(out := c.out[src := Unmarked(Out(c.out, src))])
  }

  /** process_neighbor_report: mark, add, delete what is still marked. */
  function Report(n: Net, metric: Metric, src: Id, ns: seq<Neighbor>): Net {
    Swept(ReportAll(Marked(n, src), metric, src, ns), src)
  }

  // ---------------------------------------------------------------- what a report achieves

  predicate Reported(ns: seq<Neighbor>, v: Id) {
    exists i :: 0 <= i < |ns| && ns[i].id == v
  }

  /** The metric of the last entry for `v`. */
  function LastEtx(ns: seq<Neighbor>, v: Id): nat {
    if ns == [] then 0
    else if ns[|ns| - 1].id == v then ns[|ns| - 1].etx else LastEtx(ns[..|ns| - 1], v)
  }

  /** The metric of the first entry for `v`. */
  function FirstEtx(ns: seq<Neighbor>, v: Id): nat {
    if ns == [] then 0
    else if Reported(ns[..|ns| - 1], v) then FirstEtx(ns[..|ns| - 1], v) else ns[|ns| - 1].etx
  }

  lemma {:induction false} UpdateEdgeFinds(es: seq<Edge>, to: Id, etx: nat, w: int, x: Id)
    requires FindEdge(es, to).Some? && Distinct(es)
    ensures var r := UpdateEdge(es, to, etx, w);
            && Distinct(r)
            && (x != to ==> FindEdge(r, x) == FindEdge(es, x))
            && (x == to ==> FindEdge(r, x).Some? && FindEdge(r, x).value.etx == etx
                            && FindEdge(r, x).value.weight == w && FindEdge(r, x).value.status != EdgeDeleted)
  {
    UpdateEdgeTargets(es, to, etx, w);
    DistinctSameTargets(es, UpdateEdge(es, to, etx, w));
    if es[0].to != to {
      DistinctTail(es);
      UpdateEdgeFinds(es[1..], to, etx, w, x);
    }
  }

  lemma {:induction false} UpdateEdgeTargets(es: seq<Edge>, to: Id, etx: nat, w: int)
    requires FindEdge(es, to).Some?
    ensures forall i :: 0 <= i < |es| ==> UpdateEdge(es, to, etx, w)[i].to == es[i].to
  {
    if es[0].to != to {
      UpdateEdgeTargets(es[1..], to, etx, w);
    }
  }

  /** After adding an edge the scan finds it with the new values, and finds every other edge as before. */
  lemma AddEdgeFinds(es: seq<Edge>, to: Id, etx: nat, w: int, x: Id)
    requires Distinct(es)
    ensures var r := AddEdge(es, to, etx, w);
            && Distinct(r)
            && (x != to ==> FindEdge(r, x) == FindEdge(es, x))
            && (x == to ==> FindEdge(r, x).Some? && FindEdge(r, x).value.etx == etx
                            && FindEdge(r, x).value.weight == w && FindEdge(r, x).value.status != EdgeDeleted)
  {
    if FindEdge(es, to).Some? {
      UpdateEdgeFinds(es, to, etx, w, x);
    } else if es != [] {
      var e := Edge(to, etx, w, EdgeNew);
      var r := [es[0], e] + es[1..];
      assert r[1..] == [e] + es[1..] && r[1..][1..] == es[1..];
      DistinctTail(es);
      DistinctCons(e, es[1..]);
      DistinctCons(es[0], [e] + es[1..]);
      assert [es[0]] + ([e] + es[1..]) == r;
    }
  }

  lemma {:induction false} UnmarkedFinds(es: seq<Edge>, x: Id)
    requires Distinct(es)
    ensures var f := FindEdge(es, x);
            FindEdge(Unmarked(es), x) == if f.Some? && f.value.status != EdgeDeleted then f else None
    ensures forall e :: e in Unmarked(es) ==> e in es
    ensures Distinct(Unmarked(es))
  {
    if es != [] {
      DistinctTail(es);
      UnmarkedFinds(es[1..], x);
      DistinctCons(es[0], Unmarked(es[1..]));
    }
  }

  lemma MarkAllFinds(es: seq<Edge>, x: Id)
    ensures FindEdge(MarkAll(es), x).Some? <==> FindEdge(es, x).Some?
    ensures FindEdge(MarkAll(es), x).Some? ==> FindEdge(MarkAll(es), x).value.status == EdgeDeleted
  {
    var m := MarkAll(es);
    if FindEdge(es, x).Some? {
      var i :| 0 <= i < |es| && es[i] == FindEdge(es, x).value;
      assert m[i] in m;
    }
    if FindEdge(m, x).Some? {
      var i :| 0 <= i < |es| && m[i] == FindEdge(m, x).value;
      assert es[i] in es;
    }
  }

  lemma {:induction false} AddEdgeElements(es: seq<Edge>, to: Id, etx: nat, w: int, e: Edge)
    requires e in AddEdge(es, to, etx, w)
    ensures e in es || (e.to == to && e.weight == w)
    decreases |es|
  {
    if FindEdge(es, to).Some? && es[0].to != to {
      if e != es[0] {
        assert e in UpdateEdge(es[1..], to, etx, w);
        AddEdgeElements(es[1..], to, etx, w, e);
      }
    } else if FindEdge(es, to).Some? {
      assert e in es[1..] ==> e in es;
    } else if es != [] {
      assert e in es[1..] ==> e in es;
    }
  }

  lemma WithVertexKeepsGood(n: Net, v: Id)
    requires GoodNet(n)
    ensures GoodNet(WithVertex(n, v)) && v in WithVertex(n, v).out
  {
    var g := WithVertex(n, v).out;
    forall x: Id ensures FineVertex(g, x) && PositiveVertex(g, x) {
      assert FineVertex(n.out, x) && PositiveVertex(n.out, x);
    }
  }

  lemma ReplaceKeepsGood(n: Net, u: Id, es: seq<Edge>)
    requires GoodNet(n) && u in n.out && Distinct(es)
    requires forall e :: e in es ==> e.to in n.out && e.weight > 0
    ensures GoodNet(n.(out := n.out[u := es]))
  {
    var g := n.out[u := es];
    forall x: Id ensures FineVertex(g, x) && PositiveVertex(g, x) {
      assert FineVertex(n.out, x) && PositiveVertex(n.out, x);
    }
  }

  ghost predicate SameEnergies(n: Net, m: Net) {
    forall y :: EnergyOf(n, y) == EnergyOf(m, y)
  }

  lemma ConnectKeepsGood(n: Net, metric: Metric, u: Id, v: Id, etx: nat)
    requires GoodNet(n) && GoodMetric(metric) && u in n.out && v in n.out
    ensures GoodNet(Connect(n, metric, u, v, etx))
  {
    var w := WeightOf(n, metric, u, v, etx);
    var es := AddEdge(n.out[u], v, etx, w);
    assert FineVertex(n.out, u) && PositiveVertex(n.out, u);
    AddEdgeFinds(n.out[u], v, etx, w, v);
    forall e | e in es ensures e.to in n.out && e.weight > 0 {
      AddEdgeElements(n.out[u], v, etx, w, e);
    }
    ReplaceKeepsGood(n, u, es);
  }

  lemma ReportOneKeepsGood(n: Net, metric: Metric, src: Id, nb: Neighbor)
    requires GoodNet(n) && GoodMetric(metric) && src in n.out
    ensures var r := ReportOne(n, metric, src, nb);
            && GoodNet(r) && src in r.out && SameEnergies(n, r)
            && r.out.Keys == n.out.Keys + {nb.id}
  {
    var a := WithVertex(n, nb.id);
    var b := Connect(a, metric, src, nb.id, nb.etx);
    WithVertexKeepsGood(n, nb.id);
    ConnectKeepsGood(a, metric, src, nb.id, nb.etx);
    ConnectKeepsGood(b, metric, nb.id, src, nb.etx);
  }

  /** What one report entry does to the edges of the reporting vertex and of any other vertex. */
  lemma ReportOneEdges(n: Net, metric: Metric, src: Id, nb: Neighbor, x: Id, v: Id)
    requires GoodNet(n) && GoodMetric(metric) && src in n.out && v != src
    ensures var r := ReportOne(n, metric, src, nb);
            var e := FindEdge(Out(r.out, src), x);
            && (x != nb.id ==> e == FindEdge(Out(n.out, src), x))
            && (x == nb.id ==> e.Some? && e.value.etx == nb.etx && e.value.status != EdgeDeleted
                               && e.value.weight == WeightOf(n, metric, src, x, nb.etx))
            && Out(r.out, v) == (if v == nb.id && !HasEdge(n.out, v, src)
                                 then AddEdge(Out(n.out, v), src, nb.etx, WeightOf(n, metric, src, v, nb.etx))
                                 else Out(n.out, v))
  {
    var a := WithVertex(n, nb.id);
    WithVertexKeepsGood(n, nb.id);
    assert FineVertex(a.out, src);
    AddEdgeFinds(a.out[src], nb.id, nb.etx, WeightOf(a, metric, src, nb.id, nb.etx), x);
    AddEdgeFinds(a.out[src], nb.id, nb.etx, WeightOf(a, metric, src, nb.id, nb.etx), src);
  }

  /** The edge a report leaves from the reporting vertex to `x`: the newest data, or what was there. */
  ghost predicate SourceEdge(n: Net, c: Net, metric: Metric, src: Id, ns: seq<Neighbor>, x: Id) {
    var e := FindEdge(Out(c.out, src), x);
    if Reported(ns, x) then
      && e.Some? && e.value.etx == LastEtx(ns, x) && e.value.status != EdgeDeleted
      && e.value.weight == WeightOf(n, metric, src, x, LastEtx(ns, x))
    else e == FindEdge(Out(n.out, src), x)
  }

  /** The edges a report leaves at another vertex: the same, or one reverse edge more. */
  ghost predicate OtherEdges(n: Net, c: Net, metric: Metric, src: Id, ns: seq<Neighbor>, v: Id) {
    Out(c.out, v) ==
      if Reported(ns, v) && !HasEdge(n.out, v, src)
      then AddEdge(Out(n.out, v), src, FirstEtx(ns, v), WeightOf(n, metric, src, v, FirstEtx(ns, v)))
      else Out(n.out, v)
  }

  ghost function ReportedIds(ns: seq<Neighbor>): set<Id> {
    set i | 0 <= i < |ns| :: ns[i].id
  }

  lemma {:induction false} ReportAllKeepsGood(n: Net, metric: Metric, src: Id, ns: seq<Neighbor>)
    requires GoodNet(n) && GoodMetric(metric) && src in n.out
    ensures var c := ReportAll(n, metric, src, ns);
            GoodNet(c) && SameEnergies(n, c) && c.out.Keys == n.out.Keys + ReportedIds(ns)
  {
    hide GoodNet;
    hide ReportOne;
    if ns != [] {
      var init, nb := ns[..|ns| - 1], ns[|ns| - 1];
      ReportAllKeepsGood(n, metric, src, init);
      ReportOneKeepsGood(ReportAll(n, metric, src, init), metric, src, nb);
      assert ReportedIds(ns) == ReportedIds(init) + {nb.id} by {
        IdsSnoc(init, nb);
        assert ns == init + [nb];
      }
      SameEnergiesChain(n, ReportAll(n, metric, src, init), ReportAll(n, metric, src, ns));
    }
  }

  lemma SameEnergiesChain(a: Net, b: Net, c: Net)
    requires SameEnergies(a, b) && SameEnergies(b, c)
    ensures SameEnergies(a, c)
  {
    forall y ensures EnergyOf(a, y) == EnergyOf(c, y) {
      assert EnergyOf(a, y) == EnergyOf(b, y);
    }
  }

  lemma IdsSnoc(init: seq<Neighbor>, nb: Neighbor)
    ensures ReportedIds(init + [nb]) == ReportedIds(init) + {nb.id}
  {
    var ns := init + [nb];
    assert ns[|init|] == nb && forall i :: 0 <= i < |init| ==> ns[i] == init[i];
  }

  lemma {:induction false} ReportAllEdges(n: Net, metric: Metric, src: Id, ns: seq<Neighbor>, x: Id, v: Id)
    requires GoodNet(n) && GoodMetric(metric) && src in n.out && v != src
    ensures var c := ReportAll(n, metric, src, ns);
            SourceEdge(n, c, metric, src, ns, x) && OtherEdges(n, c, metric, src, ns, v)
  {
    if ns != [] {
      var init, nb := ns[..|ns| - 1], ns[|ns| - 1];
      var b := ReportAll(n, metric, src, init);
      assert ns == init + [nb];
      ReportAllEdges(n, metric, src, init, x, v);
      ReportAllKeepsGood(n, metric, src, init);
      ReportOneEdges(b, metric, src, nb, x, v);
      ReportedSnoc(init, nb, x);
      OneMoreSourceEdge(n, b, metric, src, init, nb, x);
      ReportedSnoc(init, nb, v);
      OneMoreOtherEdge(n, b, metric, src, init, nb, v);
    }
  }

  lemma OneMoreSourceEdge(n: Net, b: Net, metric: Metric, src: Id, init: seq<Neighbor>, nb: Neighbor, x: Id)
    requires GoodNet(b) && GoodMetric(metric) && src in b.out && SameEnergies(n, b)
    requires SourceEdge(n, b, metric, src, init, x)
    ensures SourceEdge(n, ReportOne(b, metric, src, nb), metric, src, init + [nb], x)
  {
    var other: Id := if src == 0 then 1 else 0;
    ReportOneEdges(b, metric, src, nb, x, other);
    ReportedSnoc(init, nb, x);
    assert EnergyOf(n, src) == EnergyOf(b, src) && EnergyOf(n, x) == EnergyOf(b, x);
  }

  lemma OneMoreOtherEdge(n: Net, b: Net, metric: Metric, src: Id, init: seq<Neighbor>, nb: Neighbor, v: Id)
    requires GoodNet(n) && GoodNet(b) && GoodMetric(metric) && src in b.out && v != src && SameEnergies(n, b)
    requires OtherEdges(n, b, metric, src, init, v)
    ensures OtherEdges(n, ReportOne(b, metric, src, nb), metric, src, init + [nb], v)
  {
    ReportOneEdges(b, metric, src, nb, v, v);
    ReportedSnoc(init, nb, v);
    assert EnergyOf(n, src) == EnergyOf(b, src) && EnergyOf(n, v) == EnergyOf(b, v);
    assert FineVertex(n.out, v);
    if Reported(init, v) && !HasEdge(n.out, v, src) {
      AddEdgeFinds(Out(n.out, v), src, FirstEtx(init, v), WeightOf(n, metric, src, v, FirstEtx(init, v)), src);
    }
  }

  lemma ReportedSnoc(init: seq<Neighbor>, nb: Neighbor, x: Id)
    ensures Reported(init + [nb], x) <==> Reported(init, x) || nb.id == x
    ensures Reported(init + [nb], x) ==>
      && LastEtx(init + [nb], x) == (if nb.id == x then nb.etx else LastEtx(init, x))
      && FirstEtx(init + [nb], x) == (if Reported(init, x) then FirstEtx(init, x) else nb.etx)
  {
    var ns := init + [nb];
    assert ns[..|ns| - 1] == init;
    if Reported(init, x) {
      var i :| 0 <= i < |init| && init[i].id == x;
      assert ns[i].id == x;
    }
    assert ns[|ns| - 1].id == nb.id;
  }

  /** A report keeps the digraph well formed, its weights positive and all energies, and adds the missing vertices. */
  lemma ReportKeepsGood(n: Net, metric: Metric, src: Id, ns: seq<Neighbor>)
    requires GoodNet(n) && GoodMetric(metric)
    ensures var r := Report(n, metric, src, ns);
            GoodNet(r) && SameEnergies(n, r) && r.out.Keys == n.out.Keys + {src} + ReportedIds(ns)
  {
    var b := Marked(n, src);
    MarkedKeepsGood(n, src, src);
    ReportAllKeepsGood(b, metric, src, ns);
    SweepKeepsGood(ReportAll(b, metric, src, ns), src, src);
    forall y ensures EnergyOf(n, y) == EnergyOf(Report(n, metric, src, ns), y) {
      assert EnergyOf(n, y) == EnergyOf(b, y) == EnergyOf(ReportAll(b, metric, src, ns), y);
    }
  }

  /**
    After a report the reporting vertex has exactly the reported neighbours as targets, each edge with
    the newest metric and its weight; every other vertex keeps its edges, except that a reported
    neighbour without an edge back gets one.
   */
  lemma ReportIsExact(n: Net, metric: Metric, src: Id, ns: seq<Neighbor>, x: Id, v: Id)
    requires GoodNet(n) && GoodMetric(metric) && v != src
    ensures var r := Report(n, metric, src, ns);
            && (HasEdge(r.out, src, x) <==> Reported(ns, x))
            && (Reported(ns, x) ==> SourceEdge(n, r, metric, src, ns, x))
            && OtherEdges(n, r, metric, src, ns, v)
  {
    SourceAfterReport(n, metric, src, ns, x);
    OthersAfterReport(n, metric, src, ns, v);
  }

  lemma SourceAfterReport(n: Net, metric: Metric, src: Id, ns: seq<Neighbor>, x: Id)
    requires GoodNet(n) && GoodMetric(metric)
    ensures var r := Report(n, metric, src, ns);
            && (HasEdge(r.out, src, x) <==> Reported(ns, x))
            && (Reported(ns, x) ==> SourceEdge(n, r, metric, src, ns, x))
  {
    var b := Marked(n, src);
    MarkedKeepsGood(n, src, x);
    ReportAllKeepsGood(b, metric, src, ns);
    SweepKeepsGood(ReportAll(b, metric, src, ns), src, x);
    var other: Id := if src == 0 then 1 else 0;
    ReportAllEdges(b, metric, src, ns, x, other);
    assert EnergyOf(n, src) == EnergyOf(b, src) && EnergyOf(n, x) == EnergyOf(b, x);
  }

  lemma OthersAfterReport(n: Net, metric: Metric, src: Id, ns: seq<Neighbor>, v: Id)
    requires GoodNet(n) && GoodMetric(metric) && v != src
    ensures OtherEdges(n, Report(n, metric, src, ns), metric, src, ns, v)
  {
    var b := Marked(n, src);
    MarkedKeepsGood(n, src, v);
    ReportAllEdges(b, metric, src, ns, v, v);
    assert EnergyOf(n, src) == EnergyOf(b, src) && EnergyOf(n, v) == EnergyOf(b, v);
    assert Out(b.out, v) == Out(n.out, v);
  }

  lemma MarkedKeepsGood(n: Net, src: Id, x: Id)
    requires GoodNet(n)
    ensures var b := Marked(n, src);
            && GoodNet(b) && SameEnergies(n, b) && b.out.Keys == n.out.Keys + {src}
            && (HasEdge(b.out, src, x) ==> FindEdge(b.out[src], x).value.status == EdgeDeleted)
  {
    var a := WithVertex(n, src);
    WithVertexKeepsGood(n, src);
    assert FineVertex(a.out, src) && PositiveVertex(a.out, src);
    forall e | e in MarkAll(a.out[src]) ensures e.to in a.out && e.weight > 0 {
      var i :| 0 <= i < |a.out[src]| && MarkAll(a.out[src])[i] == e;
      assert a.out[src][i] in a.out[src];
    }
    DistinctSameTargets(a.out[src], MarkAll(a.out[src]));
    ReplaceKeepsGood(a, src, MarkAll(a.out[src]));
    MarkAllFinds(a.out[src], x);
  }

  lemma SweepKeepsGood(c: Net, src: Id, x: Id)
    requires GoodNet(c) && src in c.out
    ensures var r := Swept(c, src);
            && GoodNet(r) && SameEnergies(c, r) && r.out.Keys == c.out.Keys
            && var f := FindEdge(c.out[src], x);
            FindEdge(Out(r.out, src), x) == if f.Some? && f.value.status != EdgeDeleted then f else None
  {
    assert FineVertex(c.out, src) && PositiveVertex(c.out, src);
    UnmarkedFinds(c.out[src], x);
    ReplaceKeepsGood(c, src, Unmarked(c.out[src]));
  }

  // ---------------------------------------------------------------- the weights of a report

  /** The weight of a link is that of the weaker of its two ends, from either side. */
  lemma WeakerEndCounts(n: Net, metric: Metric, u: Id, v: Id, etx: nat) returns (e: nat)
    ensures (e == EnergyOf(n, u) || e == EnergyOf(n, v)) && e <= EnergyOf(n, u) && e <= EnergyOf(n, v)
    ensures WeightOf(n, metric, u, v, etx) == metric(e, etx) == WeightOf(n, metric, v, u, etx)
  {
    e := if EnergyOf(n, u) < EnergyOf(n, v) then EnergyOf(n, u) else EnergyOf(n, v);
  }

  /**
    The weights after a report, entry by entry: the last entry for a neighbour gives the edge to it its weight,
    the first one the edge back when there was none; each time the weaker end counts.
   */
  lemma ReportedWeights(n: Net, metric: Metric, src: Id, ns: seq<Neighbor>, i: nat) returns (e: nat)
    requires GoodNet(n) && GoodMetric(metric) && i < |ns|
    ensures var x := ns[i].id;
            var r := Report(n, metric, src, ns);
            && (e == EnergyOf(n, src) || e == EnergyOf(n, x)) && e <= EnergyOf(n, src) && e <= EnergyOf(n, x)
            && ((forall j :: i < j < |ns| ==> ns[j].id != x) ==>
                  HasEdge(r.out, src, x) && EdgeWeight(r.out, src, x) == metric(e, ns[i].etx))
            && (x != src && !HasEdge(n.out, x, src) && (forall j :: 0 <= j < i ==> ns[j].id != x) ==>
                  HasEdge(r.out, x, src) && EdgeWeight(r.out, x, src) == metric(e, ns[i].etx))
  {
    var x, other: Id := ns[i].id, if src == 0 then 1 else 0;
    e := WeakerEndCounts(n, metric, src, x, ns[i].etx);
    ReportIsExact(n, metric, src, ns, x, if x == src then other else x);
    if forall j :: i < j < |ns| ==> ns[j].id != x {
      LastOfAll(ns, i);
    }
    if forall j :: 0 <= j < i ==> ns[j].id != x {
      FirstOfAll(ns, i);
    }
    if x != src && !HasEdge(n.out, x, src) {
      assert FineVertex(n.out, x);
      var w := WeightOf(n, metric, src, x, FirstEtx(ns, x));
      AddEdgeFinds(Out(n.out, x), src, FirstEtx(ns, x), w, src);
    }
  }

  lemma {:induction false} LastOfAll(ns: seq<Neighbor>, i: nat)
    requires i < |ns| && forall j :: i < j < |ns| ==> ns[j].id != ns[i].id
    ensures LastEtx(ns, ns[i].id) == ns[i].etx
    decreases |ns|
  {
    if i < |ns| - 1 {
      LastOfAll(ns[..|ns| - 1], i);
    }
  }

  lemma {:induction false} FirstOfAll(ns: seq<Neighbor>, i: nat)
    requires i < |ns| && forall j :: 0 <= j < i ==> ns[j].id != ns[i].id
    ensures FirstEtx(ns, ns[i].id) == ns[i].etx
    decreases |ns|
  {
    if i < |ns| - 1 {
      assert ns[..|ns| - 1][i].id == ns[i].id;
      FirstOfAll(ns[..|ns| - 1], i);
    }
  }

  /** Where an added edge stands and what its status says: behind the header when new, else where it was. */
  lemma {:induction false} AddedEdgePlace(es: seq<Edge>, to: Id, etx: nat, w: int, i: nat)
    requires i < |es| ==> es[i].to == to
    requires i <= |es| && forall j :: 0 <= j < i ==> es[j].to != to
    ensures AddEdge(es, to, etx, w) ==
            if i == |es| then
              es[..if es == [] then 0 else 1] + [Edge(to, etx, w, EdgeNew)] + es[if es == [] then 0 else 1..]
            else es[i := Edge(to, etx, w, if es[i].weight == w then EdgeStatic else EdgeUpdated)]
    decreases i
  {
    if i < |es| {
      FoundAt(es, to, i);
      UpdatedAt(es, to, etx, w, i);
    } else if es != [] {
      assert es[..1] == [es[0]];
    }
  }

  lemma {:induction false} FoundAt(es: seq<Edge>, to: Id, i: nat)
    requires i < |es| && es[i].to == to
    ensures FindEdge(es, to).Some?
  {
    assert es[i] in es;
  }

  lemma {:induction false} UpdatedAt(es: seq<Edge>, to: Id, etx: nat, w: int, i: nat)
    requires i < |es| && es[i].to == to && forall j :: 0 <= j < i ==> es[j].to != to
    ensures UpdateEdge(es, to, etx, w) ==
            es[i := Edge(to, etx, w, if es[i].weight == w then EdgeStatic else EdgeUpdated)]
    decreases i
  {
    if i > 0 {
      UpdatedAt(es[1..], to, etx, w, i - 1);
    }
  }
}
