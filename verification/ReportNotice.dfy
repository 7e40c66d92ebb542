/**
  Whether process_neighbor_report notices that a report has changed the digraph: only then a pass follows.  What it
  does not notice is the loss of the header edge of the sender when no other edge goes with it.
 */
module ReportNotice {
  import opened Options
  import opened Graphs
  import opened NeighborReports

  /** The status of the edge just added or updated, or the missing edge back, counts as a change. */
  predicate EntryChanges(n: Net, metric: Metric, src: Id, nb: Neighbor) {
    var b := Connect(WithVertex(n, nb.id), metric, src, nb.id, nb.etx);
    var e := FindEdge(Out(b.out, src), nb.id);
    (e.Some? && e.value.status != EdgeStatic) || !HasEdge(b.out, nb.id, src)
  }

  predicate LoopChanges(n: Net, metric: Metric, src: Id, ns: seq<Neighbor>) {
    ns != [] &&
    var init := ns[..|ns| - 1];
    LoopChanges(n, metric, src, init) || EntryChanges(ReportAll(n, metric, src, init), metric, src, ns[|ns| - 1])
  }

  /** What digraph_del_marked_edges_to_del_from returns: the header comes last and counts only when it is alone. */
  predicate SweepChanges(es: seq<Edge>) {
    (|es| == 1 && es[0].status == EdgeDeleted) || exists i :: 1 <= i < |es| && es[i].status == EdgeDeleted
  }

  /** The digraph_changed flag at the end. */
  predicate Noticed(n: Net, metric: Metric, src: Id, ns: seq<Neighbor>) {
    var b := Marked(n, src);
    src !in n.out || LoopChanges(b, metric, src, ns) || SweepChanges(Out(ReportAll(b, metric, src, ns).out, src))
  }

  // ---------------------------------------------------------------- what the flag means

  /** The entry names an existing link in both directions whose weight it does not change. */
  ghost predicate Known(n: Net, metric: Metric, src: Id, nb: Neighbor) {
    && HasEdge(n.out, src, nb.id) && HasEdge(n.out, nb.id, src)
    && EdgeWeight(n.out, src, nb.id) == WeightOf(n, metric, src, nb.id, nb.etx)
  }

  /** The same edges with the same weights in the same order. */
  ghost predicate SameLinks(es: seq<Edge>, fs: seq<Edge>) {
    |fs| == |es| && forall i :: 0 <= i < |es| ==> fs[i].to == es[i].to && fs[i].weight == es[i].weight
  }

  lemma {:induction false} SameLinksFind(es: seq<Edge>, fs: seq<Edge>, x: Id)
    requires SameLinks(es, fs)
    ensures FindEdge(es, x).Some? <==> FindEdge(fs, x).Some?
    ensures FindEdge(es, x).Some? ==> FindEdge(es, x).value.weight == FindEdge(fs, x).value.weight
  {
    if es != [] {
      SameLinksFind(es[1..], fs[1..], x);
    }
  }

  /** Only the edge list of the sender is different, and only in metrics and statuses. */
  ghost predicate Quiet(n: Net, c: Net, src: Id) {
    src in n.out && src in c.out && c == n.(out := n.out[src := c.out[src]]) && SameLinks(n.out[src], c.out[src])
  }

  lemma QuietKnown(n: Net, c: Net, metric: Metric, src: Id, nb: Neighbor)
    requires Quiet(n, c, src)
    ensures Known(n, metric, src, nb) <==> Known(c, metric, src, nb)
  {
    SameLinksFind(n.out[src], c.out[src], nb.id);
    SameLinksFind(n.out[src], c.out[src], src);
  }

  /** One entry: no change exactly when it is known, and then only its edge gets metric and status. */
  lemma EntryIsQuiet(n: Net, metric: Metric, src: Id, nb: Neighbor, j: nat)
    requires GoodNet(n) && src in n.out
    ensures !EntryChanges(n, metric, src, nb) <==> Known(n, metric, src, nb)
    ensures Known(n, metric, src, nb) ==>
              var c := ReportOne(n, metric, src, nb);
              && Quiet(n, c, src)
              && (j < |n.out[src]| ==>
                    c.out[src][j].status == if n.out[src][j].to == nb.id then EdgeStatic else n.out[src][j].status)
  {
    var a := WithVertex(n, nb.id);
    var es, w := a.out[src], WeightOf(a, metric, src, nb.id, nb.etx);
    assert FineVertex(n.out, src) && FineVertex(n.out, nb.id);
    if HasEdge(n.out, src, nb.id) {
      assert a == n;
      UpdatedEdge(es, nb.id, nb.etx, w, j);
      UpdateEdgeFinds(es, nb.id, nb.etx, w, src);
    } else {
      assert FindEdge(AddEdge(es, nb.id, nb.etx, w), nb.id).value.status == EdgeNew by {
        AddedIsNew(es, nb.id, nb.etx, w);
      }
    }
  }

  /** The status of an edge after digraph_add_edge. */
  lemma AddedStatus(es: seq<Edge>, to: Id, etx: nat, w: int)
    requires Distinct(es)
    ensures var o, e := FindEdge(es, to), FindEdge(AddEdge(es, to, etx, w), to);
            && e.Some?
            && e.value.status == if o.None? then EdgeNew else if o.value.weight == w then EdgeStatic else EdgeUpdated
  {
    if FindEdge(es, to).Some? {
      UpdatedEdge(es, to, etx, w, 0);
    } else {
      AddedIsNew(es, to, etx, w);
    }
  }

  lemma AddedIsNew(es: seq<Edge>, to: Id, etx: nat, w: int)
    requires FindEdge(es, to).None?
    ensures FindEdge(AddEdge(es, to, etx, w), to) == Some(Edge(to, etx, w, EdgeNew))
  {
    var e := Edge(to, etx, w, EdgeNew);
    if es != [] {
      assert es[0] in es && AddEdge(es, to, etx, w)[1..] == [e] + es[1..];
    }
  }

  /** What an update does to the edge it finds, and to the edge in place `j`. */
  lemma {:induction false} UpdatedEdge(es: seq<Edge>, to: Id, etx: nat, w: int, j: nat)
    requires FindEdge(es, to).Some? && Distinct(es)
    ensures var r := UpdateEdge(es, to, etx, w);
            var same := FindEdge(es, to).value.weight == w;
            && |r| == |es| && FindEdge(r, to) == Some(Edge(to, etx, w, if same then EdgeStatic else EdgeUpdated))
            && (same ==> SameLinks(es, r))
            && (same && j < |es| ==> r[j].status == if es[j].to == to then EdgeStatic else es[j].status)
  {
    DistinctTail(es);
    if es[0].to != to {
      UpdatedEdge(es[1..], to, etx, w, if j == 0 then 0 else j - 1);
      var r := UpdateEdge(es, to, etx, w);
      assert r[1..] == UpdateEdge(es[1..], to, etx, w);
      assert FindEdge(es, to).value.weight == w ==> SameLinks(es, r) by {
        LinksCons(es, r);
      }
    } else if 0 < j < |es| {
      assert es[j] in es[1..];
    }
  }

  lemma LinksCons(es: seq<Edge>, fs: seq<Edge>)
    requires es != [] && fs != [] && es[0] == fs[0]
    ensures SameLinks(es[1..], fs[1..]) ==> SameLinks(es, fs)
  {
    if SameLinks(es[1..], fs[1..]) {
      forall i | 0 < i < |es| ensures fs[i].to == es[i].to && fs[i].weight == es[i].weight {
        assert fs[i] == fs[1..][i - 1] && es[i] == es[1..][i - 1];
      }
    }
  }

  lemma QuietTwice(a: Net, b: Net, c: Net, src: Id)
    requires Quiet(a, b, src) && Quiet(b, c, src)
    ensures Quiet(a, c, src)
  {
  }

  /** The loop over the entries: no change exactly when all of them are known. */
  lemma {:induction false} LoopIsQuiet(n: Net, metric: Metric, src: Id, ns: seq<Neighbor>, j: nat)
    requires GoodNet(n) && GoodMetric(metric) && src in n.out
    ensures !LoopChanges(n, metric, src, ns) <==> forall i :: 0 <= i < |ns| ==> Known(n, metric, src, ns[i])
    ensures !LoopChanges(n, metric, src, ns) ==>
              var c := ReportAll(n, metric, src, ns);
              && Quiet(n, c, src)
              && (j < |n.out[src]| ==>
                    c.out[src][j].status == if Reported(ns, n.out[src][j].to) then EdgeStatic else n.out[src][j].status)
  {
    hide EntryChanges;
    hide ReportOne;
    hide Known;
    hide GoodNet;
    hide GoodMetric;
    if ns != [] {
      var init, nb := ns[..|ns| - 1], ns[|ns| - 1];
      var b := ReportAll(n, metric, src, init);
      assert ns == init + [nb];
      LoopIsQuiet(n, metric, src, init, j);
      ReportAllKeepsGood(n, metric, src, init);
      if !LoopChanges(n, metric, src, init) {
        EntryIsQuiet(b, metric, src, nb, j);
        QuietKnown(n, b, metric, src, nb);
        if Known(n, metric, src, nb) {
          QuietTwice(n, b, ReportOne(b, metric, src, nb), src);
          if j < |n.out[src]| {
            ReportedSnoc(init, nb, n.out[src][j].to);
          }
        }
      }
    }
  }

  /** The sender is known, and so is all that it reports; of its edges at most the header goes, and not alone. */
  ghost predicate Overlookable(n: Net, metric: Metric, src: Id, ns: seq<Neighbor>) {
    && src in n.out
    && (forall i :: 0 <= i < |ns| ==> Known(n, metric, src, ns[i]))
    && (forall j :: 1 <= j < |n.out[src]| ==> Reported(ns, n.out[src][j].to))
    && (|n.out[src]| == 1 ==> Reported(ns, n.out[src][0].to))
  }

  /**
    A report goes unnoticed exactly when it comes from a known sender, names only existing two-way links without
    changing their weights, and leaves out at most the header edge of the sender, and that only when there are
    other edges.
   */
  lemma NoticedExactly(n: Net, metric: Metric, src: Id, ns: seq<Neighbor>)
    requires GoodNet(n) && GoodMetric(metric)
    ensures Noticed(n, metric, src, ns) <==> !Overlookable(n, metric, src, ns)
  {
    hide Known;
    if src in n.out {
      var b := Marked(n, src);
      var es := n.out[src];
      MarkedKeepsGood(n, src, src);
      assert Quiet(n, b, src);
      forall i | 0 <= i < |ns| ensures Known(b, metric, src, ns[i]) <==> Known(n, metric, src, ns[i]) {
        QuietKnown(n, b, metric, src, ns[i]);
      }
      LoopIsQuiet(b, metric, src, ns, 0);
      if !LoopChanges(b, metric, src, ns) {
        var fs := ReportAll(b, metric, src, ns).out[src];
        forall j | 0 <= j < |es| ensures fs[j].status == EdgeDeleted <==> !Reported(ns, es[j].to) {
          LoopIsQuiet(b, metric, src, ns, j);
        }
        assert |fs| == |es|;
      }
    }
  }

  /** A report that names a missing link is noticed. */
  lemma NewLinkIsNoticed(n: Net, metric: Metric, src: Id, ns: seq<Neighbor>, i: nat)
    requires GoodNet(n) && GoodMetric(metric) && i < |ns| && !HasEdge(n.out, src, ns[i].id)
    ensures Noticed(n, metric, src, ns)
  {
    hide Noticed;
    NoticedExactly(n, metric, src, ns);
    assert !Known(n, metric, src, ns[i]);
  }

  /** So is an empty report of a vertex with edges. */
  lemma EmptyIsNoticed(n: Net, metric: Metric, src: Id)
    requires GoodNet(n) && GoodMetric(metric) && Out(n.out, src) != []
    ensures Noticed(n, metric, src, [])
  {
    hide Noticed;
    NoticedExactly(n, metric, src, []);
    var es := Out(n.out, src);
    assert |es| > 1 ==> !Reported([], es[1].to);
  }

  /** An unnoticed report leaves no vertex without out-edge that had one. */
  lemma UnnoticedKeepsHeaders(n: Net, metric: Metric, src: Id, ns: seq<Neighbor>, v: Id)
    requires GoodNet(n) && GoodMetric(metric) && !Noticed(n, metric, src, ns)
    ensures Out(Report(n, metric, src, ns).out, v) == [] <==> Out(n.out, v) == []
  {
    hide Noticed;
    hide Report;
    var g := Report(n, metric, src, ns).out;
    NoticedExactly(n, metric, src, ns);
    var es := Out(n.out, v);
    if es != [] {
      var kept := if |es| == 1 then es[0].to else es[1].to;
      assert FineVertex(n.out, v) && DifferentTargets(es, 0, 1);
      assert HasEdge(n.out, v, kept) by {
        assert if |es| == 1 then es[0] in es else es[1] in es;
      }
      UnnoticedKeepsEdges(n, metric, src, ns, v, kept);
      assert HasEdge(g, v, kept) && Out(g, v) != [];
    } else {
      forall x: Id ensures !HasEdge(g, v, x) {
        UnnoticedKeepsEdges(n, metric, src, ns, v, x);
      }
      assert Out(g, v) != [] ==> HasEdge(g, v, Out(g, v)[0].to);
    }
  }

  /** The header edge of the sender is not in the report. */
  ghost predicate LosesHeader(n: Net, src: Id, ns: seq<Neighbor>) {
    src in n.out && n.out[src] != [] && !Reported(ns, n.out[src][0].to)
  }

  /** An unnoticed report leaves all edges and weights as they were, except that the header edge may be lost. */
  lemma UnnoticedKeepsEdges(n: Net, metric: Metric, src: Id, ns: seq<Neighbor>, v: Id, x: Id)
    requires GoodNet(n) && GoodMetric(metric) && !Noticed(n, metric, src, ns)
    ensures var r := Report(n, metric, src, ns);
            && r.out.Keys == n.out.Keys
            && (HasEdge(r.out, v, x) <==>
                  HasEdge(n.out, v, x) && !(v == src && LosesHeader(n, src, ns) && x == n.out[src][0].to))
            && (HasEdge(r.out, v, x) ==> EdgeWeight(r.out, v, x) == EdgeWeight(n.out, v, x))
            && (v != src ==> Out(r.out, v) == Out(n.out, v))
  {
    hide Noticed;
    hide Report;
    NoticedExactly(n, metric, src, ns);
    VerticesStay(n, metric, src, ns);
    var other: Id := if src == 0 then 1 else 0;
    ReportIsExact(n, metric, src, ns, x, if v == src then other else v);
    if v != src {
      if Reported(ns, v) {
        var i :| 0 <= i < |ns| && ns[i].id == v;
        assert Known(n, metric, src, ns[i]);
      }
    } else {
      SourceStays(n, metric, src, ns, x);
    }
  }

  lemma VerticesStay(n: Net, metric: Metric, src: Id, ns: seq<Neighbor>)
    requires GoodNet(n) && GoodMetric(metric) && Overlookable(n, metric, src, ns)
    ensures Report(n, metric, src, ns).out.Keys == n.out.Keys
  {
    hide Report;
    ReportKeepsGood(n, metric, src, ns);
    assert FineVertex(n.out, src);
    forall y | y in ReportedIds(ns) ensures y in n.out {
      var i :| 0 <= i < |ns| && ns[i].id == y;
      assert Known(n, metric, src, ns[i]);
    }
  }

  lemma SourceStays(n: Net, metric: Metric, src: Id, ns: seq<Neighbor>, x: Id)
    requires GoodNet(n) && GoodMetric(metric) && Overlookable(n, metric, src, ns)
    ensures Reported(ns, x) <==> HasEdge(n.out, src, x) && !(LosesHeader(n, src, ns) && x == n.out[src][0].to)
    ensures Reported(ns, x) ==> EdgeWeight(n.out, src, x) == WeightOf(n, metric, src, x, LastEtx(ns, x))
  {
    if Reported(ns, x) {
      var i := LastIndex(ns, x);
      assert Known(n, metric, src, ns[i]);
    } else if HasEdge(n.out, src, x) {
      var e := FindEdge(Out(n.out, src), x).value;
      var j :| 0 <= j < |n.out[src]| && n.out[src][j] == e;
    }
  }

  lemma {:induction false} LastIndex(ns: seq<Neighbor>, x: Id) returns (i: nat)
    requires Reported(ns, x)
    ensures i < |ns| && ns[i].id == x && LastEtx(ns, x) == ns[i].etx
    decreases |ns|
  {
    i := |ns| - 1;
    if ns[i].id != x {
      assert ns == ns[..i] + [ns[i]];
      ReportedSnoc(ns[..i], ns[i], x);
      i := LastIndex(ns[..i], x);
    }
  }
}
