/**
  From the push of a table entry to its node: the packet built from the route of the search arrives.
 */
module SetupDelivery {
  import opened Bytes
  import opened Options
  import opened Graphs
  import opened Routes
  import opened NeighborReports
  import opened FlowTables
  import opened RouteUpdates
  import opened SetupPushes
  import Packets = SourceRouting

  function ActionByte(a: Action): Byte {
    match a
    case Receive => 1
    case Forward => 2
    case Drop => 4
  }

  /** What a setup packet of either table carries. */
  function ContentOf(self: Id, kind: Kind, seqNo: Byte, m: Setup): Packets.Content {
    Packets.Fields(if kind.ByAddress? then Packets.ControlSetup else Packets.DataSetup, seqNo, self,
                   Packets.AddrBytes(m.key) + [ActionByte(m.action)] + Packets.AddrBytes(m.nextHop), m.source)
  }

  /** The vertices of a route from node `i - 1` down to node `lo` form a path. */
  lemma {:induction false} DownIsPath(g: Graph, s: Id, d: Id, r: Route, lo: nat, i: nat)
    requires IsRoute(g, s, d, r) && lo < i <= |r|
    ensures var p := Packets.Down(r, lo, i); PathFromTo(g, p, r[i - 1].id, r[lo].id)
    decreases i
  {
    var p := Packets.Down(r, lo, i);
    if i == lo + 1 {
      assert p == [r[lo].id];
    } else {
      DownIsPath(g, s, d, r, lo, i - 1);
      var q := Packets.Down(r, lo, i - 1);
      assert p == [r[i - 1].id] + q && RouteHop(g, r, i - 1);
      forall j ensures Hop(g, p, j) {
        assert Hop(g, q, j - 1);
      }
    }
  }

  /** The route a push to another node finds. */
  ghost function PushRoute(n: Net, self: Id, v: Id): (r: Option<Route>)
    requires GoodNet(n)
    ensures r.Some? <==> self != v && Reachable(n.out, self, v)
    ensures r.Some? ==> IsRoute(n.out, self, v, r.value)
  {
    WithVertexKeepsGood(n, self);
    var m := WithVertex(n, self);
    WithVertexSameEdges(n, self);
    SameEdgesSameReach(n.out, m.out, self, v);
    var r := FindRoute(m.out, self, v);
    assert r.Some? ==> IsRoute(n.out, self, v, r.value) by {
      if r.Some? {
        SameEdgesSameRoute(n.out, m.out, self, v, r.value);
      }
    }
    r
  }

  /**
    The journey of a setup built from route `r`: along existing edges, and up to MAX_HOPS intermediate nodes
    exactly as it is to the target; over a longer route it comes to the last node that fits into the packet
    and goes on from there by flow table.
   */
  ghost predicate Delivered(g: Graph, content: Packets.Content, self: Id, r: Route, visited: seq<Id>, end: Packets.End)
    requires content.kind != Packets.Ack
  {
    && visited != [] && IsPath(g, [self] + visited)
    && if |r| - 2 <= Packets.MAX_HOPS
       then visited[|visited| - 1] == content.target && Brings(content, end)
       else HandsOver(content, visited[|visited| - 1], end)
  }

  ghost predicate Brings(content: Packets.Content, end: Packets.End) {
    && end.Done? && end.at == content.target
    && |end.packet| >= 13 && end.packet[8..13] == content.body && Packets.KindOf(end.packet) == Some(content.kind)
  }

  ghost predicate HandsOver(content: Packets.Content, at: Id, end: Packets.End)
    requires content.kind != Packets.Ack
  {
    exists thl: Byte :: end == Packets.HandedOver(at, Packets.Plain(content, thl))
  }

  lemma RouteDelivers(g: Graph, self: Id, content: Packets.Content, r: Route)
    returns (visited: seq<Id>, end: Packets.End)
    requires IsRoute(g, self, content.target, r) && content.kind != Packets.Ack
    ensures Packets.KindOf(Packets.Built(content, r)).Some?
    ensures (visited, end) == Packets.Journey(self, Packets.Built(content, r))
    ensures Delivered(g, content, self, r, visited, end)
  {
    hide Packets.Journey;
    hide Packets.Built;
    hide Packets.Packet;
    hide Packets.Plain;
    hide IsPath;
    var lo := Packets.Cut(r);
    Packets.RouteIsFollowed(content, r);
    visited := Packets.Down(r, lo, |r| - 1);
    DownIsPath(g, self, content.target, r, lo, |r| - 1);
    DownIsPath(g, self, content.target, r, lo, |r|);
    assert Packets.Down(r, lo, |r|) == [self] + visited;
    var thl: Byte := Packets.DEFAULT_TTL - 1 - (|r| - 2 - lo);
    end := Packets.Ending(content, thl, r, lo);
    if lo == 0 {
      BodyOf(content, thl, r);
    } else {
      assert end == Packets.HandedOver(r[lo].id, Packets.Plain(content, thl));
    }
  }

  lemma BodyOf(content: Packets.Content, thl: Byte, r: Route)
    requires r != [] && content.kind != Packets.Ack
    ensures var p := Packets.Packet(content, thl, r, 0, 0);
            |p| >= 13 && p[8..13] == content.body && Packets.KindOf(p) == Some(content.kind)
  {
  }

  /** A setup that was sent to another node is delivered along the route the push has found. */
  lemma SentSetupArrives(c: Site, n: Net, ps: seq<Push>, kind: Kind, seqNo: Byte, m: Setup)
    returns (r: Route, visited: seq<Id>, end: Packets.End)
    requires GoodNet(n) && m.source != c.self && PushSetup(c, n, ps, m).1 == ps + [Push(m, true)]
    ensures PushRoute(n, c.self, m.source) == Some(r) && |r| >= 2
    ensures var content := ContentOf(c.self, kind, seqNo, m);
            && Packets.KindOf(Packets.Built(content, r)).Some?
            && (visited, end) == Packets.Journey(c.self, Packets.Built(content, r))
            && Delivered(n.out, content, c.self, r, visited, end)
  {
    hide Packets.Journey;
    hide Packets.Built;
    hide Delivered;
    PushIsExact(c, n, ps, m);
    assert (ps + [Push(m, true)])[|ps|] == Push(m, true);
    r := PushRoute(n, c.self, m.source).value;
    visited, end := RouteDelivers(n.out, c.self, ContentOf(c.self, kind, seqNo, m), r);
  }
}
