/**
  What a node is told about its entries, byte by byte, in every run: the packet that reaches it carries the
  destination, the action and the next hop of the flow table at the offsets the node reads.
 */
module SetupContents {
  import opened Bytes
  import opened Options
  import opened Graphs
  import opened Routes
  import opened NeighborReports
  import opened FlowTables
  import opened RouteUpdates
  import opened TableSafety
  import opened SetupPushes
  import opened ControllerRuns
  import opened RunSafety
  import opened SetupDelivery
  import Packets = SourceRouting

  /** The address or flow id at bytes `at` and `at + 1`. */
  ghost predicate Reads(p: seq<Byte>, at: nat, a: Id) {
    at + 1 < |p| && var hi: nat, lo: nat := p[at], p[at + 1]; a == 256 * hi + lo
  }

  /** What the node takes out of a setup: for whom it is, the action and the next hop. */
  ghost predicate Tells(p: seq<Byte>, e: Entry) {
    && |p| >= 13 && Reads(p, 8, e.key) && Reads(p, 11, e.nextHop)
    && p[10] == (match e.action case Receive => 1 case Forward => 2 case Drop => 4)
  }

  lemma BodyTells(self: Id, kind: Kind, seqNo: Byte, m: Setup, e: Entry, p: seq<Byte>)
    requires Carries(m, e) && |p| >= 13 && p[8..13] == ContentOf(self, kind, seqNo, m).body
    ensures Tells(p, e)
  {
    var body := ContentOf(self, kind, seqNo, m).body;
    assert forall i :: 0 <= i < 5 ==> p[8 + i] == p[8..13][i];
  }

  lemma PlainTells(self: Id, kind: Kind, seqNo: Byte, m: Setup, e: Entry, thl: Byte)
    requires Carries(m, e)
    ensures var p := Packets.Plain(ContentOf(self, kind, seqNo, m), thl);
            && Tells(p, e) && Reads(p, 6, e.source) && p[0] == (if kind.ByAddress? then 0 else 1)
  {
    var c := ContentOf(self, kind, seqNo, m);
    var p := Packets.Plain(c, thl);
    assert p[8..13] == c.body;
    BodyTells(self, kind, seqNo, m, e, p);
  }

  /**
    Where the packet of a push ends: with the node of the entry, or, over a route of more than 49 intermediate
    nodes, at a vertex that passes it on by flow table to that node.
   */
  ghost predicate ToldAt(end: Packets.End, e: Entry, byAddress: bool, hops: nat) {
    if hops <= 49 then
      end.Done? && end.at == e.source && Tells(end.packet, e) && end.packet[0] == (if byAddress then 0xE6 else 0xE7)
    else
      && end.HandedOver? && Tells(end.packet, e)
      && Reads(end.packet, 6, e.source) && end.packet[0] == (if byAddress then 0 else 1)
  }

  lemma DeliveredTells(g: Graph, self: Id, kind: Kind, seqNo: Byte, m: Setup, e: Entry, r: Route,
                       visited: seq<Id>, end: Packets.End)
    requires Carries(m, e) && |r| >= 2
    requires Delivered(g, ContentOf(self, kind, seqNo, m), self, r, visited, end)
    ensures ToldAt(end, e, kind.ByAddress?, |r| - 2)
  {
    hide Tells;
    hide Packets.Plain;
    if |r| - 2 <= 49 {
      BodyTells(self, kind, seqNo, m, e, end.packet);
    } else {
      var at := visited[|visited| - 1];
      var thl: Byte :| end == Packets.HandedOver(at, Packets.Plain(ContentOf(self, kind, seqNo, m), thl));
      PlainTells(self, kind, seqNo, m, e, thl);
    }
  }

  lemma {:induction false} RunKeepsKind(c: Site, st: State, events: seq<Event>)
    ensures Run(c, st, events).kind.ByAddress? == st.kind.ByAddress?
    decreases |events|
  {
    if events != [] {
      hide PushSetup;
      hide Serve;
      RunKeepsKind(c, Step(c, st, events[0]), events[1..]);
    }
  }

  /**
    The packet of a push travels over links from the controller and brings destination, action and next hop of
    the entry to its node, or to a vertex that passes them on when the route is too long for the packet.
   */
  ghost predicate Informs(g: Graph, self: Id, kind: Kind, seqNo: Byte, m: Setup, e: Entry, r: Route,
                          visited: seq<Id>, end: Packets.End)
  {
    && IsRoute(g, self, e.source, r) && IsPath(g, [self] + visited)
    && Packets.KindOf(Packets.Built(ContentOf(self, kind, seqNo, m), r)).Some?
    && (visited, end) == Packets.Journey(self, Packets.Built(ContentOf(self, kind, seqNo, m), r))
    && ToldAt(end, e, kind.ByAddress?, |r| - 2)
  }

  lemma SentInforms(c: Site, n: Net, ps: seq<Push>, kind: Kind, seqNo: Byte, m: Setup, e: Entry)
    returns (r: Route, visited: seq<Id>, end: Packets.End)
    requires GoodNet(n) && m.source != c.self && Carries(m, e)
    requires Reachable(n.out, c.self, m.source) && c.room(|ps|)
    ensures Informs(n.out, c.self, kind, seqNo, m, e, r, visited, end)
  {
    hide Packets.Journey;
    hide Packets.Built;
    hide ToldAt;
    hide PushSetup;
    PushIsExact(c, n, ps, m);
    r, visited, end := SentSetupArrives(c, n, ps, kind, seqNo, m);
    DeliveredTells(n.out, c.self, kind, seqNo, m, e, r, visited, end);
  }

  /**
    In every state of every run, for every unmarked entry: its last push (number `i`, at step `n`) carries it, a
    FORWARD one the next hop of the table, and it was sent exactly when the controller could reach the node and
    there was room.  If it was sent to another node than the controller, its packet has informed that node.
   */
  lemma NodeIsTold(c: Site, st: State, events: seq<Event>, e: Entry, seqNo: Byte)
    returns (i: nat, n: nat, r: Route, visited: seq<Id>, end: Packets.End)
    requires Initial(st) && e in Run(c, st, events).table && !e.changed
    ensures var x := Run(c, st, events);
            && i == LastPush(x.pushes, e.source, e.key) < |x.pushes| && n < |events|
            && Carries(x.pushes[i].setup, e)
            && Hop1(x.table, e.key, e.source) == (if e.action == Forward then Some(x.pushes[i].setup.nextHop) else None)
            && var y := Run(c, st, events[..n]);
            && (x.pushes[i].sent <==> Reachable(y.net.out, c.self, e.source) && c.room(i))
            && y.kind.ByAddress? == st.kind.ByAddress?
            && (x.pushes[i].sent && e.source != c.self ==>
                  Informs(y.net.out, c.self, y.kind, seqNo, x.pushes[i].setup, e, r, visited, end))
  {
    hide Run;
    hide Step;
    hide Informs;
    i, n := UnmarkedWasPushed(c, st, events, e);
    var x, y := Run(c, st, events), Run(c, st, events[..n]);
    InitialIsSafe(st);
    RunIsSafe(c, st, events[..n]);
    RunIsSafe(c, st, events);
    RunKeepsKind(c, st, events[..n]);
    HopOfEntry(x, e);
    r, visited, end := [], [], Packets.Discarded(0);
    if x.pushes[i].sent && e.source != c.self {
      r, visited, end := SentInforms(c, y.net, y.pushes, y.kind, seqNo, x.pushes[i].setup, e);
    }
  }

  lemma HopOfEntry(st: State, e: Entry)
    requires Safe(st) && e in st.table
    ensures Hop1(st.table, e.key, e.source) == if e.action == Forward then Some(e.nextHop) else None
  {
    EntryLookup(st.table, e);
  }
}
