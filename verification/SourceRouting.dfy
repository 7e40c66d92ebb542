/**
  Source-routed packets byte by byte: how the controller builds them from a route
  (controller-server/sdn-process-packets-controller.c) and how the nodes on the way consume the route
  (sdn-common/sdn-process-packets.c).
 */
module SourceRouting {
  import opened Bytes
  import opened Options
  import opened Graphs
  import opened Routes

  datatype Kind = ControlSetup | DataSetup | Ack

  const MAX_PACKET_SIZE := 115
  const DEFAULT_TTL: Byte := 60
  const RESERVED: Byte := 0xFF
  const THL_AT := 2
  const DEST_AT := 6

  // Packet types of sdn-protocol.h.
  const CONTROL_FLOW_SETUP: Byte := 0
  const DATA_FLOW_SETUP: Byte := 1
  const SRC_ROUTED_ACK: Byte := 13
  const SRC_ROUTED_CONTROL_FLOW_SETUP: Byte := 0xE6
  const SRC_ROUTED_DATA_FLOW_SETUP: Byte := 0xE7

  /** Size of the packet without the path. */
  function Base(k: Kind): nat {
    if k == Ack then 13 else 16
  }

  function TypeOf(k: Kind): Byte {
    match k
    case ControlSetup => SRC_ROUTED_CONTROL_FLOW_SETUP
    case DataSetup => SRC_ROUTED_DATA_FLOW_SETUP
    case Ack => SRC_ROUTED_ACK
  }

  /** The type and the size a setup gets when it goes on by flow table. */
  function PlainType(k: Kind): Byte {
    if k == ControlSetup then CONTROL_FLOW_SETUP else DATA_FLOW_SETUP
  }

  const PLAIN_SIZE := 13

  function KindOf(p: seq<Byte>): Option<Kind> {
    if p == [] then None
    else if p[0] == SRC_ROUTED_CONTROL_FLOW_SETUP then Some(ControlSetup)
    else if p[0] == SRC_ROUTED_DATA_FLOW_SETUP then Some(DataSetup)
    else if p[0] == SRC_ROUTED_ACK then Some(Ack)
    else None
  }

  function AddrBytes(a: Id): (b: seq<Byte>)
    ensures |b| == 2
  {
    [a / 256, a % 256]
  }

  function Addr(p: seq<Byte>, at: nat): Id
    requires at + 1 < |p|
  {
    var hi: nat, lo: nat := p[at], p[at + 1];
    256 * hi + lo
  }

  function SetAddr(p: seq<Byte>, at: nat, a: Id): (q: seq<Byte>)
    requires at + 1 < |p|
    ensures |q| == |p| && Addr(q, at) == a
    ensures forall i :: 0 <= i < |p| && i != at && i != at + 1 ==> q[i] == p[i]
  {
    p[at := a / 256][at + 1 := a % 256]
  }

  // ---------------------------------------------------------------- one node

  /** What the dispatch does with a source-routed packet. */
  datatype Outcome =
    | Malformed
    | Send(next: Id)
    | Requeue(packet: seq<Byte>)
    | Arrived
    | Lost

  function PathLen(k: Kind, p: seq<Byte>): nat
    requires Base(k) <= |p|
  {
    p[Base(k) - 1]
  }

  /** check_packet_len for the three kinds. */
  predicate LengthOk(k: Kind, p: seq<Byte>) {
    Base(k) <= |p| && Base(k) + 2 * PathLen(k, p) <= |p|
  }

  /** One address is taken from the end of the path and becomes the destination. */
  function Shortened(k: Kind, p: seq<Byte>): seq<Byte>
    requires LengthOk(k, p) && PathLen(k, p) > 0
  {
    var left := PathLen(k, p) - 1;
    SetAddr(p[Base(k) - 1 := left], DEST_AT, Addr(p, Base(k) + 2 * left))[..|p| - 2]
  }

  /** A setup whose path is used up turns into one routed by address. */
  function Unrouted(k: Kind, p: seq<Byte>): seq<Byte>
    requires LengthOk(k, p)
  {
    SetAddr(p[0 := PlainType(k)], DEST_AT, Addr(p, Base(k) - 3))[..PLAIN_SIZE]
  }

  function Treat(k: Kind, node: Id, p: seq<Byte>): Outcome {
    if !LengthOk(k, p) then Malformed
    else if Addr(p, DEST_AT) != node then Send(Addr(p, DEST_AT))
    else if PathLen(k, p) > 0 then Requeue(Shortened(k, p))
    else if Addr(p, Base(k) - 3) == node then Arrived
    else if k == Ack then Lost
    else Requeue(Unrouted(k, p))
  }

  // ---------------------------------------------------------------- one node, byte by byte

  /** The address at two bytes, high byte first. */
  ghost predicate AddressAt(p: seq<Byte>, at: nat, a: Id) {
    at + 1 < |p| && var hi: nat, lo: nat := p[at], p[at + 1]; a == 256 * hi + lo
  }

  /** All bytes of `q` outside `free` are those of `p`. */
  ghost predicate SameBut(p: seq<Byte>, q: seq<Byte>, free: set<nat>) {
    |q| <= |p| && forall i: nat :: i < |q| && i !in free ==> q[i] == p[i]
  }

  /** A path that fits behind the fixed part; its length is the last byte of that part. */
  ghost predicate WholePath(base: nat, p: seq<Byte>) {
    0 < base <= |p| && var hops: nat := p[base - 1]; base + 2 * hops <= |p|
  }

  /**
    What a node does with a source-routed packet, in offsets and sizes: malformed when fixed part or path do not
    fit; sent on when another node is the destination; at the destination one address is taken off the path, and
    a used-up path ends with arrival at the real destination, or elsewhere with a setup routed by address or
    with the loss of an acknowledgement.
   */
  lemma TreatInBytes(k: Kind, node: Id, p: seq<Byte>, d: Id, goal: Id)
    ensures var base := if k == Ack then 13 else 16;
            var o := Treat(k, node, p);
            && (!WholePath(base, p) <==> o == Malformed)
            && (WholePath(base, p) && AddressAt(p, 6, d) && AddressAt(p, base - 3, goal) ==>
                  if d != node then o == Send(d)
                  else if p[base - 1] > 0 then
                    var left: nat := p[base - 1] - 1;
                    && o.Requeue? && |o.packet| == |p| - 2 && o.packet[base - 1] == left
                    && o.packet[6] == p[base + 2 * left] && o.packet[7] == p[base + 2 * left + 1]
                    && SameBut(p, o.packet, {6, 7, base - 1})
                  else if goal == node then o == Arrived
                  else if k == Ack then o == Lost
                  else
                    && o.Requeue? && |o.packet| == 13 && o.packet[0] == (if k == ControlSetup then 0 else 1)
                    && AddressAt(o.packet, 6, goal) && SameBut(p, o.packet, {0, 6, 7}))
  {
    var base := Base(k);
    if WholePath(base, p) {
      var hops: nat := p[base - 1];
      assert PathLen(k, p) == hops;
      if AddressAt(p, 6, d) && AddressAt(p, base - 3, goal) && d == node && hops > 0 {
        var at := base + 2 * (hops - 1);
        var a := Addr(p, at);
        var hi: nat, lo: nat := p[at], p[at + 1];
        assert a == 256 * hi + lo && a / 256 == hi && a % 256 == lo;
      }
    }
  }

  // ---------------------------------------------------------------- the journey of a packet

  datatype End =
    | Done(at: Id, packet: seq<Byte>)
    | HandedOver(at: Id, packet: seq<Byte>)
    | Expired(at: Id)
    | Discarded(at: Id)
    | Dropped(at: Id)

  function Ahead(node: Id, p: seq<Byte>): nat
    requires KindOf(p).Some?
  {
    var k := KindOf(p).value;
    if LengthOk(k, p) then 2 * PathLen(k, p) + (if Addr(p, DEST_AT) != node then 1 else 0) else 0
  }

  /**
    The nodes that receive packet `p` by radio after `node` treats it, and how its source route ends.  A
    receiver first tests and lowers the hop limit; a packet put back into the queue is treated again.
   */
  function Journey(node: Id, p: seq<Byte>): (seq<Id>, End)
    requires KindOf(p).Some?
    decreases Ahead(node, p)
  {
    var k := KindOf(p).value;
    match Treat(k, node, p)
    case Malformed => ([], Discarded(node))
    case Arrived => ([], Done(node, p))
    case Lost => ([], Dropped(node))
    case Requeue(q) =>
      if KindOf(q).None? then ([], HandedOver(node, q))
      else
        assert PathLen(k, p) > 0 ==> q[0] == p[0];
        Journey(node, q)
    case Send(next) =>
      if p[THL_AT] == 0 then ([next], Expired(next))
      else
        var (visited, end) := Journey(next, p[THL_AT := p[THL_AT] - 1]);
        ([next] + visited, end)
  }

  // ---------------------------------------------------------------- building

  /** The most path addresses the controller puts into any packet; it uses the size of a setup for all kinds. */
  const MAX_HOPS := (MAX_PACKET_SIZE - 16) / 2

  /** The route nodes from position `lo` up to but not including `i`, in packet order. */
  function PathBytes(r: Route, lo: nat, i: nat): (b: seq<Byte>)
    requires lo <= i <= |r|
    ensures |b| == 2 * (i - lo)
  {
    if i == lo then [] else PathBytes(r, lo, i - 1) + AddrBytes(r[i - 1].id)
  }

  /** What stays the same on the way: sequence number, source, the fields of the setup or acknowledgement, target. */
  datatype Fields = Fields(kind: Kind, seqNo: Byte, source: Id, body: seq<Byte>, target: Id)

  type Content = c: Fields | |c.body| == Base(c.kind) - 11 witness Fields(Ack, 0, 0, [0, 0], 0)

  function Header(c: Content, thl: Byte, dest: Id, pathLen: Byte): (h: seq<Byte>)
    ensures |h| == Base(c.kind)
  {
    [TypeOf(c.kind), RESERVED, thl, c.seqNo] + AddrBytes(c.source) + AddrBytes(dest) + c.body + AddrBytes(c.target)
      + [pathLen]
  }

  /** The packet on its way to route node `i`, with the route down to node `lo` still inside. */
  function Packet(c: Content, thl: Byte, r: Route, lo: nat, i: nat): (p: seq<Byte>)
    requires lo <= i < |r| && i - lo <= MAX_HOPS
    ensures |p| == Base(c.kind) + 2 * (i - lo) <= MAX_PACKET_SIZE
  {
    Header(c, thl, r[i].id, i - lo) + PathBytes(r, lo, i)
  }

  /** The first route node that goes into the packet: longer routes lose their target end. */
  function Cut(r: Route): (lo: nat)
    requires |r| >= 2
    ensures lo <= |r| - 2 && |r| - 2 - lo <= MAX_HOPS
  {
    if |r| - 2 > MAX_HOPS then |r| - 2 - MAX_HOPS else 0
  }

  /** The packet the controller builds for the last node of the route to send. */
  function Built(c: Content, r: Route): (p: seq<Byte>)
    requires |r| >= 2
    ensures |p| <= MAX_PACKET_SIZE
  {
    Packet(c, DEFAULT_TTL, r, Cut(r), |r| - 2)
  }

  /** The same setup as a packet routed by address to the real destination. */
  function Plain(c: Content, thl: Byte): (p: seq<Byte>)
    requires c.kind != Ack
    ensures |p| == PLAIN_SIZE
  {
    [PlainType(c.kind), RESERVED, thl, c.seqNo] + AddrBytes(c.source) + AddrBytes(c.target) + c.body
  }

  // ---------------------------------------------------------------- the packet that is built, byte by byte

  lemma {:induction false} PathAt(r: Route, lo: nat, i: nat, j: nat)
    requires lo + j < i <= |r|
    ensures PathBytes(r, lo, i)[2 * j] == r[lo + j].id / 256 && PathBytes(r, lo, i)[2 * j + 1] == r[lo + j].id % 256
    decreases i
  {
    if lo + j < i - 1 {
      PathAt(r, lo, i - 1, j);
    }
  }

  /**
    The packet the controller builds, in offsets: type, hop limit 60, sequence number, source, the first node to
    go to, the fields, the real destination, and the route behind them from the target side on, without the
    controller, the first node and whatever is beyond 49 addresses.
   */
  lemma BuiltInBytes(c: Content, r: Route, j: nat)
    requires |r| >= 2
    ensures var p := Built(c, r);
            var base := if c.kind == Ack then 13 else 16;
            var n: nat := if |r| - 2 <= 49 then |r| - 2 else 49;
            && |p| == base + 2 * n && p[base - 1] == n
            && p[0] == (match c.kind case ControlSetup => 0xE6 case DataSetup => 0xE7 case Ack => 13)
            && p[2] == 60 && p[3] == c.seqNo && AddressAt(p, 4, c.source) && AddressAt(p, 6, r[|r| - 2].id)
            && p[8..base - 3] == c.body && AddressAt(p, base - 3, c.target)
            && (j < n ==> AddressAt(p, base + 2 * j, r[|r| - 2 - n + j].id))
  {
    var p, lo, n := Built(c, r), Cut(r), |r| - 2 - Cut(r);
    var h := Header(c, DEFAULT_TTL, r[|r| - 2].id, n);
    assert p[..|h|] == h && p[|h|..] == PathBytes(r, lo, |r| - 2);
    assert p[8..Base(c.kind) - 3] == c.body;
    if j < n {
      PathAt(r, lo, |r| - 2, j);
    }
  }

  // ---------------------------------------------------------------- every step of the way

  lemma HeaderFields(c: Content, thl: Byte, dest: Id, pathLen: Byte, path: seq<Byte>)
    ensures var p := Header(c, thl, dest, pathLen) + path;
            && KindOf(p) == Some(c.kind) && p[THL_AT] == thl && PathLen(c.kind, p) == pathLen
            && Addr(p, DEST_AT) == dest && Addr(p, Base(c.kind) - 3) == c.target
  {
  }

  lemma SetHeader(c: Content, thl: Byte, dest: Id, pathLen: Byte, d: Id, n: Byte)
    ensures SetAddr(Header(c, thl, dest, pathLen)[Base(c.kind) - 1 := n], DEST_AT, d) == Header(c, thl, d, n)
  {
  }

  lemma PathEnd(h: seq<Byte>, r: Route, lo: nat, i: nat)
    requires lo < i <= |r|
    ensures var p := h + PathBytes(r, lo, i);
            && Addr(p, |p| - 2) == r[i - 1].id
            && p[..|p| - 2] == h + PathBytes(r, lo, i - 1)
  {
    var p := h + PathBytes(r, lo, i);
    assert p == h + PathBytes(r, lo, i - 1) + AddrBytes(r[i - 1].id);
    assert p[|p| - 2..] == AddrBytes(r[i - 1].id);
  }

  lemma ShortenedIs(c: Content, thl: Byte, r: Route, lo: nat, i: nat)
    requires lo < i < |r| && i - lo <= MAX_HOPS
    ensures var p := Packet(c, thl, r, lo, i);
            LengthOk(c.kind, p) && PathLen(c.kind, p) == i - lo
            && Shortened(c.kind, p) == Packet(c, thl, r, lo, i - 1)
  {
    var p, path, n := Packet(c, thl, r, lo, i), PathBytes(r, lo, i), i - lo;
    HeaderFields(c, thl, r[i].id, n, path);
    PathEnd(Header(c, thl, r[i].id, n), r, lo, i);
    SetHeader(c, thl, r[i].id, n, r[i - 1].id, n - 1);
    var h := Header(c, thl, r[i - 1].id, n - 1);
    var t := Header(c, thl, r[i].id, n)[Base(c.kind) - 1 := n - 1];
    assert p[Base(c.kind) - 1 := n - 1] == t + path;
    assert SetAddr(t + path, DEST_AT, r[i - 1].id) == SetAddr(t, DEST_AT, r[i - 1].id) + path;
    PathEnd(h, r, lo, i);
  }

  lemma SendsOn(c: Content, thl: Byte, r: Route, lo: nat, i: nat, node: Id)
    requires lo <= i < |r| && i - lo <= MAX_HOPS && r[i].id != node
    ensures var p := Packet(c, thl, r, lo, i);
            && KindOf(p) == Some(c.kind) && p[THL_AT] == thl
            && Treat(c.kind, node, p) == Send(r[i].id)
  {
    HeaderFields(c, thl, r[i].id, i - lo, PathBytes(r, lo, i));
  }

  /** A route node takes its successor from the end of the path. */
  lemma PassesOn(c: Content, thl: Byte, r: Route, lo: nat, i: nat)
    requires lo < i < |r| && i - lo <= MAX_HOPS
    ensures var p := Packet(c, thl, r, lo, i);
            && KindOf(p) == Some(c.kind)
            && Treat(c.kind, r[i].id, p) == Requeue(Packet(c, thl, r, lo, i - 1))
  {
    hide Shortened;
    HeaderFields(c, thl, r[i].id, i - lo, PathBytes(r, lo, i));
    ShortenedIs(c, thl, r, lo, i);
  }

  /** Where the path is used up: the target takes the packet, anyone else hands a setup to the flow table. */
  lemma PathUsedUp(c: Content, thl: Byte, r: Route, lo: nat)
    requires lo < |r|
    ensures var p := Packet(c, thl, r, lo, lo);
            && KindOf(p) == Some(c.kind)
            && Treat(c.kind, r[lo].id, p) ==
               if c.target == r[lo].id then Arrived else if c.kind == Ack then Lost else Requeue(Plain(c, thl))
  {
    var p := Packet(c, thl, r, lo, lo);
    HeaderFields(c, thl, r[lo].id, 0, []);
    assert p == Header(c, thl, r[lo].id, 0);
    if c.target != r[lo].id && c.kind != Ack {
      assert Unrouted(c.kind, p) == Plain(c, thl);
    }
  }

  /** The vertices from node `i - 1` down to node `lo`. */
  ghost function Down(r: Route, lo: nat, i: nat): seq<Id>
    requires lo <= i <= |r|
    decreases i
  {
    if i == lo then [] else [r[i - 1].id] + Down(r, lo, i - 1)
  }

  /** How the source route ends at node `lo`, with the hop limit left there. */
  ghost function Ending(c: Content, thl: Byte, r: Route, lo: nat): End
    requires lo < |r|
  {
    if c.target == r[lo].id then Done(c.target, Packet(c, thl, r, lo, lo))
    else if c.kind == Ack then Dropped(r[lo].id)
    else HandedOver(r[lo].id, Plain(c, thl))
  }

  lemma {:induction false} JourneyFrom(c: Content, thl: Byte, r: Route, lo: nat, i: nat)
    requires DistinctIds(r) && lo <= i < |r| && i - lo <= MAX_HOPS && i - lo <= thl
    ensures KindOf(Packet(c, thl, r, lo, i)).Some?
    ensures Journey(r[i].id, Packet(c, thl, r, lo, i)) == (Down(r, lo, i), Ending(c, thl - (i - lo), r, lo))
    decreases i, 0
  {
    hide Treat;
    hide Packet;
    hide Plain;
    if i == lo {
      PathUsedUp(c, thl, r, lo);
      if c.target != r[lo].id && c.kind != Ack {
        PlainIsPlain(c, thl);
      }
    } else {
      PassesOn(c, thl, r, lo, i);
      assert DifferentIds(r, i - 1, i);
      SentOn(c, thl, r, lo, i - 1, r[i].id);
    }
  }

  lemma PlainIsPlain(c: Content, thl: Byte)
    requires c.kind != Ack
    ensures KindOf(Plain(c, thl)) == None
  {
  }

  lemma LowerHopLimit(c: Content, thl: Byte, r: Route, lo: nat, i: nat)
    requires lo <= i < |r| && i - lo <= MAX_HOPS && thl > 0
    ensures Packet(c, thl, r, lo, i)[THL_AT := thl - 1] == Packet(c, thl - 1, r, lo, i)
  {
    assert Header(c, thl, r[i].id, i - lo)[THL_AT := thl - 1] == Header(c, thl - 1, r[i].id, i - lo);
  }

  /** The packet leaves `node` for route node `i`. */
  lemma {:induction false} SentOn(c: Content, thl: Byte, r: Route, lo: nat, i: nat, node: Id)
    requires DistinctIds(r) && lo <= i < |r| && i - lo <= MAX_HOPS && i - lo < thl && node != r[i].id
    ensures KindOf(Packet(c, thl, r, lo, i)).Some?
    ensures Journey(node, Packet(c, thl, r, lo, i)) ==
            ([r[i].id] + Down(r, lo, i), Ending(c, thl - 1 - (i - lo), r, lo))
    decreases i, 1
  {
    hide Treat;
    hide Packet;
    SendsOn(c, thl, r, lo, i, node);
    LowerHopLimit(c, thl, r, lo, i);
    JourneyFrom(c, thl - 1, r, lo, i);
  }

  /**
    A packet built from a route visits the nodes of the route in order.  Up to MAX_HOPS intermediate nodes
    it ends at the real destination; a longer route is cut, and the packet ends at the last node that fits,
    where a setup goes on by flow table to the real destination and an acknowledgement is dropped.  Neither
    the length checks nor the hop limit stop it on the way.
   */
  lemma RouteIsFollowed(c: Content, r: Route)
    requires |r| >= 2 && DistinctIds(r) && c.target == r[0].id
    ensures var (lo, n) := (Cut(r), |r| - 2);
            && KindOf(Built(c, r)).Some?
            && Journey(r[n + 1].id, Built(c, r)) == (Down(r, lo, n + 1), Ending(c, DEFAULT_TTL - 1 - (n - lo), r, lo))
            && (lo == 0 <==> n <= MAX_HOPS)
            && (c.target == r[lo].id <==> lo == 0)
            && DEFAULT_TTL - 1 - (n - lo) > 0
  {
    hide Journey;
    hide Packet;
    hide Ending;
    assert DifferentIds(r, |r| - 2, |r| - 1) && DifferentIds(r, 0, Cut(r));
    SentOn(c, DEFAULT_TTL, r, Cut(r), |r| - 2, r[|r| - 1].id);
  }

  // ---------------------------------------------------------------- in place

  method WriteAddr(packet: array<Byte>, at: nat, a: Id)
    requires at + 1 < packet.Length
    modifies packet
    ensures packet[..] == SetAddr(old(packet[..]), at, a)
  {
    packet[at], packet[at + 1] := a / 256, a % 256;
  }

  /** Writes the fields that do not depend on the route. */
  method WriteContent(packet: array<Byte>, c: Content)
    requires packet.Length == MAX_PACKET_SIZE
    modifies packet
    ensures forall dest: Id, n: Byte ::
      SetAddr(packet[..Base(c.kind)][Base(c.kind) - 1 := n], DEST_AT, dest) == Header(c, DEFAULT_TTL, dest, n)
  {
    packet[0], packet[1], packet[THL_AT], packet[3] := TypeOf(c.kind), RESERVED, DEFAULT_TTL, c.seqNo;
    WriteAddr(packet, 4, c.source);
    forall i | 0 <= i < |c.body| {
      packet[8 + i] := c.body[i];
    }
    WriteAddr(packet, Base(c.kind) - 3, c.target);
    forall dest: Id, n: Byte
      ensures SetAddr(packet[..Base(c.kind)][Base(c.kind) - 1 := n], DEST_AT, dest) == Header(c, DEFAULT_TTL, dest, n)
    {
      assert packet[4] == c.source / 256 && packet[5] == c.source % 256;
    }
  }

  /** Copies addresses from route node `lo` on behind the fixed part of the packet. */
  method CopyPath(packet: array<Byte>, base: nat, route: Route, lo: nat, hops: nat) returns (len: nat, node: nat)
    requires 8 <= base && base + 2 * hops <= packet.Length && lo + hops < |route|
    modifies packet
    ensures node == lo + hops && len == base + 2 * hops
    ensures packet[..base] == old(packet[..base])
    ensures packet[base..len] == PathBytes(route, lo, node)
  {
    len, node := base, lo;
    var indexHops := hops;
    while indexHops > 0
      invariant 0 <= indexHops <= hops && node + indexHops == lo + hops
      invariant len == base + 2 * (node - lo) && packet[..base] == old(packet[..base])
      invariant packet[base..len] == PathBytes(route, lo, node)
    {
      ghost var before := packet[base..len];
      WriteAddr(packet, len, route[node].id);
      assert packet[base..len + 2] == before + AddrBytes(route[node].id);
      len := len + 2;
      node := node + 1;
      indexHops := indexHops - 1;
    }
  }

  /** send_src_rtd_*: the end of the list is the controller itself, the beginning the real destination. */
  method BuildPacket(c: Content, route: Route) returns (packet: array<Byte>, len: nat)
    requires |route| >= 2
    ensures fresh(packet) && packet.Length == MAX_PACKET_SIZE && len <= MAX_PACKET_SIZE
    ensures packet[..len] == Built(c, route)
  {
    hide Header;
    packet := new Byte[MAX_PACKET_SIZE];
    WriteContent(packet, c);
    var indexHops, node := |route| - 2, 0;
    while indexHops > MAX_HOPS
      invariant node + indexHops == |route| - 2 && 0 <= node <= Cut(route)
    {
      node := node + 1;
      indexHops := indexHops - 1;
    }
    ghost var fixed := packet[..Base(c.kind)];
    var pathLen: Byte := indexHops;
    packet[Base(c.kind) - 1] := pathLen;
    assert packet[..Base(c.kind)] == fixed[Base(c.kind) - 1 := pathLen];
    len, node := CopyPath(packet, Base(c.kind), route, node, indexHops);
    SetDestination(packet, Base(c.kind), len, route[node].id);
  }

  method SetDestination(packet: array<Byte>, base: nat, len: nat, a: Id)
    requires 8 <= base <= len <= packet.Length
    modifies packet
    ensures packet[..len] == SetAddr(old(packet[..base]), DEST_AT, a) + old(packet[base..len])
  {
    WriteAddr(packet, DEST_AT, a);
  }

  /** The branch of treat_src_routed_* for a path with addresses left. */
  method PopAddress(k: Kind, packet: array<Byte>, len: nat)
    requires len <= packet.Length && LengthOk(k, packet[..len]) && PathLen(k, packet[..len]) > 0
    modifies packet
    ensures packet[..len - 2] == Shortened(k, old(packet[..len]))
  {
    var left := packet[Base(k) - 1] - 1;
    packet[Base(k) - 1] := left;
    var at := Base(k) + 2 * PathLen(k, packet[..len]);
    WriteAddr(packet, DEST_AT, Addr(packet[..], at));
  }

  /** The branch for a path that is used up before the real destination. */
  method StripRoute(k: Kind, packet: array<Byte>, len: nat)
    requires k != Ack && len <= packet.Length && LengthOk(k, packet[..len])
    modifies packet
    ensures packet[..PLAIN_SIZE] == Unrouted(k, old(packet[..len]))
  {
    packet[0] := PlainType(k);
    WriteAddr(packet, DEST_AT, Addr(packet[..], Base(k) - 3));
  }

  /** The dispatch of a source-routed packet with the treat_src_routed_* functions, which rewrite it where it is. */
  method TreatPacket(k: Kind, node: Id, packet: array<Byte>, len: nat) returns (o: Outcome)
    requires len <= packet.Length && KindOf(packet[..len]) == Some(k)
    modifies packet
    ensures o == Treat(k, node, old(packet[..len]))
  {
    hide Shortened;
    hide Unrouted;
    var p := packet[..len];
    if len < Base(k) || len < Base(k) + 2 * PathLen(k, p) {
      o := Malformed;
    } else if Addr(p, DEST_AT) != node {
      o := Send(Addr(p, DEST_AT));
    } else if packet[Base(k) - 1] > 0 {
      PopAddress(k, packet, len);
      o := Requeue(packet[..len - 2]);
    } else if Addr(p, Base(k) - 3) == node {
      o := Arrived;
    } else if k == Ack {
      o := Lost;
    } else {
      StripRoute(k, packet, len);
      o := Requeue(packet[..PLAIN_SIZE]);
    }
  }
}
