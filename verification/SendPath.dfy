/**
  What happens to the packets of a node, told by their contents: which packets come into the send queue, which
  stay in the waiting room and which are thrown away.
 */
module SendPath {
  import opened Bytes
  import opened Options
  import opened PacketBuffers
  import Routed = SourceRouting
  import Kept = RetransmissionWindow

  /** The packets in the send queue, the next to leave first. */
  ghost function Queued(n: Node): (q: seq<Packet>)
    ensures |q| == |n.send| && forall i :: 0 <= i < |q| ==> q[i] == n.content[n.send[i]]
  {
    seq(|n.send|, i requires 0 <= i < |n.send| => n.content[n.send[i]])
  }

  /** The packets received and not yet taken by the core process. */
  ghost function Incoming(n: Node): (q: seq<Packet>)
    ensures |q| == |n.recv| && forall i :: 0 <= i < |q| ==> q[i] == n.content[n.recv[i]]
  {
    seq(|n.recv|, i requires 0 <= i < |n.recv| => n.content[n.recv[i]])
  }

  /** The packet in a place of the waiting room. */
  ghost function Waiting(n: Node, i: Place): Option<Packet> {
    if n.keep[i].Some? then Some(n.content[n.keep[i].value]) else None
  }

  ghost predicate SameWaiting(n: Node, m: Node) {
    forall i: Place {:trigger Waiting(n, i)} :: Waiting(m, i) == Waiting(n, i)
  }

  ghost predicate SomeFree(n: Node) {
    exists b: Buf :: n.free[b]
  }

  /** A packet comes to the end of the send queue if there is a buffer for it and the queue is not full. */
  ghost predicate Appends(n: Node, m: Node, p: Packet) {
    Queued(m) == if SomeFree(n) && |n.send| < 10 then Queued(n) + [p] else Queued(n)
  }

  lemma FirstFreeIsAny(n: Node)
    ensures FirstFree(n.free, 0) < POOL_SIZE <==> SomeFree(n)
  {
  }

  /** A free buffer is in no queue and in no place. */
  lemma FreeIsNowhere(n: Node, hand: multiset<Buf>, b: Buf)
    requires Ok(n, hand) && n.free[b]
    ensures b !in n.send && b !in n.recv && forall i: Place :: n.keep[i] != Some(b)
  {
    assert Uses(n, b) + hand[b] == 1;
    assert b in n.send ==> b in multiset(n.send);
    assert b in n.recv ==> b in multiset(n.recv);
    forall i: Place ensures n.keep[i] != Some(b) {
      assert n.keep[i] in multiset(n.keep);
    }
  }

  /** A buffer from the pool, filled: no packet anywhere changes. */
  lemma GotKeepsPackets(n: Node, hand: multiset<Buf>, b: Buf, p: Packet)
    requires Ok(n, hand) && n.free[b]
    ensures var m := Got(n, b, p); Queued(m) == Queued(n) && Incoming(m) == Incoming(n) && SameWaiting(n, m)
  {
    FreeIsNowhere(n, hand, b);
    var m := Got(n, b, p);
    forall i | 0 <= i < |n.send| ensures Queued(m)[i] == Queued(n)[i] {
      assert n.send[i] in n.send;
    }
    forall i | 0 <= i < |n.recv| ensures Incoming(m)[i] == Incoming(n)[i] {
      assert n.recv[i] in n.recv;
    }
  }

  // ---------------------------------------------------------------- one act

  /** An emitted packet comes to the end of the send queue; it is thrown away only without buffer or place. */
  lemma EmitAppends(n: Node, p: Packet, hand: multiset<Buf>)
    requires Ok(n, hand)
    ensures var m := Did(n, Emit(p));
            && Appends(n, m, p) && Incoming(m) == Incoming(n) && SameWaiting(n, m)
            && (|n.send| >= 10 ==> m.free == n.free)
  {
    var b := FirstFree(n.free, 0);
    FirstFreeIsAny(n);
    if b < POOL_SIZE {
      GotKeepsPackets(n, hand, b, p);
      var g, m := Got(n, b, p), Did(n, Emit(p));
      if |n.send| < 10 {
        assert m.send == g.send + [b] && m.content == g.content;
        assert Queued(m) == Queued(g) + [p];
      } else {
        assert m.send == g.send && m.content == g.content && m.recv == g.recv && m.keep == g.keep;
        assert n.free[b := false][b := true] == n.free;
      }
    }
  }

  /** A newer report with the number of the old one. */
  predicate Renews(self: (Byte, Byte), p: Packet, q: Packet) {
    IsOwnReport(self, p) && IsOwnReport(self, q) && q[3] == p[3]
  }

  /** New contents of a queued buffer: every other packet stays as it is. */
  lemma RenewedPackets(n: Node, hand: multiset<Buf>, j: nat, q: Packet)
    requires Ok(n, hand) && j < |n.send|
    ensures var m := n.(content := n.content[n.send[j] := q]);
            Queued(m) == Queued(n)[j := q] && Incoming(m) == Incoming(n) && SameWaiting(n, m)
  {
    var b := n.send[j];
    var m := n.(content := n.content[b := q]);
    assert n.send[j] in multiset(n.send) && Uses(n, b) + hand[b] == 1;
    forall i | 0 <= i < |n.send| && i != j ensures n.send[i] != b {
      assert n.send == n.send[..i] + [n.send[i]] + n.send[i + 1..];
      assert b in if j < i then n.send[..i] else n.send[i + 1..];
    }
    forall i | 0 <= i < |n.recv| ensures n.recv[i] != b {
      assert n.recv[i] in multiset(n.recv);
    }
    forall i: Place ensures n.keep[i] != Some(b) {
      assert n.keep[i] in multiset(n.keep);
    }
  }

  /** A neighbour report goes over the first own one that is still queued, keeping its number; else it is emitted. */
  lemma ReportRenews(n: Node, p: ReportPacket, hand: multiset<Buf>) returns (j: nat)
    requires Ok(n, hand)
    ensures var m := Did(n, Report(p));
            var q := p[4 := n.self.0][5 := n.self.1];
            && Incoming(m) == Incoming(n) && SameWaiting(n, m)
            && (forall i :: 0 <= i < |n.send| && i < j ==> !IsOwnReport(n.self, Queued(n)[i]))
            && if j < |n.send|
               then IsOwnReport(n.self, Queued(n)[j]) && Queued(m) == Queued(n)[j := q[3 := Queued(n)[j][3]]]
               else Appends(n, m, q)
  {
    j := FindReport(n, 0);
    var q := FromSelf(n.self, p);
    if j < |n.send| {
      RenewedPackets(n, hand, j, q[3 := n.content[n.send[j]][3]]);
    } else {
      EmitAppends(n, q, hand);
    }
  }

  /** The packet in place `i` waits for the key. */
  ghost predicate WaitsFor(n: Node, k: Key, i: Place) {
    Waiting(n, i).Some? && KeyOf(Waiting(n, i).value) == k
  }

  /** The packets that wait for the key from place `i` on, in the order of their places. */
  ghost function AllWaiting(n: Node, k: Key, i: PlaceOrEnd): seq<Packet>
    decreases KEEP_MAX - i
  {
    if i == KEEP_MAX then []
    else (if WaitsFor(n, k, i) then [Waiting(n, i).value] else []) + AllWaiting(n, k, i + 1)
  }

  /** As many of the packets as there is room for. */
  ghost function Fitting(q: seq<Packet>, room: nat): seq<Packet> {
    if |q| <= room then q else q[..room]
  }

  /** The state after the places from `i` on have given up the packets of a key. */
  ghost predicate Releases(n: Node, m: Node, k: Key, i: PlaceOrEnd)
    requires |n.send| <= 10
  {
    && Queued(m) == Queued(n) + Fitting(AllWaiting(n, k, i), 10 - |n.send|)
    && (forall j: Place {:trigger Waiting(n, j)} ::
          Waiting(m, j) == if j >= i && WaitsFor(n, k, j) then None else Waiting(n, j))
    && Incoming(m) == Incoming(n)
    && (m.free != n.free ==> |m.send| == 10)
  }

  /** The packet of one place, if it waits for the key. */
  ghost function WaitingOne(n: Node, k: Key, i: Place): (q: seq<Packet>)
    ensures |q| <= 1
  {
    if WaitsFor(n, k, i) then [Waiting(n, i).value] else []
  }

  lemma SolvedOne(n: Node, k: Key, i: Place)
    requires |n.send| <= 10
    ensures var m := SolvedAt(n, k, i);
            && m.content == n.content && m.recv == n.recv && m.known == n.known && |m.send| <= 10
            && m.keep == (if WaitsFor(n, k, i) then n.keep[i := None] else n.keep)
            && Queued(m) == Queued(n) + Fitting(WaitingOne(n, k, i), 10 - |n.send|)
            && n.send <= m.send && (m.free != n.free ==> |m.send| == 10)
  {
    var m := SolvedAt(n, k, i);
    if WaitsFor(n, k, i) && |n.send| < 10 {
      assert m.send == n.send + [n.keep[i].value];
      assert Queued(m) == Queued(n) + [Waiting(n, i).value];
    }
  }

  lemma {:induction false} SameAllWaiting(n: Node, m: Node, k: Key, i: PlaceOrEnd)
    requires m.content == n.content && forall j: Place :: j >= i ==> m.keep[j] == n.keep[j]
    ensures AllWaiting(m, k, i) == AllWaiting(n, k, i)
    decreases KEEP_MAX - i
  {
    if i < KEEP_MAX {
      SameAllWaiting(n, m, k, i + 1);
    }
  }

  lemma FittingTwice(a: seq<Packet>, b: seq<Packet>, room: nat)
    requires |a| <= 1
    ensures var x := Fitting(a, room);
            |x| <= room && x + Fitting(b, room - |x|) == Fitting(a + b, room)
  {
    if |a| == 1 && 0 < room < |a + b| {
      assert (a + b)[..room] == a + b[..room - 1];
    } else if a == [] {
      assert a + b == b;
    }
  }

  lemma SameSend(n: Node, m: Node)
    requires m.send == n.send && m.content == n.content
    ensures Queued(m) == Queued(n)
  {
  }

  /** What solving changes in the send queue and in the pool. */
  lemma {:induction false} SolvedSends(n: Node, k: Key, i: PlaceOrEnd)
    requires |n.send| <= 10
    ensures var m := SolvedFrom(n, k, i);
            && Queued(m) == Queued(n) + Fitting(AllWaiting(n, k, i), 10 - |n.send|)
            && n.send <= m.send && |m.send| <= 10 && (m.free != n.free ==> |m.send| == 10)
    decreases KEEP_MAX - i
  {
    hide SolvedAt;
    hide Queued;
    hide Fitting;
    hide WaitsFor;
    hide AllWaiting;
    if i < KEEP_MAX {
      var a, m := SolvedAt(n, k, i), SolvedFrom(n, k, i);
      var one, rest := WaitingOne(n, k, i), AllWaiting(n, k, i + 1);
      SolvedOne(n, k, i);
      SolvedSends(a, k, i + 1);
      SameAllWaiting(n, a, k, i + 1);
      SendsJoin(Queued(n), Queued(a), Queued(m), one, rest, 10 - |n.send|);
      OneAndRest(n, k, i);
    } else {
      NothingFits(n, k, 10 - |n.send|);
      assert Queued(n) + [] == Queued(n);
    }
  }

  lemma SendsJoin(q: seq<Packet>, a: seq<Packet>, m: seq<Packet>, one: seq<Packet>, rest: seq<Packet>, room: nat)
    requires |one| <= 1 && a == q + Fitting(one, room) && |a| <= |q| + room
    requires m == a + Fitting(rest, |q| + room - |a|)
    ensures m == q + Fitting(one + rest, room)
  {
    hide Fitting;
    FittingTwice(one, rest, room);
    var x := Fitting(one, room);
    assert q + x + Fitting(rest, room - |x|) == q + (x + Fitting(rest, room - |x|));
  }

  lemma NothingFits(n: Node, k: Key, room: nat)
    ensures Fitting(AllWaiting(n, k, KEEP_MAX), room) == []
  {
  }

  lemma OneAndRest(n: Node, k: Key, i: Place)
    ensures AllWaiting(n, k, i) == WaitingOne(n, k, i) + AllWaiting(n, k, i + 1)
  {
  }

  /** What solving leaves in the waiting room. */
  lemma {:induction false} SolvedLeaves(n: Node, k: Key, i: PlaceOrEnd, j: Place)
    requires |n.send| <= 10
    ensures var m := SolvedFrom(n, k, i);
            && m.content == n.content && m.recv == n.recv && m.known == n.known
            && m.keep[j] == if j >= i && WaitsFor(n, k, j) then None else n.keep[j]
    decreases KEEP_MAX - i
  {
    hide SolvedAt;
    if i < KEEP_MAX {
      SolvedOne(n, k, i);
      SolvedLeaves(SolvedAt(n, k, i), k, i + 1, j);
    }
  }

  /**
    When a flow or destination gets known, exactly the packets that wait for it leave the waiting room, and they
    come into the send queue in the order of their places until it is full.  All other packets stay where they
    are, and a buffer goes back to the pool only when the queue is full.
   */
  lemma LearnReleases(n: Node, k: Key)
    requires |n.send| <= 10
    ensures var m := Did(n, Learn(k));
            Releases(n, m, k, 0) && m.known == n.known + {k}
  {
    hide SolvedFrom;
    var a, m := n.(known := n.known + {k}), Did(n, Learn(k));
    SolvedSends(a, k, 0);
    SameAllWaiting(n, a, k, 0);
    assert Queued(a) == Queued(n);
    forall j: Place
      ensures Waiting(m, j) == if WaitsFor(n, k, j) then None else Waiting(n, j)
      ensures m.content == n.content && m.recv == n.recv && m.known == n.known + {k}
    {
      SolvedLeaves(a, k, 0, j);
    }
    var first: Place := 0;
    SolvedLeaves(a, k, 0, first);
    assert Incoming(m) == Incoming(n);
  }

  // ---------------------------------------------------------------- packets that are received

  /** A received packet is queued with its hop limit lowered by one, or dropped without a trace. */
  lemma RadioAppends(n: Node, p: Packet)
    requires Ok(n, multiset{}) && |p| > 2
    ensures var m := Step(n, Radio(p));
            && (if SomeFree(n) && p[2] > 0 && |n.recv| < 10
                then Incoming(m) == Incoming(n) + [p[2 := p[2] - 1]]
                else Incoming(m) == Incoming(n) && m.free == n.free)
            && Queued(m) == Queued(n) && SameWaiting(n, m)
  {
    var b, m := FirstFree(n.free, 0), Step(n, Radio(p));
    FirstFreeIsAny(n);
    if b < POOL_SIZE {
      assert n.free[b := false][b := true] == n.free;
      GotKeepsPackets(n, multiset{}, b, p);
      if p[2] > 0 {
        GotKeepsPackets(n, multiset{}, b, p[2 := p[2] - 1]);
        var g := Got(n, b, p[2 := p[2] - 1]);
        assert m.content == g.content && m.send == g.send && m.keep == g.keep;
        assert Queued(m) == Queued(g);
        assert |n.recv| < 10 ==> Incoming(m) == Incoming(g) + [p[2 := p[2] - 1]];
      }
    }
  }

  /** The node knows where the packet is to go, or it is not routed by flow or address at all. */
  predicate Routable(n: Node, p: Packet) {
    KeyOf(p) == Neither || KeyOf(p) in n.known
  }

  /** A packet can go on exactly from the moment its flow or destination is learnt until it is forgotten. */
  lemma KnownDecides(n: Node, k: Key, p: Packet)
    requires |n.send| <= 10 && k != Neither
    ensures Routable(Did(n, Learn(k)), p) <==> Routable(n, p) || KeyOf(p) == k
    ensures Routable(Did(n, Forget(k)), p) <==> Routable(n, p) && KeyOf(p) != k
    ensures var m := Did(n, Forget(k)); Queued(m) == Queued(n) && Incoming(m) == Incoming(n) && SameWaiting(n, m)
  {
    hide Releases;
    hide KeyOf;
    hide SolvedFrom;
    LearnReleases(n, k);
    SameSend(n, Did(n, Forget(k)));
  }

  /** The received packet is off the receive queue and its buffer back in the pool. */
  ghost predicate TakenOff(n: Node, m: Node)
    requires n.recv != []
  {
    Incoming(m) == Incoming(n)[1..] && m.free[n.recv[0]]
  }

  lemma PutKeepsPackets(n: Node, b: Buf)
    ensures var m := Put(n, b); Queued(m) == Queued(n) && Incoming(m) == Incoming(n) && SameWaiting(n, m)
  {
  }

  lemma DequeuedPackets(n: Node)
    requires n.recv != []
    ensures var m := n.(recv := n.recv[1..]);
            Queued(m) == Queued(n) && Incoming(m) == Incoming(n)[1..] && SameWaiting(n, m)
  {
  }

  /** A packet that is to be forwarded comes to the end of the send queue. */
  lemma ForwardAppends(n: Node, acts: seq<Act>)
    requires Ok(n, multiset{}) && n.recv != [] && Routable(n, Incoming(n)[0])
    ensures var m := Step(n, Dispatch(Forward, acts));
            Appends(n, m, Incoming(n)[0]) && TakenOff(n, m) && SameWaiting(n, m)
  {
    hide Ok;
    hide Emitted;
    hide Treated;
    hide Queued;
    var p, b := Incoming(n)[0], n.recv[0];
    var a := n.(recv := n.recv[1..]);
    DequeuedIsOk(n);
    DequeuedPackets(n);
    EmitAppends(a, p, multiset{b});
    PutKeepsPackets(Did(a, Emit(p)), b);
    assert SomeFree(a) == SomeFree(n) by {
      assert a.free == n.free;
    }
  }

  /** A malformed packet is dropped and changes nothing else. */
  lemma MalformedIsDropped(n: Node, acts: seq<Act>)
    requires n.recv != []
    ensures var m := Step(n, Dispatch(Malformed, acts));
            Queued(m) == Queued(n) && TakenOff(n, m) && SameWaiting(n, m)
  {
    DequeuedPackets(n);
    PutKeepsPackets(n.(recv := n.recv[1..]), n.recv[0]);
  }

  /** The first empty place from `i` on. */
  ghost predicate FirstEmpty(n: Node, i: PlaceOrEnd, j: Place) {
    i <= j && Waiting(n, j) == None && forall x: Place :: i <= x < j ==> Waiting(n, x) != None
  }

  /** The packet waits in the first empty place from `i` on, if there is one and a buffer. */
  ghost predicate Stores(n: Node, m: Node, p: Packet, i: PlaceOrEnd) {
    if SomeFree(n) && exists j: Place :: i <= j && Waiting(n, j) == None then
      exists j: Place :: FirstEmpty(n, i, j) &&
        forall x: Place {:trigger Waiting(m, x)} :: Waiting(m, x) == if x == j then Some(p) else Waiting(n, x)
    else SameWaiting(n, m)
  }

  lemma {:induction false} StoredStores(n: Node, p: Packet, i: PlaceOrEnd, hand: multiset<Buf>)
    requires Ok(n, hand)
    ensures var m := StoredFrom(n, p, i);
            Stores(n, m, p, i) && Queued(m) == Queued(n) && Incoming(m) == Incoming(n)
    decreases KEEP_MAX - i
  {
    hide Ok;
    var b, m := FirstFree(n.free, 0), StoredFrom(n, p, i);
    FirstFreeIsAny(n);
    if i < KEEP_MAX && n.keep[i].Some? {
      StoredStores(n, p, i + 1, hand);
      var next: PlaceOrEnd := i + 1;
      if j: Place :| FirstEmpty(n, next, j) {
        assert FirstEmpty(n, i, j);
      }
    } else if i < KEEP_MAX && b < POOL_SIZE {
      GotKeepsPackets(n, hand, b, p);
      var g, at: Place := Got(n, b, p), i;
      assert FirstEmpty(n, i, at);
      forall x: Place ensures Waiting(m, x) == if x == at then Some(p) else Waiting(n, x) {
        assert Waiting(g, x) == Waiting(n, x);
      }
      assert Queued(m) == Queued(g) && Incoming(m) == Incoming(g);
    }
  }

  /** A packet for an unknown flow or destination is put into the first empty place of the waiting room. */
  lemma UnknownWaits(n: Node, v: Verdict)
    requires Ok(n, multiset{}) && n.recv != [] && v != Malformed && !Routable(n, Incoming(n)[0])
    ensures var m := Step(n, Dispatch(v, []));
            Stores(n, m, Incoming(n)[0], 0) && Queued(m) == Queued(n) && TakenOff(n, m)
  {
    hide Ok;
    hide StoredFrom;
    hide Queued;
    var p, b := Incoming(n)[0], n.recv[0];
    var a := n.(recv := n.recv[1..]);
    DequeuedIsOk(n);
    DequeuedPackets(n);
    StoredStores(a, p, 0, multiset{b});
    PutKeepsPackets(StoredFrom(a, p, 0), b);
    StoresMore(n, a, StoredFrom(a, p, 0), Put(StoredFrom(a, p, 0), b), p);
  }

  lemma StoresMore(n: Node, a: Node, c: Node, m: Node, p: Packet)
    requires a.free == n.free && SameWaiting(n, a) && Stores(a, c, p, 0) && SameWaiting(c, m)
    ensures Stores(n, m, p, 0)
  {
    assert forall j: Place :: Waiting(a, j) == Waiting(n, j) && Waiting(m, j) == Waiting(c, j);
    if j: Place :| FirstEmpty(a, 0, j) && forall x: Place {:trigger Waiting(c, x)} ::
      Waiting(c, x) == if x == j then Some(p) else Waiting(a, x) {
      assert FirstEmpty(n, 0, j);
    }
  }

  // ---------------------------------------------------------------- what packets are routed by

  /** A setup that goes on without source route is routed by the address of its node. */
  lemma PlainSetupByAddress(c: Routed.Content, thl: Byte)
    requires c.kind != Routed.Ack
    ensures KeyOf(Routed.Plain(c, thl)) == Key.ByAddress(c.target / 256, c.target % 256)
  {
  }

  /** Source-routed packets wait for no entry; everything that is sent reliably goes by flow. */
  lemma OtherKeys(p: Packet)
    ensures Routed.KindOf(p).Some? ==> KeyOf(p) == Neither
    ensures |p| >= 8 && Kept.Reliable(p[0]) ==> KeyOf(p) == Key.ByFlow(p[6], p[7])
  {
  }
}
