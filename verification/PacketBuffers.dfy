/**
  Who owns the packet buffers of a node: the pool, the receive queue, the send queue or the waiting room for
  unknown routes (sdn-common/sdn-packetbuf.c, sdn-queue.c, sdn-unknown-route.c, contiki-sdn/sdn-receive.c,
  sdn-core.c, sdn-send.c).
 */
module PacketBuffers {
  import opened Bytes
  import opened Options

  const POOL_SIZE := 12
  const QUEUE_SIZE := 10
  const KEEP_MAX := 10

  /** A packet buffer is named by its place in the pool. */
  type Buf = b: nat | b < POOL_SIZE

  type Packet = seq<Byte>

  /** What a packet is routed by. */
  datatype Key = ByFlow(hi: Byte, lo: Byte) | ByAddress(hi: Byte, lo: Byte) | Neither

  /** SDN_ROUTED_BY_FLOWID and SDN_ROUTED_BY_ADDR with the bytes behind the header. */
  function KeyOf(p: Packet): Key {
    if |p| < 8 then Neither
    else if p[0] in {2, 3, 4, 5, 12, 14, 18} then ByFlow(p[6], p[7])
    else if p[0] in {0, 1, 16} then ByAddress(p[6], p[7])
    else Neither
  }

  datatype Status = Idle | AckWait | TrickleTime | FullWindow | Busy

  type Pool = s: seq<bool> | |s| == POOL_SIZE witness seq(POOL_SIZE, i => true)
  type Contents = s: seq<Packet> | |s| == POOL_SIZE witness seq(POOL_SIZE, i => [])
  type WaitingRoom = s: seq<Option<Buf>> | |s| == KEEP_MAX witness seq(KEEP_MAX, i => None)

  /** A place in the waiting room, and one past the last. */
  type Place = i: nat | i < KEEP_MAX
  type PlaceOrEnd = i: nat | i <= KEEP_MAX

  /**
    `self` is the address of the node; `known` are the flows and destinations with an entry in the matching flow
    table; `lost` are the buffers taken from the pool and put nowhere.
   */
  datatype Node = Node(self: (Byte, Byte), free: Pool, recv: seq<Buf>, send: seq<Buf>, keep: WaitingRoom,
                       lost: seq<Buf>, content: Contents, known: set<Key>, status: Status)

  // ---------------------------------------------------------------- the pool

  type BufOrEnd = b: nat | b <= POOL_SIZE

  /** memb_alloc: the first free place, POOL_SIZE for NULL. */
  function FirstFree(free: Pool, i: BufOrEnd): (b: BufOrEnd)
    ensures i <= b && (b < POOL_SIZE ==> free[b])
    ensures forall j :: i <= j < b ==> !free[j]
    decreases POOL_SIZE - i
  {
    if i == POOL_SIZE || free[i] then i else FirstFree(free, i + 1)
  }

  function Put(n: Node, b: Buf): Node
  {
    n.(free := n.free[b := true])
  }

  /** A buffer from the pool with a packet copied into it. */
  function Got(n: Node, b: Buf, p: Packet): Node
  {
    n.(free := n.free[b := false], content := n.content[b := p])
  }

  // ---------------------------------------------------------------- sending

  /** sdn_send_down_once. */
  function DownOnce(n: Node): Node {
    if n.status == Idle && n.send != [] then n.(status := Busy) else n
  }

  /** Into the send queue, or back to the pool when the queue is full. */
  function Enqueue(n: Node, b: Buf): Node
  {
    if |n.send| < QUEUE_SIZE then DownOnce(n.(send := n.send + [b])) else Put(n, b)
  }

  /** ALLOC_AND_ENQUEUE. */
  function Emitted(n: Node, p: Packet): Node
  {
    var b := FirstFree(n.free, 0);
    if b == POOL_SIZE then n else Enqueue(Got(n, b, p), b)
  }

  // ---------------------------------------------------------------- neighbour reports

  const NEIGHBOR_REPORT: Byte := 4

  /** A neighbour report with its header; source and sequence number are filled in when it is sent. */
  type ReportPacket = p: seq<Byte> | |p| >= 6 && p[0] == 4 witness [4, 0, 0, 0, 0, 0]

  predicate IsOwnReport(self: (Byte, Byte), p: Packet) {
    |p| >= 6 && p[0] == NEIGHBOR_REPORT && p[4] == self.0 && p[5] == self.1
  }

  function FromSelf(self: (Byte, Byte), p: ReportPacket): (q: ReportPacket)
    ensures |q| == |p|
  {
    p[4 := self.0][5 := self.1]
  }

  /** sdn_send_queue_find_by_type: the first own report in the send queue from position `i` on. */
  function FindReport(n: Node, i: nat): (j: nat)
    requires i <= |n.send|
    ensures i <= j <= |n.send|
    ensures j < |n.send| ==> IsOwnReport(n.self, n.content[n.send[j]])
    ensures forall x :: i <= x < j ==> !IsOwnReport(n.self, n.content[n.send[x]])
    decreases |n.send| - i
  {
    if i == |n.send| || IsOwnReport(n.self, n.content[n.send[i]]) then i else FindReport(n, i + 1)
  }

  /** A report takes the place, and the sequence number, of one that is still in the send queue. */
  function Reported(n: Node, p: ReportPacket): Node
  {
    var i, q := FindReport(n, 0), FromSelf(n.self, p);
    if i == |n.send| then Emitted(n, q)
    else
      var b := n.send[i];
      n.(content := n.content[b := q[3 := n.content[b][3]]])
  }

  // ---------------------------------------------------------------- the waiting room

  /** store_packet: the first empty place, if there is one and the pool has a buffer. */
  function StoredFrom(n: Node, p: Packet, i: PlaceOrEnd): Node
    decreases KEEP_MAX - i
  {
    if i == KEEP_MAX then n
    else if n.keep[i].Some? then StoredFrom(n, p, i + 1)
    else
      var b := FirstFree(n.free, 0);
      if b == POOL_SIZE then n else Got(n, b, p).(keep := n.keep[i := Some(b)])
  }

  /** One place of sdn_solve_unknown_*. */
  function SolvedAt(n: Node, k: Key, i: Place): (m: Node)
  {
    if n.keep[i].Some? && KeyOf(n.content[n.keep[i].value]) == k then
      Enqueue(n, n.keep[i].value).(keep := n.keep[i := None])
    else n
  }

  function SolvedFrom(n: Node, k: Key, i: PlaceOrEnd): (m: Node)
    decreases KEEP_MAX - i
  {
    if i == KEEP_MAX then n else SolvedFrom(SolvedAt(n, k, i), k, i + 1)
  }

  // ---------------------------------------------------------------- what handlers do

  /**
    The effects of packet handlers, applications and timers on the buffers.  `Unanswered` is a management
    request for metrics of which the node has none.
   */
  datatype Act = Emit(packet: Packet) | Report(report: ReportPacket) | Learn(key: Key) | Forget(key: Key) | Unanswered

  /** sdn_send_data_management takes a buffer first and does not give it back when it has nothing to send. */
  function Leaked(n: Node): Node {
    var b := FirstFree(n.free, 0);
    if b == POOL_SIZE then n else n.(free := n.free[b := false], lost := n.lost + [b])
  }

  function Did(n: Node, a: Act): (m: Node)
  {
    match a
    case Emit(p) => Emitted(n, p)
    case Report(p) => Reported(n, p)
    case Learn(k) => SolvedFrom(n.(known := n.known + {k}), k, 0)
    case Forget(k) => n.(known := n.known - {k})
    case Unanswered => Leaked(n)
  }

  function DidAll(n: Node, acts: seq<Act>): (m: Node)
    decreases |acts|
  {
    if acts == [] then n else DidAll(Did(n, acts[0]), acts[1..])
  }

  /**
    The dispatch of a packet: a malformed one is dropped, one with an unknown flow or destination is stored,
    one that is to be forwarded is left alone, any other is handled here.
   */
  datatype Verdict = Malformed | Forward | Handle

  function Treated(n: Node, p: Packet, v: Verdict, acts: seq<Act>): (m: Node)
  {
    if v == Malformed then n
    else if KeyOf(p) != Neither && KeyOf(p) !in n.known then
      DidAll(StoredFrom(n, p, 0), acts)
    else if v == Forward then n
    else DidAll(n, acts)
  }

  predicate Forwarded(n: Node, p: Packet, v: Verdict) {
    v == Forward && (KeyOf(p) == Neither || KeyOf(p) in n.known)
  }

  // ---------------------------------------------------------------- the steps of a node

  datatype Event =
    | Radio(packet: Packet)
    | Dispatch(verdict: Verdict, acts: seq<Act>)
    | SendTurn(verdict: Verdict, acts: seq<Act>)
    | SendDone(finished: bool)
    | TrickleTimer
    | Local(acts: seq<Act>)

  /** sdn_receive of a packet that is no duplicate. */
  function Received(n: Node, p: Packet): Node
    requires |p| > 2
  {
    var b := FirstFree(n.free, 0);
    if b == POOL_SIZE then n
    else if p[2] == 0 then Put(Got(n, b, p), b)
    else
      var m := Got(n, b, p[2 := p[2] - 1]);
      if |m.recv| < QUEUE_SIZE then m.(recv := m.recv + [b]) else Put(m, b)
  }

  /** The core process takes one received packet and gives its buffer back. */
  function Dispatched(n: Node, v: Verdict, acts: seq<Act>): Node
    requires n.recv != []
  {
    var b := n.recv[0];
    var m := n.(recv := n.recv[1..]);
    Put(if Forwarded(m, n.content[b], v) then Emitted(m, n.content[b]) else Treated(m, n.content[b], v, acts), b)
  }

  /** The head leaves the send queue and its buffer goes back. */
  function Retired(n: Node): Node
    requires n.send != []
  {
    DownOnce(Put(n.(send := n.send[1..], status := Idle), n.send[0]))
  }

  function Step(n: Node, e: Event): Node
  {
    match e
    case Radio(p) => if |p| > 2 then Received(n, p) else n
    case Dispatch(v, acts) => if n.recv != [] then Dispatched(n, v, acts) else n
    case SendTurn(v, acts) =>
      if n.status == Busy && n.send != [] then
        var p := n.content[n.send[0]];
        if Forwarded(n, p, v) then n.(status := AckWait)
        else
          var m := Treated(n, p, v, acts);
          if m.send != [] then Retired(m) else m
      else n
    case SendDone(finished) =>
      if n.status == AckWait && n.send != [] then (if finished then Retired(n) else n.(status := TrickleTime)) else n
    case TrickleTimer => if n.status == TrickleTime then DownOnce(n.(status := Idle)) else n
    case Local(acts) => DidAll(n, acts)
  }

  // ---------------------------------------------------------------- ownership

  /** How many places hold buffer `b`. */
  ghost function Uses(n: Node, b: Buf): nat
  {
    (if n.free[b] then 1 else 0) + multiset(n.recv)[b] + multiset(n.send)[b] + multiset(n.keep)[Some(b)]
    + multiset(n.lost)[b]
  }

  /** With the buffers in hand, every buffer is in exactly one place. */
  ghost predicate Owned(n: Node, hand: multiset<Buf>)
  {
    forall b: Buf {:trigger Uses(n, b)} :: Uses(n, b) + hand[b] == 1
  }

  /** Nothing waits for a route that is known. */
  ghost predicate Waits(n: Node, i: Place)
  {
    n.keep[i].Some? ==> var k := KeyOf(n.content[n.keep[i].value]); k != Neither && k !in n.known
  }

  ghost predicate Ok(n: Node, hand: multiset<Buf>) {
    && Owned(n, hand) && |n.recv| <= QUEUE_SIZE && |n.send| <= QUEUE_SIZE
    && (forall i: Place {:trigger Waits(n, i)} :: Waits(n, i))
    && (n.status != Idle ==> n.send != [])
  }

  lemma PutKeepsOk(n: Node, b: Buf, hand: multiset<Buf>)
    requires Ok(n, hand + multiset{b})
    ensures Ok(Put(n, b), hand)
  {
    var m := Put(n, b);
    forall c: Buf ensures Uses(m, c) + hand[c] == 1 {
      assert Uses(n, c) + (hand + multiset{b})[c] == 1;
    }
    forall i: Place ensures Waits(m, i) {
      assert Waits(n, i);
    }
  }

  lemma GotKeepsOk(n: Node, b: Buf, p: Packet, hand: multiset<Buf>)
    requires Ok(n, hand) && n.free[b]
    ensures Ok(Got(n, b, p), hand + multiset{b})
  {
    var m := Got(n, b, p);
    forall c: Buf ensures Uses(m, c) + (hand + multiset{b})[c] == 1 {
      assert Uses(n, c) + hand[c] == 1;
    }
    forall i: Place ensures Waits(m, i) {
      assert Waits(n, i);
      if n.keep[i].Some? {
        assert n.keep[i] in multiset(n.keep);
        assert Uses(n, b) + hand[b] == 1;
      }
    }
  }

  /** Status and known keys may change as long as no waiting packet gets known. */
  lemma SameBuffersOk(n: Node, m: Node, hand: multiset<Buf>)
    requires Ok(n, hand) && m == n.(status := m.status, known := m.known)
    requires m.known <= n.known && (m.status != Idle ==> m.send != [])
    ensures Ok(m, hand)
  {
    forall c: Buf ensures Uses(m, c) + hand[c] == 1 {
      assert Uses(n, c) + hand[c] == 1;
    }
    forall i: Place ensures Waits(m, i) {
      assert Waits(n, i);
    }
  }

  lemma EnqueueKeepsOk(n: Node, b: Buf, hand: multiset<Buf>)
    requires Ok(n, hand + multiset{b})
    ensures Ok(Enqueue(n, b), hand)
  {
    if |n.send| < QUEUE_SIZE {
      var m := n.(send := n.send + [b]);
      forall c: Buf ensures Uses(m, c) + hand[c] == 1 {
        assert Uses(n, c) + (hand + multiset{b})[c] == 1;
      }
      forall i: Place ensures Waits(m, i) {
        assert Waits(n, i);
      }
      SameBuffersOk(m, DownOnce(m), hand);
    } else {
      PutKeepsOk(n, b, hand);
    }
  }

  lemma EmittedKeepsOk(n: Node, p: Packet, hand: multiset<Buf>)
    requires Ok(n, hand)
    ensures Ok(Emitted(n, p), hand)
  {
    var b := FirstFree(n.free, 0);
    if b < POOL_SIZE {
      GotKeepsOk(n, b, p, hand);
      EnqueueKeepsOk(Got(n, b, p), b, hand);
    }
  }

  /** New contents of a buffer in the send queue concern no waiting packet. */
  lemma ReportedKeepsOk(n: Node, p: ReportPacket, hand: multiset<Buf>)
    requires Ok(n, hand)
    ensures Ok(Reported(n, p), hand)
  {
    var i, m := FindReport(n, 0), Reported(n, p);
    if i == |n.send| {
      EmittedKeepsOk(n, FromSelf(n.self, p), hand);
    } else {
      var b := n.send[i];
      assert n.send[i] in multiset(n.send) && Uses(n, b) + hand[b] == 1;
      forall c: Buf ensures Uses(m, c) + hand[c] == 1 {
        assert Uses(n, c) + hand[c] == 1;
      }
      forall j: Place ensures Waits(m, j) {
        assert Waits(n, j);
        if n.keep[j].Some? {
          assert n.keep[j] in multiset(n.keep);
        }
      }
    }
  }

  lemma {:induction false} StoredKeepsOk(n: Node, p: Packet, i: PlaceOrEnd, hand: multiset<Buf>)
    requires Ok(n, hand) && KeyOf(p) != Neither && KeyOf(p) !in n.known
    ensures Ok(StoredFrom(n, p, i), hand)
    decreases KEEP_MAX - i
  {
    var b := FirstFree(n.free, 0);
    if i < KEEP_MAX && n.keep[i].Some? {
      StoredKeepsOk(n, p, i + 1, hand);
    } else if i < KEEP_MAX && b < POOL_SIZE {
      GotKeepsOk(n, b, p, hand);
      var g := Got(n, b, p);
      var m := g.(keep := g.keep[i := Some(b)]);
      forall c: Buf ensures Uses(m, c) + hand[c] == 1 {
        assert Uses(g, c) + (hand + multiset{b})[c] == 1;
      }
      forall j: Place ensures Waits(m, j) {
        assert Waits(g, j);
      }
    }
  }

  /** Packets with key `k` may still wait from place `i` on, although `k` is known by now. */
  ghost predicate Solving(n: Node, hand: multiset<Buf>, k: Key, i: PlaceOrEnd)
  {
    && k in n.known && Ok(n.(known := n.known - {k}), hand)
    && forall j: Place :: j < i && n.keep[j].Some? ==> KeyOf(n.content[n.keep[j].value]) != k
  }

  /** A waiting packet is taken out of its place. */
  lemma TakenOutIsOk(n: Node, hand: multiset<Buf>, i: Place)
    requires Ok(n, hand) && n.keep[i].Some?
    ensures Ok(n.(keep := n.keep[i := None]), hand + multiset{n.keep[i].value})
  {
    var b := n.keep[i].value;
    var m := n.(keep := n.keep[i := None]);
    forall c: Buf ensures Uses(m, c) + (hand + multiset{b})[c] == 1 {
      assert Uses(n, c) + hand[c] == 1;
    }
    forall j: Place ensures Waits(m, j) {
      assert Waits(n, j);
    }
  }

  lemma SolvedAtKeepsSolving(n: Node, hand: multiset<Buf>, k: Key, i: Place)
    requires Solving(n, hand, k, i)
    ensures Solving(SolvedAt(n, k, i), hand, k, i + 1)
  {
    hide Owned;
    if n.keep[i].Some? && KeyOf(n.content[n.keep[i].value]) == k {
      var o := n.(known := n.known - {k});
      var m := o.(keep := n.keep[i := None]);
      TakenOutIsOk(o, hand, i);
      EnqueueKeepsOk(m, n.keep[i].value, hand);
      assert SolvedAt(n, k, i).(known := n.known - {k}) == Enqueue(m, n.keep[i].value);
    }
  }

  lemma {:induction false} SolvedKeepsOk(n: Node, hand: multiset<Buf>, k: Key, i: PlaceOrEnd)
    requires Solving(n, hand, k, i)
    ensures Ok(SolvedFrom(n, k, i), hand)
    decreases KEEP_MAX - i
  {
    if i < KEEP_MAX {
      SolvedAtKeepsSolving(n, hand, k, i);
      SolvedKeepsOk(SolvedAt(n, k, i), hand, k, i + 1);
    } else {
      var o := n.(known := n.known - {k});
      forall c: Buf ensures Uses(n, c) + hand[c] == 1 {
        assert Uses(o, c) + hand[c] == 1;
      }
      forall j: Place ensures Waits(n, j) {
        assert Waits(o, j);
      }
    }
  }

  lemma LeakedKeepsOk(n: Node, hand: multiset<Buf>)
    requires Ok(n, hand)
    ensures Ok(Leaked(n), hand)
  {
    var m := Leaked(n);
    forall c: Buf ensures Uses(m, c) + hand[c] == 1 {
      assert Uses(n, c) + hand[c] == 1;
    }
    forall i: Place ensures Waits(m, i) {
      assert Waits(n, i);
    }
  }

  lemma DidKeepsOk(n: Node, a: Act, hand: multiset<Buf>)
    requires Ok(n, hand)
    ensures Ok(Did(n, a), hand)
  {
    match a
    case Emit(p) => EmittedKeepsOk(n, p, hand);
    case Report(p) => ReportedKeepsOk(n, p, hand);
    case Learn(k) =>
      var m := n.(known := n.known + {k});
      SameBuffersOk(n, n.(known := n.known - {k}), hand);
      assert m.(known := m.known - {k}) == n.(known := n.known - {k});
      SolvedKeepsOk(m, hand, k, 0);
    case Forget(k) => SameBuffersOk(n, n.(known := n.known - {k}), hand);
    case Unanswered => LeakedKeepsOk(n, hand);
  }

  lemma {:induction false} DidAllKeepsOk(n: Node, acts: seq<Act>, hand: multiset<Buf>)
    requires Ok(n, hand)
    ensures Ok(DidAll(n, acts), hand)
    decreases |acts|
  {
    if acts != [] {
      DidKeepsOk(n, acts[0], hand);
      DidAllKeepsOk(Did(n, acts[0]), acts[1..], hand);
    }
  }

  lemma TreatedKeepsOk(n: Node, p: Packet, v: Verdict, acts: seq<Act>, hand: multiset<Buf>)
    requires Ok(n, hand)
    ensures Ok(Treated(n, p, v, acts), hand)
  {
    if KeyOf(p) != Neither && KeyOf(p) !in n.known {
      StoredKeepsOk(n, p, 0, hand);
      DidAllKeepsOk(StoredFrom(n, p, 0), acts, hand);
    } else {
      DidAllKeepsOk(n, acts, hand);
    }
  }

  // ---------------------------------------------------------------- the send queue only grows while it is busy

  ghost predicate Grows(n: Node, m: Node) {
    n.send <= m.send && (n.status != Idle ==> m.status == n.status)
  }

  lemma {:induction false} SolvedGrows(n: Node, k: Key, i: PlaceOrEnd)
    ensures Grows(n, SolvedFrom(n, k, i))
    decreases KEEP_MAX - i
  {
    if i < KEEP_MAX {
      SolvedGrows(SolvedAt(n, k, i), k, i + 1);
    }
  }

  lemma {:induction false} DidAllGrows(n: Node, acts: seq<Act>)
    ensures Grows(n, DidAll(n, acts))
    decreases |acts|
  {
    if acts != [] {
      if acts[0].Learn? {
        SolvedGrows(n.(known := n.known + {acts[0].key}), acts[0].key, 0);
      }
      DidAllGrows(Did(n, acts[0]), acts[1..]);
    }
  }

  lemma {:induction false} StoredGrows(n: Node, p: Packet, i: PlaceOrEnd)
    ensures Grows(n, StoredFrom(n, p, i))
    decreases KEEP_MAX - i
  {
    if i < KEEP_MAX && n.keep[i].Some? {
      StoredGrows(n, p, i + 1);
    }
  }

  /** Treating the packet at the head of the send queue leaves it at the head. */
  lemma TreatedGrows(n: Node, p: Packet, v: Verdict, acts: seq<Act>)
    ensures Grows(n, Treated(n, p, v, acts))
  {
    StoredGrows(n, p, 0);
    DidAllGrows(StoredFrom(n, p, 0), acts);
    DidAllGrows(n, acts);
  }

  // ---------------------------------------------------------------- every step, every run

  lemma QueuedUpIsOk(m: Node, b: Buf)
    requires Ok(m, multiset{} + multiset{b}) && |m.recv| < QUEUE_SIZE
    ensures Ok(m.(recv := m.recv + [b]), multiset{})
  {
    var u := m.(recv := m.recv + [b]);
    forall c: Buf ensures Uses(u, c) + multiset{}[c] == 1 {
      assert Uses(m, c) + (multiset{} + multiset{b})[c] == 1;
    }
    forall i: Place ensures Waits(u, i) {
      assert Waits(m, i);
    }
  }

  lemma ReceivedKeepsOk(n: Node, p: Packet)
    requires Ok(n, multiset{}) && |p| > 2
    ensures Ok(Received(n, p), multiset{})
  {
    hide Ok;
    var b := FirstFree(n.free, 0);
    if b < POOL_SIZE {
      GotKeepsOk(n, b, p, multiset{});
      PutKeepsOk(Got(n, b, p), b, multiset{});
      if p[2] > 0 {
        var q := p[2 := p[2] - 1];
        GotKeepsOk(n, b, q, multiset{});
        var m := Got(n, b, q);
        if |m.recv| < QUEUE_SIZE {
          QueuedUpIsOk(m, b);
        } else {
          PutKeepsOk(m, b, multiset{});
        }
      }
    }
  }

  /** The core process has the head of the receive queue in hand. */
  lemma DequeuedIsOk(n: Node)
    requires Ok(n, multiset{}) && n.recv != []
    ensures Ok(n.(recv := n.recv[1..]), multiset{n.recv[0]})
  {
    var b := n.recv[0];
    var m := n.(recv := n.recv[1..]);
    assert n.recv == [b] + n.recv[1..];
    forall c: Buf ensures Uses(m, c) + multiset{b}[c] == 1 {
      assert Uses(n, c) + multiset{}[c] == 1;
    }
    forall i: Place ensures Waits(m, i) {
      assert Waits(n, i);
    }
  }

  lemma DispatchedKeepsOk(n: Node, v: Verdict, acts: seq<Act>)
    requires Ok(n, multiset{}) && n.recv != []
    ensures Ok(Dispatched(n, v, acts), multiset{})
  {
    var b := n.recv[0];
    var m := n.(recv := n.recv[1..]);
    DequeuedIsOk(n);
    EmittedKeepsOk(m, n.content[b], multiset{b});
    TreatedKeepsOk(m, n.content[b], v, acts, multiset{b});
    assert multiset{} + multiset{b} == multiset{b};
    PutKeepsOk(if Forwarded(m, n.content[b], v) then Emitted(m, n.content[b]) else Treated(m, n.content[b], v, acts),
               b, multiset{});
  }

  lemma RetiredKeepsOk(n: Node)
    requires Ok(n, multiset{}) && n.send != []
    ensures Ok(Retired(n), multiset{})
  {
    var b := n.send[0];
    var m := n.(send := n.send[1..], status := Idle);
    assert n.send == [b] + n.send[1..];
    forall c: Buf ensures Uses(m, c) + (multiset{} + multiset{b})[c] == 1 {
      assert Uses(n, c) + multiset{}[c] == 1;
    }
    forall i: Place ensures Waits(m, i) {
      assert Waits(n, i);
    }
    PutKeepsOk(m, b, multiset{});
    SameBuffersOk(Put(m, b), DownOnce(Put(m, b)), multiset{});
  }

  lemma StepKeepsOk(n: Node, e: Event)
    requires Ok(n, multiset{})
    ensures Ok(Step(n, e), multiset{})
  {
    match e
    case Radio(p) =>
      if |p| > 2 {
        ReceivedKeepsOk(n, p);
      }
    case Dispatch(v, acts) =>
      if n.recv != [] {
        DispatchedKeepsOk(n, v, acts);
      }
    case SendTurn(v, acts) =>
      if n.status == Busy {
        var p := n.content[n.send[0]];
        SameBuffersOk(n, n.(status := AckWait), multiset{});
        TreatedKeepsOk(n, p, v, acts, multiset{});
        TreatedGrows(n, p, v, acts);
        RetiredKeepsOk(Treated(n, p, v, acts));
      }
    case SendDone(finished) =>
      if n.status == AckWait {
        RetiredKeepsOk(n);
        SameBuffersOk(n, n.(status := TrickleTime), multiset{});
      }
    case TrickleTimer =>
      SameBuffersOk(n, n.(status := Idle), multiset{});
      SameBuffersOk(n.(status := Idle), DownOnce(n.(status := Idle)), multiset{});
    case Local(acts) => DidAllKeepsOk(n, acts, multiset{});
  }

  /** A node that has just started. */
  ghost predicate Fresh(n: Node) {
    && n.recv == [] && n.send == [] && n.lost == [] && n.status == Idle
    && n.free == seq(POOL_SIZE, i => true) && n.keep == seq(KEEP_MAX, i => None)
  }

  ghost predicate IsRun(run: seq<Node>, events: seq<Event>) {
    && |run| == |events| + 1 && Fresh(run[0])
    && forall j {:trigger events[j]} :: 0 <= j < |events| ==> run[j + 1] == Step(run[j], events[j])
  }

  lemma {:induction false} EveryStateIsOk(run: seq<Node>, events: seq<Event>, i: nat)
    requires IsRun(run, events) && i < |run|
    ensures Ok(run[i], multiset{})
  {
    if i == 0 {
      forall c: Buf ensures Uses(run[0], c) + multiset{}[c] == 1 {
        assert Some(c) !in run[0].keep;
      }
    } else {
      EveryStateIsOk(run, events, i - 1);
      StepKeepsOk(run[i - 1], events[i - 1]);
    }
  }

  /**
    In every state of every run each buffer is in exactly one of the free pool, the receive queue, the send
    queue, the waiting room and the lost ones, and no packet waits for a flow or destination that the tables
    know.
   */
  lemma EveryBufferHasOneOwner(run: seq<Node>, events: seq<Event>, i: nat, b: Buf)
    requires IsRun(run, events) && i < |run|
    ensures Uses(run[i], b) == 1
    ensures Some(b) in run[i].keep ==> KeyOf(run[i].content[b]) != Neither && KeyOf(run[i].content[b]) !in run[i].known
    ensures run[i].status != Idle ==> run[i].send != []
  {
    EveryStateIsOk(run, events, i);
    assert Uses(run[i], b) + multiset{}[b] == 1;
    if Some(b) in run[i].keep {
      var j :| 0 <= j < KEEP_MAX && run[i].keep[j] == Some(b);
      assert Waits(run[i], j);
    }
  }

  // ---------------------------------------------------------------- lost buffers

  /** Some unanswered request among the acts finds a buffer in the pool. */
  ghost predicate Loses(n: Node, acts: seq<Act>)
    decreases |acts|
  {
    acts != [] && ((acts[0] == Unanswered && FirstFree(n.free, 0) < POOL_SIZE) || Loses(Did(n, acts[0]), acts[1..]))
  }

  /** The same for a packet that is treated, as far as its acts are performed at all. */
  ghost predicate TreatmentLoses(n: Node, p: Packet, v: Verdict, acts: seq<Act>) {
    v != Malformed && !Forwarded(n, p, v)
    && Loses(if KeyOf(p) != Neither && KeyOf(p) !in n.known then StoredFrom(n, p, 0) else n, acts)
  }

  /** The step performs an unanswered request that finds a buffer in the pool. */
  ghost predicate StepLoses(n: Node, e: Event) {
    match e
    case Dispatch(v, acts) =>
      n.recv != [] && TreatmentLoses(n.(recv := n.recv[1..]), n.content[n.recv[0]], v, acts)
    case SendTurn(v, acts) =>
      n.status == Busy && n.send != [] && TreatmentLoses(n, n.content[n.send[0]], v, acts)
    case Local(acts) => Loses(n, acts)
    case _ => false
  }

  lemma {:induction false} SolvedLosesNothing(n: Node, k: Key, i: PlaceOrEnd)
    ensures SolvedFrom(n, k, i).lost == n.lost
    decreases KEEP_MAX - i
  {
    if i < KEEP_MAX {
      SolvedLosesNothing(SolvedAt(n, k, i), k, i + 1);
    }
  }

  lemma {:induction false} StoredLosesNothing(n: Node, p: Packet, i: PlaceOrEnd)
    ensures StoredFrom(n, p, i).lost == n.lost
    decreases KEEP_MAX - i
  {
    if i < KEEP_MAX && n.keep[i].Some? {
      StoredLosesNothing(n, p, i + 1);
    }
  }

  /** A buffer is lost by an unanswered request that finds one in the pool, and never comes back. */
  lemma DidLoses(n: Node, a: Act)
    ensures n.lost <= Did(n, a).lost
    ensures Did(n, a).lost == n.lost <==> a != Unanswered || FirstFree(n.free, 0) == POOL_SIZE
  {
    if a.Learn? {
      SolvedLosesNothing(n.(known := n.known + {a.key}), a.key, 0);
    }
  }

  lemma {:induction false} DidAllLoses(n: Node, acts: seq<Act>)
    ensures n.lost <= DidAll(n, acts).lost && (DidAll(n, acts).lost != n.lost <==> Loses(n, acts))
    decreases |acts|
  {
    hide Did;
    if acts != [] {
      DidLoses(n, acts[0]);
      DidAllLoses(Did(n, acts[0]), acts[1..]);
    }
  }

  lemma TreatedLoses(n: Node, p: Packet, v: Verdict, acts: seq<Act>)
    requires !Forwarded(n, p, v)
    ensures n.lost <= Treated(n, p, v, acts).lost
    ensures Treated(n, p, v, acts).lost != n.lost <==> TreatmentLoses(n, p, v, acts)
  {
    hide DidAll;
    hide Loses;
    StoredLosesNothing(n, p, 0);
    DidAllLoses(StoredFrom(n, p, 0), acts);
    DidAllLoses(n, acts);
  }

  /** A step loses a buffer exactly when it performs an unanswered request that finds one. */
  lemma StepLosesExactly(n: Node, e: Event)
    ensures n.lost <= Step(n, e).lost && (Step(n, e).lost != n.lost <==> StepLoses(n, e))
  {
    hide Treated;
    hide DidAll;
    hide Loses;
    match e
    case Dispatch(v, acts) =>
      if n.recv != [] {
        var m := n.(recv := n.recv[1..]);
        if !Forwarded(m, n.content[n.recv[0]], v) {
          TreatedLoses(m, n.content[n.recv[0]], v, acts);
        }
      }
    case SendTurn(v, acts) =>
      if n.status == Busy && n.send != [] && !Forwarded(n, n.content[n.send[0]], v) {
        TreatedLoses(n, n.content[n.send[0]], v, acts);
      }
    case Local(acts) => DidAllLoses(n, acts);
    case _ =>
  }

  /** A run has lost no buffer exactly when no step of it has performed an unanswered request that found one. */
  lemma {:induction false} NothingIsLost(run: seq<Node>, events: seq<Event>, i: nat)
    requires IsRun(run, events) && i < |run|
    ensures run[i].lost == [] <==> forall j :: 0 <= j < i ==> !StepLoses(run[j], events[j])
  {
    hide Step;
    hide StepLoses;
    if i > 0 {
      NothingIsLost(run, events, i - 1);
      StepLosesExactly(run[i - 1], events[i - 1]);
    }
  }

  /** The node after `k` unanswered requests. */
  ghost function AfterRequests(n: Node, k: nat): Node {
    if k == 0 then n else Step(AfterRequests(n, k - 1), Local([Unanswered]))
  }

  /** As many unanswered requests as there are buffers leave a fresh node without any, for good. */
  lemma {:induction false} RequestsExhaustPool(n: Node, k: nat)
    requires Fresh(n) && k <= POOL_SIZE
    ensures var m := AfterRequests(n, k);
            && |m.lost| == k && (forall b: Buf :: m.free[b] <==> b >= k)
            && m.recv == [] && m.send == [] && m.keep == n.keep
  {
    if k > 0 {
      var m := AfterRequests(n, k - 1);
      RequestsExhaustPool(n, k - 1);
      assert FirstFree(m.free, 0) == k - 1;
      assert [Unanswered][1..] == [];
      assert DidAll(Leaked(m), []) == Leaked(m);
    }
  }

  // ---------------------------------------------------------------- in place

  /** sdn_queue_t with its array. */
  class RingQueue {
    const data: array<Buf>
    var head: nat
    var tail: nat
    var size: nat

    ghost predicate Valid()
      reads this
    {
      && data.Length == QUEUE_SIZE && head < QUEUE_SIZE && size <= QUEUE_SIZE
      && tail == (if head + size < QUEUE_SIZE then head + size else head + size - QUEUE_SIZE)
    }

    ghost function At(i: nat): Buf
      requires Valid() && i < size
      reads this, data
    {
      data[if head + i < QUEUE_SIZE then head + i else head + i - QUEUE_SIZE]
    }

    ghost function Contents(): (s: seq<Buf>)
      requires Valid()
      reads this, data
      ensures |s| == size && forall i :: 0 <= i < size ==> s[i] == At(i)
    {
      seq(size, i requires 0 <= i < size && Valid() reads this, data => At(i))
    }

    constructor ()
      ensures Valid() && Contents() == [] && fresh(data)
    {
      data := new Buf[QUEUE_SIZE](i => 0);
      head, tail, size := 0, 0, 0;
    }

    method Enqueue(b: Buf) returns (ok: bool)
      requires Valid()
      modifies this, data
      ensures Valid() && (ok <==> old(size) < QUEUE_SIZE)
      ensures Contents() == if ok then old(Contents()) + [b] else old(Contents())
    {
      if size < QUEUE_SIZE {
        data[tail] := b;
        tail := tail + 1;
        if tail == QUEUE_SIZE {
          tail := 0;
        }
        size := size + 1;
        return true;
      }
      return false;
    }

    /** An empty queue stays as it is, and what its head place held last comes back. */
    method Dequeue() returns (b: Buf)
      requires Valid()
      modifies this
      ensures Valid() && b == old(data[head])
      ensures if old(size) == 0 then Contents() == old(Contents()) else old(Contents()) == [b] + Contents()
    {
      b := data[head];
      if size > 0 {
        head := head + 1;
        if head == QUEUE_SIZE {
          head := 0;
        }
        size := size - 1;
      }
    }
  }

  class NodeBuffers {
    const self: (Byte, Byte)
    const recv: RingQueue
    const send: RingQueue
    const keep: array<Option<Buf>>
    const free: array<bool>
    const content: array<Packet>
    var known: set<Key>
    var status: Status
    /** The buffers that nothing in the program refers to any more. */
    ghost var lost: seq<Buf>

    ghost function Parts(): set<object> {
      {this, recv, recv.data, send, send.data, keep, free, content}
    }

    ghost predicate Valid()
      reads Parts()
    {
      && recv != send && recv.data != send.data && recv.Valid() && send.Valid()
      && free.Length == content.Length == POOL_SIZE && keep.Length == KEEP_MAX
    }

    ghost function Value(): Node
      requires Valid()
      reads Parts()
    {
      Node(self, free[..], recv.Contents(), send.Contents(), keep[..], lost, content[..], known, status)
    }

    constructor (self: (Byte, Byte))
      ensures Valid() && Fresh(Value()) && Value().known == {} && this.self == self && fresh(Parts())
    {
      this.self := self;
      recv := new RingQueue();
      send := new RingQueue();
      keep := new Option<Buf>[KEEP_MAX](i => None);
      free := new bool[POOL_SIZE](i => true);
      content := new Packet[POOL_SIZE](i => []);
      known, status, lost := {}, Idle, [];
    }

    /** sdn_packetbuf_pool_get and the copy into the buffer. */
    method GetCopy(p: Packet) returns (b: Option<Buf>)
      requires Valid()
      modifies free, content
      ensures Valid()
      ensures var f := FirstFree(old(Value()).free, 0);
              if f == POOL_SIZE then b == None && Value() == old(Value())
              else b == Some(f) && Value() == Got(old(Value()), f, p)
    {
      var i := 0;
      while i < POOL_SIZE && !free[i]
        invariant 0 <= i <= POOL_SIZE && FirstFree(free[..], 0) == FirstFree(free[..], i)
      {
        i := i + 1;
      }
      if i == POOL_SIZE {
        return None;
      }
      free[i] := false;
      content[i] := p;
      b := Some(i);
    }

    method PutBack(b: Buf)
      requires Valid()
      modifies free
      ensures Valid() && Value() == Put(old(Value()), b)
    {
      free[b] := true;
    }

    method SendDownOnce()
      requires Valid()
      modifies this`status
      ensures Valid() && Value() == DownOnce(old(Value()))
    {
      if status == Idle && send.size != 0 {
        status := Busy;
      }
    }

    method EnqueueForSending(b: Buf)
      requires Valid()
      modifies this`status, send, send.data, free
      ensures Valid() && Value() == Enqueue(old(Value()), b)
    {
      var ok := send.Enqueue(b);
      if ok {
        SendDownOnce();
      } else {
        PutBack(b);
      }
    }

    method AllocAndEnqueue(p: Packet)
      requires Valid()
      modifies this`status, send, send.data, free, content
      ensures Valid() && Value() == Emitted(old(Value()), p)
    {
      var b := GetCopy(p);
      if b.Some? {
        EnqueueForSending(b.value);
      }
    }

    /** sdn_send_queue_find_by_type for neighbour reports; `i` is where the search stops. */
    method FindOwnReport() returns (i: nat)
      requires Valid()
      ensures i == FindReport(Value(), 0)
    {
      i := 0;
      while i < send.size
        invariant i <= send.size && FindReport(Value(), 0) == FindReport(Value(), i)
      {
        var at := send.head + i;
        if at >= QUEUE_SIZE {
          at := at - QUEUE_SIZE;
        }
        assert send.data[at] == send.Contents()[i];
        var p := content[send.data[at]];
        if |p| >= 6 && p[0] == NEIGHBOR_REPORT && (p[4], p[5]) == self {
          return;
        }
        i := i + 1;
      }
    }

    /** sdn_send_neighbor_report: over a report that is still queued, or as a new packet. */
    method SendReport(p: ReportPacket)
      requires Valid()
      modifies this`status, send, send.data, free, content
      ensures Valid() && Value() == Reported(old(Value()), p)
    {
      var i := FindOwnReport();
      var q := FromSelf(self, p);
      if i == send.size {
        AllocAndEnqueue(q);
      } else {
        var at := send.head + i;
        if at >= QUEUE_SIZE {
          at := at - QUEUE_SIZE;
        }
        assert send.data[at] == send.Contents()[i];
        var b := send.data[at];
        content[b] := q[3 := content[b][3]];
      }
    }

    /** store_packet. */
    method StorePacket(p: Packet)
      requires Valid()
      modifies keep, free, content
      ensures Valid() && Value() == StoredFrom(old(Value()), p, 0)
    {
      var i := 0;
      while i < KEEP_MAX && keep[i].Some?
        invariant 0 <= i <= KEEP_MAX && StoredFrom(Value(), p, 0) == StoredFrom(Value(), p, i)
      {
        i := i + 1;
      }
      if i < KEEP_MAX {
        var b := GetCopy(p);
        if b.Some? {
          keep[i] := b;
        }
      }
    }

    /** sdn_solve_unknown_flow and sdn_solve_unknown_dest. */
    method SolveUnknown(k: Key)
      requires Valid()
      modifies this`status, send, send.data, keep, free
      ensures Valid() && Value() == SolvedFrom(old(Value()), k, 0)
    {
      var i := 0;
      while i < KEEP_MAX
        invariant 0 <= i <= KEEP_MAX && Valid()
        invariant SolvedFrom(Value(), k, i) == SolvedFrom(old(Value()), k, 0)
      {
        SolveOne(k, i);
        i := i + 1;
      }
    }

    method SolveOne(k: Key, i: Place)
      requires Valid()
      modifies this`status, send, send.data, keep, free
      ensures Valid() && Value() == SolvedAt(old(Value()), k, i)
    {
      if keep[i].Some? && KeyOf(content[keep[i].value]) == k {
        EnqueueForSending(keep[i].value);
        keep[i] := None;
      }
    }

    /** sdn_send_data_management when no requested metric is compiled in. */
    method Leak()
      requires Valid()
      modifies this`lost, free
      ensures Valid() && Value() == Leaked(old(Value()))
    {
      var i := 0;
      while i < POOL_SIZE && !free[i]
        invariant 0 <= i <= POOL_SIZE && FirstFree(free[..], 0) == FirstFree(free[..], i)
      {
        i := i + 1;
      }
      if i < POOL_SIZE {
        free[i] := false;
        lost := lost + [i];
      }
    }

    method PerformOne(a: Act)
      requires Valid()
      modifies this, send, send.data, keep, free, content
      ensures Valid() && Value() == Did(old(Value()), a)
    {
      hide SolvedFrom;
      hide Emitted;
      hide Leaked;
      hide Reported;
      match a
      case Emit(p) => AllocAndEnqueue(p);
      case Report(p) => SendReport(p);
      case Learn(k) =>
        known := known + {k};
        SolveUnknown(k);
      case Forget(k) => known := known - {k};
      case Unanswered => Leak();
    }

    method Perform(acts: seq<Act>)
      requires Valid()
      modifies this, send, send.data, keep, free, content
      ensures Valid() && Value() == DidAll(old(Value()), acts)
    {
      hide Did;
      var rest := acts;
      while rest != []
        invariant Valid() && DidAll(Value(), rest) == DidAll(old(Value()), acts)
        decreases |rest|
      {
        PerformOne(rest[0]);
        rest := rest[1..];
      }
    }

    /** sdn_receive after the duplicate test. */
    method Receive(p: Packet)
      requires Valid() && |p| > 2
      modifies recv, recv.data, free, content
      ensures Valid() && Value() == Received(old(Value()), p)
    {
      var q := if p[2] == 0 then p else p[2 := p[2] - 1];
      var b := GetCopy(q);
      if b.Some? {
        if p[2] == 0 {
          PutBack(b.value);
        } else {
          var ok := recv.Enqueue(b.value);
          if !ok {
            PutBack(b.value);
          }
        }
      }
    }

    /** sdn_treat_packet and sdn_treat_packet_receiv as far as the buffers go; true when there is a next hop. */
    method TreatPacket(p: Packet, v: Verdict, acts: seq<Act>) returns (forwarded: bool)
      requires Valid()
      modifies this, send, send.data, keep, free, content
      ensures Valid() && (forwarded <==> Forwarded(old(Value()), p, v))
      ensures Value() == if forwarded then old(Value()) else Treated(old(Value()), p, v, acts)
    {
      forwarded := false;
      if v != Malformed {
        var k := KeyOf(p);
        if k != Neither && k !in known {
          StorePacket(p);
          Perform(acts);
        } else if v == Forward {
          forwarded := true;
        } else {
          Perform(acts);
        }
      }
    }

    /** The core process on a new-packet event. */
    method CoreTurn(v: Verdict, acts: seq<Act>)
      requires Valid() && recv.size > 0
      modifies Parts()
      ensures Valid() && Value() == Dispatched(old(Value()), v, acts)
    {
      ghost var n := Value();
      var b := recv.Dequeue();
      assert recv.Contents() == n.recv[1..];
      var p := content[b];
      var forwarded := TreatPacket(p, v, acts);
      if forwarded {
        AllocAndEnqueue(p);
      }
      PutBack(b);
    }

    /** The end of sdn_send_done and of the send process without a next hop. */
    method Retire()
      requires Valid() && send.size > 0
      modifies this`status, send, free
      ensures Valid() && Value() == Retired(old(Value()))
    {
      ghost var n := Value();
      var b := send.Dequeue();
      assert send.Contents() == n.send[1..];
      PutBack(b);
      status := Idle;
      SendDownOnce();
    }

    /** The send process on a new-packet event. */
    method SendTurn(v: Verdict, acts: seq<Act>)
      requires Valid() && status == Busy && send.size > 0
      modifies Parts()
      ensures Valid() && Value() == Step(old(Value()), Event.SendTurn(v, acts))
    {
      ghost var n := Value();
      var p := content[send.data[send.head]];
      assert send.At(0) == n.send[0];
      TreatedGrows(n, p, v, acts);
      var forwarded := TreatPacket(p, v, acts);
      if forwarded {
        status := AckWait;
      } else {
        Retire();
      }
    }
  }
}
