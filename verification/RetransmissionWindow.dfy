/**
  The end-to-end retransmission window of a node (contiki-sdn/sdn-send.c): four packet buffers that are freed
  by clearing their length only, so that freed buffers keep their old bytes, and lookups that mostly do not
  ask whether a buffer is in use.
 */
module RetransmissionWindow {
  import opened Bytes
  import opened Options

  const WINDOW := 4
  const MAX_PACKET_SIZE := 116

  // Packet types of sdn-protocol.h that are kept for retransmission.
  const CONTROL_FLOW_REQUEST: Byte := 2
  const DATA_FLOW_REQUEST: Byte := 3
  const NEIGHBOR_REPORT: Byte := 4
  const REGISTER_FLOWID: Byte := 14

  /** What makes two kept packets redundant: type, and bytes 8 and 9 except for neighbour reports. */
  datatype Key =
    | Report
    | Request(kind: Byte, hi: Byte, lo: Byte)
    | Other(kind: Byte)

  /** A packet buffer. */
  type Row = r: seq<Byte> | |r| == MAX_PACKET_SIZE witness seq(MAX_PACKET_SIZE, i => 0)
  const ZERO_ROW: Row := seq(MAX_PACKET_SIZE, i => 0)
  type Rows = r: seq<Row> | |r| == WINDOW witness [ZERO_ROW, ZERO_ROW, ZERO_ROW, ZERO_ROW]
  type Len = n: nat | n <= MAX_PACKET_SIZE
  type Lens = l: seq<Len> | |l| == WINDOW witness [0, 0, 0, 0]
  type Slot = i: nat | i < WINDOW
  type SlotOrEnd = i: nat | i <= WINDOW

  function KeyOf(row: Row): Key {
    if row[0] == NEIGHBOR_REPORT then Report
    else if row[0] == DATA_FLOW_REQUEST || row[0] == CONTROL_FLOW_REQUEST || row[0] == REGISTER_FLOWID then
      Request(row[0], row[8], row[9])
    else Other(row[0])
  }

  /** sld_w, sld_l and sld_count. */
  datatype Window = Window(rows: Rows, len: Lens, hint: SlotOrEnd)

  /** No buffer below one in use holds its key, whether in use itself or not. */
  ghost predicate Unshadowed(w: Window, i: int, j: int) {
    0 <= i < j < WINDOW && w.len[j] > 0 ==> KeyOf(w.rows[i]) != KeyOf(w.rows[j])
  }

  ghost predicate Ok(w: Window) {
    && (forall i :: 0 <= i < w.hint ==> w.len[i] > 0)
    && (forall i, j {:trigger Unshadowed(w, i, j)} :: Unshadowed(w, i, j))
  }

  // ---------------------------------------------------------------- removing

  /** What the removal functions look for. */
  datatype Probe = ForKey(key: Key) | ForType(kind: Byte) | ForAck(kind: Byte, seqNo: Byte)

  predicate Hits(q: Probe, row: Row) {
    match q
    case ForKey(k) => KeyOf(row) == k
    case ForType(t) => row[0] == t
    case ForAck(t, s) => row[0] == t && row[3] == s
  }

  /** The first buffer from `i` on that matches, in use or not; WINDOW if there is none. */
  function First(w: Window, q: Probe, i: SlotOrEnd): (r: SlotOrEnd)
    ensures i <= r
    ensures r < WINDOW ==> Hits(q, w.rows[r])
    ensures forall j :: i <= j < r ==> !Hits(q, w.rows[j])
    decreases WINDOW - i
  {
    if i == WINDOW || Hits(q, w.rows[i]) then i else First(w, q, i + 1)
  }

  /** sld_remove_element. */
  function Removed(w: Window, i: Slot): Window {
    w.(len := w.len[i := 0], hint := if i < w.hint then i else w.hint)
  }

  function RemoveFirst(w: Window, q: Probe): Window {
    var i := First(w, q, 0);
    if i < WINDOW then Removed(w, i) else w
  }

  lemma RemovedKeepsOk(w: Window, i: Slot)
    requires Ok(w)
    ensures Ok(Removed(w, i))
  {
    var u := Removed(w, i);
    forall a, b ensures Unshadowed(u, a, b) {
      assert Unshadowed(w, a, b);
    }
  }

  lemma RemoveFirstKeepsOk(w: Window, q: Probe)
    requires Ok(w)
    ensures Ok(RemoveFirst(w, q))
  {
    if First(w, q, 0) < WINDOW {
      RemovedKeepsOk(w, First(w, q, 0));
    }
  }

  // ---------------------------------------------------------------- the window as a map

  predicate Live(w: Window, k: Key, i: Slot) {
    w.len[i] > 0 && KeyOf(w.rows[i]) == k
  }

  /** The first buffer from `i` on that is in use for the key. */
  function LiveFrom(w: Window, k: Key, i: SlotOrEnd): (r: SlotOrEnd)
    ensures i <= r
    ensures r < WINDOW ==> Live(w, k, r)
    ensures forall j :: i <= j < r ==> !Live(w, k, j)
    decreases WINDOW - i
  {
    if i == WINDOW || Live(w, k, i) then i else LiveFrom(w, k, i + 1)
  }

  /** The packet waiting for an acknowledgement under a key. */
  function Held(w: Window, k: Key): Option<seq<Byte>> {
    var i := LiveFrom(w, k, 0);
    if i < WINDOW then Some(w.rows[i][..w.len[i]]) else None
  }

  /** At most one buffer is in use for a key, and it is the first that carries the key at all. */
  lemma LiveIsFirst(w: Window, k: Key, j: Slot)
    requires Ok(w) && Live(w, k, j)
    ensures First(w, ForKey(k), 0) == j && LiveFrom(w, k, 0) == j
    ensures forall i: Slot :: Live(w, k, i) ==> i == j
  {
    assert Unshadowed(w, First(w, ForKey(k), 0), j) && Unshadowed(w, LiveFrom(w, k, 0), j);
    forall i: Slot | Live(w, k, i) ensures i == j {
      assert Unshadowed(w, i, j) && Unshadowed(w, j, i);
    }
  }

  lemma HeldAt(w: Window, k: Key, j: Slot)
    requires Ok(w) && Live(w, k, j)
    ensures Held(w, k) == Some(w.rows[j][..w.len[j]])
  {
    LiveIsFirst(w, k, j);
  }

  /**
    Removal by key, which does not ask whether a buffer is in use, releases exactly the packet waiting under
    that key; when none is waiting nothing at all changes, even if a freed buffer still carries the key.
   */
  lemma RemoveKeyIsExact(w: Window, k: Key, x: Key)
    requires Ok(w)
    ensures var u := RemoveFirst(w, ForKey(k));
            && Ok(u)
            && Held(u, x) == (if x == k then None else Held(w, x))
            && (Held(w, k) == None ==> u == w)
  {
    var u := RemoveFirst(w, ForKey(k));
    RemoveFirstKeepsOk(w, ForKey(k));
    var i := First(w, ForKey(k), 0);
    var j := LiveFrom(w, k, 0);
    if j < WINDOW {
      LiveIsFirst(w, k, j);
    } else if i < WINDOW {
      assert !Live(w, k, i);
      assert w.len[i := 0] == w.len;
    }
    OthersStayHeld(w, k, x);
  }

  lemma OthersStayHeld(w: Window, k: Key, x: Key)
    requires Ok(w) && Ok(RemoveFirst(w, ForKey(k)))
    requires forall a: Slot :: Live(w, k, a) ==> First(w, ForKey(k), 0) == a
    ensures Held(RemoveFirst(w, ForKey(k)), x) == (if x == k then None else Held(w, x))
  {
    var u := RemoveFirst(w, ForKey(k));
    var m := LiveFrom(w, x, 0);
    if x != k && m < WINDOW {
      LiveIsFirst(w, x, m);
      HeldAt(u, x, m);
    } else {
      forall a: Slot ensures !Live(u, x, a) {
        assert Live(w, x, a) ==> Live(w, x, LiveFrom(w, x, 0));
      }
    }
  }

  // ---------------------------------------------------------------- keeping a sent packet

  /** The packets the send path hands over: a whole header, and the key bytes for requests. */
  type Packet = p: seq<Byte> | Sendable(p) witness seq(6, i => 0)

  predicate Sendable(p: seq<Byte>) {
    && 6 <= |p| <= MAX_PACKET_SIZE
    && (Reliable(p[0]) && p[0] != NEIGHBOR_REPORT ==> 10 <= |p|)
  }

  function SourceOf(row: seq<Byte>): (Byte, Byte)
    requires |row| > 5
  {
    (row[4], row[5])
  }

  predicate Reliable(kind: Byte) {
    kind == NEIGHBOR_REPORT || kind == DATA_FLOW_REQUEST || kind == CONTROL_FLOW_REQUEST || kind == REGISTER_FLOWID
  }

  /** Own packets of the four reliable types. */
  predicate Eligible(self: (Byte, Byte), p: Packet) {
    Reliable(p[0]) && SourceOf(p) == self
  }

  /** memcpy of the packet over a buffer. */
  function Overlaid(p: Packet, row: Row): (r: Row)
    ensures r[..|p|] == p
  {
    p + row[|p|..]
  }

  /** A neighbour report in use is replaced where it is. */
  function ReplacedAt(w: Window, p: Packet, i: Slot): Window {
    if Live(w, Report, i) then w.(rows := w.rows[i := Overlaid(p, w.rows[i])], len := w.len[i := |p|]) else w
  }

  function ReplacedFrom(w: Window, p: Packet, i: SlotOrEnd): Window
    decreases WINDOW - i
  {
    if i == WINDOW then w else ReplacedFrom(ReplacedAt(w, p, i), p, i + 1)
  }

  /** From the hint up, the first buffer not in use. */
  function Free(w: Window, i: SlotOrEnd): (r: SlotOrEnd)
    ensures i <= r
    ensures r < WINDOW ==> w.len[r] == 0
    ensures forall j :: i <= j < r ==> w.len[j] > 0
    decreases WINDOW - i
  {
    if i == WINDOW || w.len[i] == 0 then i else Free(w, i + 1)
  }

  /** The key of an eligible packet, from its own bytes. */
  function PacketKey(p: Packet): Key {
    if p[0] == NEIGHBOR_REPORT || |p| < 10 then Report else Request(p[0], p[8], p[9])
  }

  lemma KeyOfOverlaid(p: Packet, row: Row)
    requires Reliable(p[0])
    ensures KeyOf(Overlaid(p, row)) == PacketKey(p)
  {
  }

  /** The packet in buffer `i`, and the hint above it. */
  function Stored(w: Window, p: Packet, i: Slot): Window {
    Window(w.rows[i := Overlaid(p, w.rows[i])], w.len[i := |p|], i + 1)
  }

  lemma StoredIgnoresHint(w: Window, p: Packet, i: Slot, hint: SlotOrEnd)
    ensures Stored(w.(hint := hint), p, i) == Stored(w, p, i)
  {
  }

  /** sld_await_ack; false is SDN_ERROR for a full window. */
  function Await(w: Window, self: (Byte, Byte), p: Packet): (Window, bool) {
    if !Eligible(self, p) then (w, true)
    else
      var k := PacketKey(p);
      if LiveFrom(w, k, 0) < WINDOW then (if k == Report then ReplacedFrom(w, p, 0) else w, true)
      else
        var i := Free(w, w.hint);
        if i == WINDOW then (w.(hint := WINDOW), false) else (Stored(w, p, i), true)
  }

  lemma StoreKeepsOk(w: Window, p: Packet, i: Slot)
    requires Ok(w) && Reliable(p[0]) && i == Free(w, w.hint)
    requires LiveFrom(w, PacketKey(p), 0) == WINDOW
    ensures Ok(Stored(w, p, i))
  {
    var u := Stored(w, p, i);
    KeyOfOverlaid(p, w.rows[i]);
    forall a, b ensures Unshadowed(u, a, b) {
      assert Unshadowed(w, a, b);
      if 0 <= a < b < WINDOW {
        assert !Live(w, KeyOf(u.rows[i]), a) && !Live(w, KeyOf(u.rows[i]), b);
      }
    }
  }

  /** At most one report is in use, and the loop replaces just that. */
  lemma {:induction false} OneReportReplaced(w: Window, p: Packet, i: SlotOrEnd)
    requires forall a: Slot, b: Slot :: a < b ==> !(Live(w, Report, a) && Live(w, Report, b))
    requires p[0] == NEIGHBOR_REPORT
    ensures var l := LiveFrom(w, Report, i);
            ReplacedFrom(w, p, i) == if l < WINDOW then ReplacedAt(w, p, l) else w
    decreases WINDOW - i
  {
    if i < WINDOW {
      var u := ReplacedAt(w, p, i);
      KeyOfOverlaid(p, w.rows[i]);
      assert forall j: Slot :: (Live(u, Report, j) <==> Live(w, Report, j));
      OneReportReplaced(u, p, i + 1);
      if Live(w, Report, i) {
        assert forall j: Slot :: i < j ==> !Live(u, Report, j);
      }
    }
  }

  lemma ReplacedIs(w: Window, p: Packet, l: Slot)
    requires Ok(w) && p[0] == NEIGHBOR_REPORT && Live(w, Report, l)
    ensures ReplacedFrom(w, p, 0) == ReplacedAt(w, p, l)
  {
    LiveIsFirst(w, Report, l);
    OneReportReplaced(w, p, 0);
  }

  lemma ReplaceKeepsOk(w: Window, p: Packet, l: Slot)
    requires Ok(w) && p[0] == NEIGHBOR_REPORT && Live(w, Report, l)
    ensures Ok(ReplacedAt(w, p, l))
  {
    var u := ReplacedAt(w, p, l);
    KeyOfOverlaid(p, w.rows[l]);
    forall a, b ensures Unshadowed(u, a, b) {
      assert Unshadowed(w, a, b);
    }
  }

  /**
    Keeping a packet: the window stays well formed; the packet waits under its key afterwards if it is
    eligible and either new or a newer neighbour report; every other key keeps its packet.  Full is reported
    exactly when the key is new and all four buffers are in use.
   */
  lemma AwaitIsExact(w: Window, self: (Byte, Byte), p: Packet, x: Key)
    requires Ok(w)
    ensures var (u, kept) := Await(w, self, p);
            var k := PacketKey(p);
            var novel := Eligible(self, p) && Held(w, k) == None;
            && Ok(u)
            && (!kept <==> novel && forall i :: 0 <= i < WINDOW ==> w.len[i] > 0)
            && Held(u, x) ==
               if x == k && kept && (novel || (Eligible(self, p) && k == Report)) then Some(p) else Held(w, x)
  {
    hide ReplacedAt;
    hide Stored;
    hide KeyOf;
    var (u, kept) := Await(w, self, p);
    var k := PacketKey(p);
    if Eligible(self, p) {
      var l := LiveFrom(w, k, 0);
      var i := Free(w, w.hint);
      if l < WINDOW {
        if k == Report {
          ReplacedIs(w, p, l);
          ReplaceKeepsOk(w, p, l);
          ReplaceHeld(w, p, l, x);
        }
      } else if i < WINDOW {
        StoreKeepsOk(w, p, i);
        StoreHeld(w, p, i, x);
      } else {
        assert LiveFrom(w, x, 0) < WINDOW ==> Live(u, x, LiveFrom(w, x, 0));
        assert LiveFrom(u, x, 0) < WINDOW ==> Live(w, x, LiveFrom(u, x, 0));
        forall a, b ensures Unshadowed(u, a, b) {
          assert Unshadowed(w, a, b);
        }
      }
    }
  }

  lemma ReplaceHeld(w: Window, p: Packet, l: Slot, x: Key)
    requires Ok(w) && p[0] == NEIGHBOR_REPORT && Live(w, Report, l)
    ensures Held(ReplacedAt(w, p, l), x) == if x == Report then Some(p) else Held(w, x)
  {
    var u := ReplacedAt(w, p, l);
    ReplaceKeepsOk(w, p, l);
    KeyOfOverlaid(p, w.rows[l]);
    if x == Report {
      HeldAt(u, x, l);
    } else {
      var i, j := LiveFrom(w, x, 0), LiveFrom(u, x, 0);
      if i < WINDOW {
        HeldAt(u, x, i);
      } else if j < WINDOW {
        assert Live(w, x, j);
      }
    }
  }

  lemma StoreHeld(w: Window, p: Packet, i: Slot, x: Key)
    requires Ok(w) && Reliable(p[0]) && i == Free(w, w.hint)
    requires LiveFrom(w, PacketKey(p), 0) == WINDOW
    ensures var u := Stored(w, p, i);
            Ok(u) && Held(u, x) == if x == PacketKey(p) then Some(p) else Held(w, x)
  {
    var u := Stored(w, p, i);
    StoreKeepsOk(w, p, i);
    KeyOfOverlaid(p, w.rows[i]);
    if x == PacketKey(p) {
      HeldAt(u, x, i);
    } else {
      var a, b := LiveFrom(w, x, 0), LiveFrom(u, x, 0);
      if a < WINDOW {
        HeldAt(u, x, a);
      } else if b < WINDOW {
        assert Live(w, x, b);
      }
    }
  }

  // ---------------------------------------------------------------- timers, acknowledgements and runs

  /** A buffer's timer: an own packet gets a new sequence number and leaves the window, unless the pool is empty. */
  function Fire(w: Window, self: (Byte, Byte), i: Slot, queued: bool, seqNo: Byte): Window {
    if !queued then w
    else
      var row := w.rows[i];
      Removed(w.(rows := w.rows[i := if SourceOf(row) == self then row[3 := seqNo] else row]), i)
  }

  lemma FireKeepsOk(w: Window, self: (Byte, Byte), i: Slot, queued: bool, seqNo: Byte)
    requires Ok(w)
    ensures Ok(Fire(w, self, i, queued, seqNo))
  {
    var u := Fire(w, self, i, queued, seqNo);
    assert forall j :: 0 <= j < WINDOW ==> KeyOf(u.rows[j]) == KeyOf(w.rows[j]);
    forall a, b ensures Unshadowed(u, a, b) {
      assert Unshadowed(w, a, b);
    }
  }

  datatype Event =
    | Sent(packet: Packet)
    | Remove(probe: Probe)
    | Timer(index: Slot, queued: bool, seqNo: Byte)

  function Step(self: (Byte, Byte), w: Window, e: Event): Window {
    match e
    case Sent(p) => Await(w, self, p).0
    case Remove(q) => RemoveFirst(w, q)
    case Timer(i, queued, seqNo) => if w.len[i] > 0 then Fire(w, self, i, queued, seqNo) else w
  }

  /** All memory is zero at the start. */
  const EMPTY: Window := Window([ZERO_ROW, ZERO_ROW, ZERO_ROW, ZERO_ROW], [0, 0, 0, 0], 0)

  lemma {:induction false} EveryStateIsOk(self: (Byte, Byte), run: seq<Window>, events: seq<Event>, n: nat)
    requires |run| == |events| + 1 && run[0] == EMPTY && n < |run|
    requires forall i {:trigger events[i]} :: 0 <= i < |events| ==> run[i + 1] == Step(self, run[i], events[i])
    ensures Ok(run[n])
  {
    if n == 0 {
      forall a, b ensures Unshadowed(EMPTY, a, b) {
      }
    } else {
      EveryStateIsOk(self, run, events, n - 1);
      var w := run[n - 1];
      match events[n - 1]
      case Sent(p) => AwaitIsExact(w, self, p, Report);
      case Remove(q) => RemoveFirstKeepsOk(w, q);
      case Timer(i, queued, seqNo) => FireKeepsOk(w, self, i, queued, seqNo);
    }
  }

  /** An acknowledgement releases the waiting packet in buffer `j` exactly when no buffer below matches it too. */
  lemma AckReleases(w: Window, t: Byte, s: Byte, j: Slot)
    requires Ok(w) && w.len[j] > 0 && Hits(ForAck(t, s), w.rows[j])
    ensures RemoveFirst(w, ForAck(t, s)).len[j] == 0 <==> forall i :: 0 <= i < j ==> !Hits(ForAck(t, s), w.rows[i])
  {
    assert First(w, ForAck(t, s), 0) <= j;
  }

  // ---------------------------------------------------------------- the window in place

  class SendWindow {
    const self: (Byte, Byte)
    const rows: array<Row>
    const len: array<Len>
    /** Whether the buffer's timer runs. */
    const armed: array<bool>
    var count: SlotOrEnd

    ghost function Value(): Window
      requires rows.Length == len.Length == WINDOW
      reads this, rows, len
    {
      Window(rows[..], len[..], count)
    }

    /** A timer runs exactly for the buffers in use. */
    ghost predicate TimersFit()
      reads this, len, armed
    {
      armed.Length == rows.Length == len.Length == WINDOW && forall i :: 0 <= i < WINDOW ==> (armed[i] <==> len[i] > 0)
    }

    ghost predicate Valid()
      reads this, rows, len, armed
    {
      TimersFit() && Ok(Value())
    }

    constructor (self: (Byte, Byte))
      ensures Valid() && Value() == EMPTY && this.self == self
      ensures fresh(rows) && fresh(len) && fresh(armed)
    {
      this.self := self;
      rows := new Row[WINDOW](i => ZERO_ROW);
      len := new Len[WINDOW](i => 0);
      armed := new bool[WINDOW](i => false);
      count := 0;
      new;
      assert Value() == EMPTY;
      forall a, b ensures Unshadowed(EMPTY, a, b) {
      }
    }

    method RemoveElement(index: Slot)
      requires Valid()
      modifies this`count, len, armed
      ensures Valid() && Value() == Removed(old(Value()), index)
    {
      RemovedKeepsOk(Value(), index);
      len[index] := 0;
      armed[index] := false;
      if index < count {
        count := index;
      }
      assert Value() == Removed(old(Value()), index);
    }

    /** sld_rcv_flow_req, sld_rcv_addr_req, sld_purge and sld_rcv_ack; true is SDN_SUCCESS. */
    method RemoveFirstMatch(q: Probe) returns (found: bool)
      requires Valid()
      modifies this`count, len, armed
      ensures Valid() && Value() == RemoveFirst(old(Value()), q)
      ensures found <==> First(old(Value()), q, 0) < WINDOW
    {
      var i := 0;
      while i < WINDOW
        invariant 0 <= i <= WINDOW
        invariant First(Value(), q, 0) == First(Value(), q, i)
      {
        if Hits(q, rows[i]) {
          RemoveElement(i);
          return true;
        }
        i := i + 1;
      }
      return false;
    }

    /** has_*_flow_request_retransmission. */
    method HasRetransmission(k: Key) returns (ret: bool)
      requires Valid()
      ensures ret <==> Held(Value(), k).Some?
    {
      ret := false;
      var i := 0;
      while i < WINDOW
        invariant 0 <= i <= WINDOW
        invariant ret ==> LiveFrom(Value(), k, 0) < i
        invariant !ret ==> LiveFrom(Value(), k, 0) == LiveFrom(Value(), k, i)
      {
        if KeyOf(rows[i]) == k && len[i] > 0 {
          ret := true;
        }
        i := i + 1;
      }
    }

    /** The loop of sld_await_ack over the neighbour reports in use. */
    method ReplaceReports(p: Packet) returns (redundant: bool)
      requires TimersFit()
      modifies rows, len
      ensures TimersFit() && Value() == ReplacedFrom(old(Value()), p, 0)
      ensures redundant <==> LiveFrom(old(Value()), Report, 0) < WINDOW
      ensures !redundant ==> Value() == old(Value())
    {
      ghost var w := Value();
      redundant := false;
      var i := 0;
      while i < WINDOW
        invariant 0 <= i <= WINDOW && TimersFit()
        invariant ReplacedFrom(Value(), p, i) == ReplacedFrom(w, p, 0)
        invariant redundant ==> LiveFrom(w, Report, 0) < WINDOW
        invariant !redundant ==> Value() == w && LiveFrom(w, Report, 0) == LiveFrom(w, Report, i)
      {
        var hit := ReplaceOne(p, i);
        redundant := redundant || hit;
        i := i + 1;
      }
    }

    method ReplaceOne(p: Packet, i: Slot) returns (hit: bool)
      requires TimersFit()
      modifies rows, len
      ensures TimersFit() && Value() == ReplacedAt(old(Value()), p, i)
      ensures hit <==> Live(old(Value()), Report, i)
    {
      hit := rows[i][0] == NEIGHBOR_REPORT && len[i] > 0;
      if hit {
        rows[i] := p + rows[i][|p|..];
        len[i] := |p|;
      }
    }

    /** sld_await_ack; false is SDN_ERROR. */
    method AwaitAck(p: Packet) returns (kept: bool)
      requires Valid()
      modifies this`count, rows, len, armed
      ensures Valid() && (Value(), kept) == Await(old(Value()), self, p)
    {
      hide Stored;
      hide ReplacedFrom;
      hide KeyOf;
      hide Free;
      hide LiveFrom;
      ghost var w := Value();
      AwaitIsExact(w, self, p, Report);
      assert Ok(Await(w, self, p).0);
      if !Reliable(p[0]) || (p[4], p[5]) != self {
        return true;
      }
      var redundant;
      if p[0] == NEIGHBOR_REPORT {
        redundant := ReplaceReports(p);
      } else {
        redundant := HasRetransmission(Request(p[0], p[8], p[9]));
      }
      if redundant {
        return true;
      }
      FindFree();
      if count == WINDOW {
        return false;
      }
      StoredIgnoresHint(w, p, count, count);
      Store(p);
      kept := true;
    }

    /** Moves the hint up to the first buffer not in use. */
    method FindFree()
      requires Valid()
      modifies this`count
      ensures TimersFit()
      ensures Value() == old(Value()).(hint := count) && count == Free(old(Value()), old(count))
    {
      ghost var w := Value();
      while count != WINDOW && len[count] != 0
        invariant w.hint <= count <= WINDOW && Value() == w.(hint := count)
        invariant Free(w, w.hint) == Free(w, count)
      {
        count := count + 1;
      }
    }

    /** Copies the packet into the buffer at the hint and starts its timer. */
    method Store(p: Packet)
      requires TimersFit() && count < WINDOW
      modifies this`count, rows, len, armed
      ensures TimersFit() && Value() == Stored(old(Value()), p, old(count))
    {
      rows[count] := p + rows[count][|p|..];
      len[count] := |p|;
      armed[count] := true;
      count := count + 1;
    }

    /** sld_f: the timer of a buffer; `queued` says whether a packet buffer could be had. */
    method TimerExpired(i: Slot, queued: bool, seqNo: Byte)
      requires Valid() && armed[i]
      modifies this`count, rows, len, armed
      ensures Valid() && Value() == Fire(old(Value()), self, i, queued, seqNo)
    {
      FireKeepsOk(Value(), self, i, queued, seqNo);
      if queued {
        ghost var w := Value();
        if (rows[i][4], rows[i][5]) == self {
          rows[i] := rows[i][3 := seqNo];
        }
        len[i] := 0;
        armed[i] := false;
        if i < count {
          count := i;
        }
        assert Value() == Fire(w, self, i, queued, seqNo);
      } else {
        armed[i] := true;
      }
    }
  }
}
