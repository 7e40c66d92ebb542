/**
  The framed serial link between the controller node and the controller PC: one encoder, written twice, and
  two byte-at-a-time decoders (contiki-sdn/sdn-serial.c, controller-server/controller-pc/serializer.cpp),
  with the octet stuffing of section 4.2 of RFC 1662.
 */
module SerialFraming {
  import opened Options

  type Octet = bv8

  const FLAG: Octet := 0x7E
  const ESCAPE: Octet := 0x7D
  const INVERT: Octet := 0x20

  /** sizeof(sdn_serial_packet_header_t). */
  const HEADER := 6

  // ---------------------------------------------------------------- the encoder

  function Stuff(p: seq<Octet>): (r: seq<Octet>)
    ensures FLAG !in r
  {
    if p == [] then []
    else if p[0] == ESCAPE || p[0] == FLAG then [ESCAPE, p[0] ^ INVERT] + Stuff(p[1..])
    else [p[0]] + Stuff(p[1..])
  }

  function Encode(p: seq<Octet>): seq<Octet> {
    [FLAG] + Stuff(p) + [FLAG]
  }

  function EncodeAll(ps: seq<seq<Octet>>): seq<Octet> {
    if ps == [] then [] else Encode(ps[0]) + EncodeAll(ps[1..])
  }

  lemma {:induction false} StuffConcat(p: seq<Octet>, q: seq<Octet>)
    ensures Stuff(p + q) == Stuff(p) + Stuff(q)
  {
    if p == [] {
      assert p + q == q;
    } else {
      assert (p + q)[1..] == p[1..] + q;
      StuffConcat(p[1..], q);
    }
  }

  lemma StuffNothing()
    ensures Stuff([]) == []
  {
  }

  lemma StuffSnoc(p: seq<Octet>, b: Octet)
    ensures Stuff(p + [b]) == Stuff(p) + (if b == ESCAPE || b == FLAG then [ESCAPE] + [b ^ INVERT] else [b])
  {
    StuffConcat(p, [b]);
    assert [b][1..] == [];
  }

  /** What section 4.2 of RFC 1662 prescribes, octet by octet. */
  lemma FrameInOctets(p: seq<Octet>, b: Octet)
    ensures Encode(p) == [0x7E] + Stuff(p) + [0x7E] && 0x7E !in Stuff(p)
    ensures Stuff(p + [b]) ==
            Stuff(p) + if b == 0x7E then [0x7D, 0x5E] else if b == 0x7D then [0x7D, 0x5D] else [b]
  {
    StuffSnoc(p, b);
    assert [ESCAPE] + [b ^ INVERT] == [ESCAPE, b ^ INVERT];
    assert FLAG ^ INVERT == 0x5E && ESCAPE ^ INVERT == 0x5D;
  }

  /** frameDecode, the encoder despite its name; the length parameter is one byte wide. */
  method FrameEncode(packet: seq<Octet>) returns (out: seq<Octet>)
    requires |packet| < 256
    ensures out == Encode(packet)
  {
    hide Stuff;
    out := [FLAG];
    StuffNothing();
    var i := 0;
    while i < |packet|
      invariant 0 <= i <= |packet|
      invariant out == [FLAG] + Stuff(packet[..i])
    {
      var data := packet[i];
      StuffSnoc(packet[..i], data);
      assert packet[..i] + [data] == packet[..i + 1];
      if data == ESCAPE || data == FLAG {
        out := out + [ESCAPE];
        data := data ^ INVERT;
      }
      out := out + [data];
      i := i + 1;
    }
    assert packet[..i] == packet;
    out := out + [FLAG];
  }

  // ---------------------------------------------------------------- the decoders

  /** The decoder on the node and the one on the controller PC. */
  datatype Side = Node | Pc

  /** `frame` is the part of the buffer filled so far. */
  datatype Decoder = Decoder(frame: seq<Octet>, escape: bool, overflow: bool)

  const CLEAN := Decoder([], false, false)

  /** The longest packet of each side: header and payload buffer. */
  function MaxPacket(side: Side): nat {
    if side == Node then HEADER + 116 else HEADER + 115
  }

  /** Octets accepted into the buffer: the node adds two. */
  function Capacity(side: Side): nat {
    if side == Node then MaxPacket(Node) + 2 else MaxPacket(Pc)
  }

  /** The end of the byte handler: store the octet or note that there is no room. */
  function Store(side: Side, d: Decoder, data: Octet): Decoder {
    match side
    case Node => if |d.frame| < Capacity(Node) then d.(frame := d.frame + [data]) else d.(overflow := true)
    case Pc => if |d.frame| < Capacity(Pc) && !d.overflow then d.(frame := d.frame + [data]) else d
  }

  /** A flag octet; on the PC the first two branches go on to store it. */
  function TakeFlag(side: Side, d: Decoder): (Decoder, Option<seq<Octet>>) {
    if d.escape then
      var e := d.(escape := false);
      (if side == Node then e else Store(Pc, e, FLAG), None)
    else if d.overflow then
      (if side == Node then CLEAN else Store(Pc, CLEAN, FLAG), None)
    else if |d.frame| >= HEADER then (CLEAN, Some(d.frame))
    else (CLEAN, None)
  }

  /** byteReceived and processByte. */
  function Take(side: Side, d: Decoder, data: Octet): (Decoder, Option<seq<Octet>>) {
    if data == FLAG then TakeFlag(side, d)
    else if d.escape then (Store(side, d.(escape := false), data ^ INVERT), None)
    else if data == ESCAPE then (d.(escape := true), None)
    else (Store(side, d, data), None)
  }

  function Listed(o: Option<seq<Octet>>): seq<seq<Octet>> {
    if o.Some? then [o.value] else []
  }

  /** A stream of bytes: the last state and the frames delivered. */
  function Feed(side: Side, d: Decoder, bytes: seq<Octet>): (Decoder, seq<seq<Octet>>)
    decreases |bytes|
  {
    if bytes == [] then (d, [])
    else
      var (e, o) := Take(side, d, bytes[0]);
      var (f, frames) := Feed(side, e, bytes[1..]);
      (f, Listed(o) + frames)
  }

  lemma FeedOne(side: Side, d: Decoder, b: Octet)
    ensures Feed(side, d, [b]) == (Take(side, d, b).0, Listed(Take(side, d, b).1))
  {
    var o := Take(side, d, b).1;
    assert [b][1..] == [] && Listed(o) + [] == Listed(o);
  }

  lemma {:induction false} FeedConcat(side: Side, d: Decoder, a: seq<Octet>, b: seq<Octet>)
    ensures var (e, x) := Feed(side, d, a);
            var (f, y) := Feed(side, e, b);
            Feed(side, d, a + b) == (f, x + y)
    decreases |a|
  {
    if a == [] {
      assert a + b == b;
      assert [] + Feed(side, d, b).1 == Feed(side, d, b).1;
    } else {
      var (e, o) := Take(side, d, a[0]);
      var (f, x) := Feed(side, e, a[1..]);
      var (g, y) := Feed(side, f, b);
      assert (a + b)[1..] == a[1..] + b;
      FeedConcat(side, e, a[1..], b);
      assert Listed(o) + (x + y) == (Listed(o) + x) + y;
    }
  }

  // ---------------------------------------------------------------- the decoders in place

  /**
    The node's decoder.  Its two packet structures hold the longest packet; the decoder accepts two octets
    more, which it writes into whatever lies behind the current structure, here `beyond`.
   */
  class NodeDecoder {
    const p1: array<Octet>
    const p2: array<Octet>
    const beyond: array<Octet>
    var second: bool
    var frameLength: nat
    var escape: bool
    var overflow: bool

    /** currentSerialPacket. */
    function Current(): array<Octet>
      reads this
    {
      if second then p2 else p1
    }

    function Other(): array<Octet>
      reads this
    {
      if second then p1 else p2
    }

    ghost predicate Valid()
      reads this
    {
      && p1 != p2 && p1 != beyond && p2 != beyond && p1.Length == p2.Length == MaxPacket(Node)
      && beyond.Length == Capacity(Node) - MaxPacket(Node) && frameLength <= Capacity(Node)
    }

    ghost function Value(): Decoder
      requires Valid()
      reads this, p1, p2, beyond
    {
      Decoder((Current()[..] + beyond[..])[..frameLength], escape, overflow)
    }

    constructor ()
      ensures Valid() && Value() == CLEAN && fresh(p1) && fresh(p2) && fresh(beyond)
    {
      p1, p2 := new Octet[MaxPacket(Node)], new Octet[MaxPacket(Node)];
      beyond := new Octet[Capacity(Node) - MaxPacket(Node)];
      second, frameLength, escape, overflow := false, 0, false, false;
    }

    /** currentSerialPacket[frame_length] = data, in the current structure or behind it. */
    method StoreOctet(octet: Octet)
      requires Valid() && frameLength < Capacity(Node)
      modifies this`frameLength, Current(), beyond
      ensures Valid() && frameLength == old(frameLength) + 1
      ensures Value() == old(Value()).(frame := old(Value()).frame + [octet])
    {
      ghost var before := Current()[..] + beyond[..];
      var n := frameLength;
      if n < MaxPacket(Node) {
        var buffer := Current();
        buffer[n] := octet;
      } else {
        beyond[n - MaxPacket(Node)] := octet;
      }
      frameLength := n + 1;
      assert Current()[..] + beyond[..] == before[n := octet];
      assert before[n := octet][..n + 1] == before[..n] + [octet];
    }

    /**
      One byte.  The structure handed on begins with the frame, which it holds completely unless the frame is
      longer than a packet.  As long as the current frame fits its structure the other one, delivered last,
      is not touched.
     */
    method ByteReceived(data: Octet) returns (posted: Option<array<Octet>>)
      requires Valid()
      modifies this, p1, p2, beyond
      ensures Valid()
      ensures Value() == Take(Node, old(Value()), data).0
      ensures posted.Some? <==> Take(Node, old(Value()), data).1.Some?
      ensures posted.Some? ==> posted.value == old(Current()) && Current() != old(Current())
      ensures posted.Some? ==> posted.value[..] == old(Current()[..])
      ensures posted.Some? && old(frameLength) <= MaxPacket(Node) ==>
                Some(posted.value[..old(frameLength)]) == Take(Node, old(Value()), data).1
      ensures posted.None? ==> Current() == old(Current())
      ensures old(frameLength) < MaxPacket(Node) ==> old(Other())[..] == old(Other()[..])
    {
      posted := None;
      if data == FLAG {
        if escape {
          escape := false;
        } else if overflow {
          overflow := false;
          frameLength := 0;
        } else if frameLength >= HEADER {
          ghost var n := frameLength;
          assert n <= MaxPacket(Node) ==> Current()[..n] == (Current()[..] + beyond[..])[..n];
          frameLength := 0;
          posted := Some(Current());
          second := !second;
        } else {
          frameLength := 0;
        }
        return;
      }
      var octet := data;
      if escape {
        escape := false;
        octet := data ^ INVERT;
      } else if data == ESCAPE {
        escape := true;
        return;
      }
      if frameLength < Capacity(Node) {
        StoreOctet(octet);
      } else {
        overflow := true;
      }
    }
  }

  /** The decoder of the controller PC; it hands on its whole buffer, which the frame just received begins. */
  class Serializer {
    const packetData: array<Octet>
    var frameLength: nat
    var escape: bool
    var overflow: bool

    ghost predicate Valid()
      reads this
    {
      packetData.Length == Capacity(Pc) && frameLength <= Capacity(Pc)
    }

    ghost function Value(): Decoder
      requires Valid()
      reads this, packetData
    {
      Decoder(packetData[..frameLength], escape, overflow)
    }

    constructor ()
      ensures Valid() && Value() == CLEAN && fresh(packetData)
    {
      packetData := new Octet[Capacity(Pc)];
      frameLength, escape, overflow := 0, false, false;
    }

    method ProcessByte(data: Octet) returns (emitted: Option<seq<Octet>>)
      requires Valid()
      modifies this, packetData
      ensures Valid()
      ensures Value() == Take(Pc, old(Value()), data).0
      ensures emitted.Some? <==> Take(Pc, old(Value()), data).1.Some?
      ensures emitted.Some? ==> |emitted.value| == Capacity(Pc) && Take(Pc, old(Value()), data).1.value <= emitted.value
    {
      emitted := None;
      if data == FLAG {
        if escape {
          escape := false;
        } else if overflow {
          overflow := false;
          frameLength := 0;
        } else if frameLength >= HEADER {
          emitted := Some(packetData[..]);
          frameLength := 0;
          return;
        } else {
          frameLength := 0;
          return;
        }
      }
      var octet := data;
      if escape {
        escape := false;
        octet := data ^ INVERT;
      } else if data == ESCAPE {
        escape := true;
        return;
      }
      if frameLength < Capacity(Pc) && !overflow {
        ghost var before := packetData[..frameLength];
        packetData[frameLength] := octet;
        frameLength := frameLength + 1;
        assert packetData[..frameLength] == before + [octet];
      }
    }

    /** processBytes: every frame is handed on at the head of a full buffer. */
    method ProcessBytes(bytes: seq<Octet>) returns (emitted: seq<seq<Octet>>)
      requires Valid()
      modifies this, packetData
      ensures Valid()
      ensures Value() == Feed(Pc, old(Value()), bytes).0
      ensures Begins(Feed(Pc, old(Value()), bytes).1, emitted)
    {
      ghost var d := Value();
      emitted := [];
      var i := 0;
      while i < |bytes|
        invariant 0 <= i <= |bytes| && Valid()
        invariant Value() == Feed(Pc, d, bytes[..i]).0
        invariant Begins(Feed(Pc, d, bytes[..i]).1, emitted)
      {
        FeedConcat(Pc, d, bytes[..i], [bytes[i]]);
        FeedOne(Pc, Value(), bytes[i]);
        assert bytes[..i] + [bytes[i]] == bytes[..i + 1];
        var o := ProcessByte(bytes[i]);
        if o.Some? {
          emitted := emitted + [o.value];
        }
        i := i + 1;
      }
      assert bytes[..i] == bytes;
    }
  }

  /** Each frame is the beginning of the buffer delivered for it. */
  ghost predicate Begins(frames: seq<seq<Octet>>, emitted: seq<seq<Octet>>) {
    |frames| == |emitted| && forall i :: 0 <= i < |frames| ==> frames[i] <= emitted[i]
  }
}
