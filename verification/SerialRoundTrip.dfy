/**
  What the decoders of the serial link make of encoded packets, and how they find back after noise.
 */
module SerialRoundTrip {
  import opened SerialFraming

  /** What a decoder holds after the stuffed octets of `p`. */
  function Filled(side: Side, p: seq<Octet>): Decoder {
    if |p| <= Capacity(side) then Decoder(p, false, false)
    else Decoder(p[..Capacity(side)], false, side == Node)
  }

  lemma StoreFills(side: Side, p: seq<Octet>, c: Octet)
    ensures Store(side, Filled(side, p), c) == Filled(side, p + [c])
  {
    if |p| >= Capacity(side) {
      assert (p + [c])[..Capacity(side)] == p[..Capacity(side)];
    }
  }

  /** One octet of a packet, escaped or not, arrives as itself. */
  lemma OctetPasses(side: Side, p: seq<Octet>, c: Octet)
    ensures Feed(side, Filled(side, p), Stuff([c])) == (Filled(side, p + [c]), [])
  {
    var d := Filled(side, p);
    StoreFills(side, p, c);
    assert (c ^ INVERT) ^ INVERT == c;
    assert [c][1..] == [];
    if c == ESCAPE || c == FLAG {
      assert Stuff([c]) == [ESCAPE] + [c ^ INVERT];
      FeedOne(side, d, ESCAPE);
      FeedOne(side, d.(escape := true), c ^ INVERT);
      FeedConcat(side, d, [ESCAPE], [c ^ INVERT]);
    } else {
      assert Stuff([c]) == [c];
      FeedOne(side, d, c);
    }
  }

  lemma {:induction false} FeedStuffed(side: Side, p: seq<Octet>, q: seq<Octet>)
    ensures Feed(side, Filled(side, p), Stuff(q)) == (Filled(side, p + q), [])
    decreases |q|
  {
    if q == [] {
      assert p + q == p;
    } else {
      var c, rest := q[0], q[1..];
      assert q == [c] + rest && p + [c] + rest == p + q;
      StuffConcat([c], rest);
      OctetPasses(side, p, c);
      FeedConcat(side, Filled(side, p), Stuff([c]), Stuff(rest));
      FeedStuffed(side, p + [c], rest);
    }
  }

  /** What arrives of one packet: too short ones vanish, too long ones vanish at the node and are cut at the PC. */
  function Received(side: Side, p: seq<Octet>): seq<seq<Octet>> {
    if |p| < HEADER then []
    else if |p| <= Capacity(side) then [p]
    else if side == Node then []
    else [p[..Capacity(Pc)]]
  }

  lemma FrameRoundTrip(side: Side, p: seq<Octet>)
    ensures Feed(side, CLEAN, Encode(p)) == (CLEAN, Received(side, p))
  {
    FeedOne(side, CLEAN, FLAG);
    FeedOne(side, Filled(side, p), FLAG);
    assert Filled(side, []) == CLEAN && [] + p == p;
    FeedStuffed(side, [], p);
    FeedConcat(side, CLEAN, [FLAG], Stuff(p));
    assert Feed(side, CLEAN, [FLAG] + Stuff(p)) == (Filled(side, p), []);
    FeedConcat(side, CLEAN, [FLAG] + Stuff(p), [FLAG]);
    assert [] + Received(side, p) == Received(side, p);
    assert Take(side, Filled(side, p), FLAG) == TakeFlag(side, Filled(side, p));
  }

  function ReceivedAll(side: Side, ps: seq<seq<Octet>>): seq<seq<Octet>> {
    if ps == [] then [] else Received(side, ps[0]) + ReceivedAll(side, ps[1..])
  }

  /** From a clean decoder any sequence of encoded packets, of any lengths, arrives packet by packet. */
  lemma {:induction false} StreamRoundTrip(side: Side, ps: seq<seq<Octet>>)
    ensures Feed(side, CLEAN, EncodeAll(ps)) == (CLEAN, ReceivedAll(side, ps))
  {
    if ps != [] {
      FrameRoundTrip(side, ps[0]);
      StreamRoundTrip(side, ps[1..]);
      FeedConcat(side, CLEAN, Encode(ps[0]), EncodeAll(ps[1..]));
    }
  }

  ghost predicate Legal(side: Side, p: seq<Octet>) {
    HEADER <= |p| <= MaxPacket(side)
  }

  lemma {:induction false} LegalArriveAsSent(side: Side, ps: seq<seq<Octet>>)
    requires forall p :: p in ps ==> Legal(side, p)
    ensures ReceivedAll(side, ps) == ps
  {
    if ps != [] {
      assert Legal(side, ps[0]);
      LegalArriveAsSent(side, ps[1..]);
      assert [ps[0]] + ps[1..] == ps;
    }
  }

  /** Packets between header size and maximum size are decoded to exactly the sequence that was encoded. */
  lemma LegalStreamRoundTrip(side: Side, ps: seq<seq<Octet>>)
    requires forall p :: p in ps ==> Legal(side, p)
    ensures Feed(side, CLEAN, EncodeAll(ps)) == (CLEAN, ps)
  {
    StreamRoundTrip(side, ps);
    LegalArriveAsSent(side, ps);
  }

  // ---------------------------------------------------------------- synchronisation

  /**
    Two flags in a row bring the node's decoder to the clean state from any state whatever, and the PC's from
    any state but one that both escapes and overflows.
   */
  lemma TwoFlagsClean(side: Side, d: Decoder)
    ensures Feed(side, d, [FLAG, FLAG]).0 == CLEAN <==> side == Node || !(d.escape && d.overflow)
  {
    FeedOne(side, d, FLAG);
    FeedOne(side, Take(side, d, FLAG).0, FLAG);
    FeedConcat(side, d, [FLAG], [FLAG]);
    assert [FLAG] + [FLAG] == [FLAG, FLAG];
  }

  /** The PC's decoder never notes an overflow, so the exception is never reached. */
  lemma {:induction false} PcNeverOverflows(d: Decoder, bytes: seq<Octet>)
    requires !d.overflow
    ensures !Feed(Pc, d, bytes).0.overflow
    decreases |bytes|
  {
    if bytes != [] {
      PcNeverOverflows(Take(Pc, d, bytes[0]).0, bytes[1..]);
    }
  }

  /** After a frame, whatever came before it, the flag that opens the next frame leaves a clean decoder. */
  lemma CleanAfterFrame(side: Side, noise: seq<Octet>, q: seq<Octet>)
    ensures Feed(side, CLEAN, noise + Encode(q) + [FLAG]).0 == CLEAN
  {
    var head := noise + ([FLAG] + Stuff(q));
    TwoFlagsClean(side, Feed(side, CLEAN, head).0);
    if side == Pc {
      PcNeverOverflows(CLEAN, head);
    }
    FeedConcat(side, CLEAN, head, [FLAG, FLAG]);
    assert head + [FLAG, FLAG] == noise + Encode(q) + [FLAG];
  }

  /** A clean decoder ignores a flag, so a frame may start with or without it. */
  lemma FirstFlagIsIgnored(side: Side, tail: seq<Octet>)
    ensures Feed(side, CLEAN, [FLAG] + tail) == Feed(side, CLEAN, tail)
  {
    FeedOne(side, CLEAN, FLAG);
    FeedConcat(side, CLEAN, [FLAG], tail);
    assert [] + Feed(side, CLEAN, tail).1 == Feed(side, CLEAN, tail).1;
  }

  /**
    After any bytes whatever and one sacrificed frame every later frame arrives as from a clean decoder; what
    the noise and the sacrificed frame deliver does not depend on the later frames.
   */
  lemma ResynchronisesAfterNoise(side: Side, noise: seq<Octet>, q: seq<Octet>, ps: seq<seq<Octet>>)
    requires ps != []
    ensures var junk := Feed(side, CLEAN, noise + Encode(q) + [FLAG]).1;
            Feed(side, CLEAN, noise + Encode(q) + EncodeAll(ps)) == (CLEAN, junk + ReceivedAll(side, ps))
  {
    var tail := Stuff(ps[0]) + [FLAG] + EncodeAll(ps[1..]);
    assert [FLAG] + tail == EncodeAll(ps);
    CleanAfterFrame(side, noise, q);
    FeedConcat(side, CLEAN, noise + Encode(q) + [FLAG], tail);
    assert noise + Encode(q) + [FLAG] + tail == noise + Encode(q) + EncodeAll(ps);
    FirstFlagIsIgnored(side, tail);
    StreamRoundTrip(side, ps);
  }
}
