/**
  The retransmission window told by the bytes of the packets: which packets are kept, replaced, released and
  sent again.
 */
module WindowContents {
  import opened Bytes
  import opened Options
  import opened RetransmissionWindow

  /** What buffer `i` keeps; nothing when it is not in use. */
  ghost function KeptIn(w: Window, i: Slot): seq<Byte> {
    w.rows[i][..w.len[i]]
  }

  /** One of the four kinds that are sent reliably, from this node. */
  ghost predicate Own(self: (Byte, Byte), p: Packet) {
    p[0] in {2, 3, 4, 14} && p[4] == self.0 && p[5] == self.1
  }

  /** Buffer `i` is in use for the same purpose: a neighbour report, or a request with the same bytes 8 and 9. */
  ghost predicate SamePurpose(w: Window, p: Packet, i: Slot) {
    w.len[i] > 0 && w.rows[i][0] == p[0]
    && (p[0] == 4 || (|p| >= 10 && w.rows[i][8] == p[8] && w.rows[i][9] == p[9]))
  }

  /** Buffer `i` keeps the packet, all others what they kept. */
  ghost predicate KeepsAt(w: Window, u: Window, p: Packet, i: Slot) {
    KeptIn(u, i) == p && forall j: Slot {:trigger KeptIn(w, j)} :: j != i ==> KeptIn(u, j) == KeptIn(w, j)
  }

  lemma SamePurposeIsLive(w: Window, self: (Byte, Byte), p: Packet, i: Slot)
    requires Own(self, p)
    ensures Eligible(self, p) && (SamePurpose(w, p, i) <==> Live(w, PacketKey(p), i))
  {
  }

  lemma ReplacedKeeps(w: Window, p: Packet, i: Slot)
    requires Ok(w) && p[0] == NEIGHBOR_REPORT && Live(w, Report, i)
    ensures KeepsAt(w, ReplacedFrom(w, p, 0), p, i)
  {
    ReplacedIs(w, p, i);
  }

  lemma StoredKeeps(w: Window, p: Packet, i: Slot)
    ensures KeepsAt(w, Stored(w, p, i), p, i)
  {
  }

  /**
    What sending a packet does to the window.  Only own packets of four kinds count.  One with the same purpose as
    a kept one is not kept beside it: a newer neighbour report takes its place, a repeated request changes
    nothing.  Any other is kept in a buffer that was not in use, or refused when there is none.
   */
  lemma AwaitInBytes(w: Window, self: (Byte, Byte), p: Packet)
    requires Ok(w)
    ensures var (u, kept) := Await(w, self, p);
            && (!Own(self, p) ==> kept && u == w)
            && (forall i: Slot :: Own(self, p) && SamePurpose(w, p, i) ==>
                  kept && if p[0] == 4 then KeepsAt(w, u, p, i) else u == w)
            && (Own(self, p) && (forall i: Slot :: !SamePurpose(w, p, i)) ==>
                  && (kept <==> exists i: Slot :: w.len[i] == 0)
                  && (kept ==> exists i: Slot :: w.len[i] == 0 && KeepsAt(w, u, p, i))
                  && (!kept ==> u.rows == w.rows && u.len == w.len))
  {
    hide ReplacedFrom;
    hide Stored;
    hide KeyOf;
    hide SamePurpose;
    var (u, kept) := Await(w, self, p);
    if Own(self, p) {
      var k := PacketKey(p);
      forall i: Slot ensures Eligible(self, p) && (SamePurpose(w, p, i) <==> Live(w, k, i)) {
        SamePurposeIsLive(w, self, p, i);
      }
      var l := LiveFrom(w, k, 0);
      if l < WINDOW {
        forall i: Slot | Live(w, k, i) ensures i == l {
          LiveIsFirst(w, k, i);
        }
        if p[0] == 4 {
          ReplacedKeeps(w, p, l);
        } else {
          assert k != Report;
        }
      } else {
        var i := Free(w, w.hint);
        if i < WINDOW {
          StoredKeeps(w, p, i);
          assert w.len[i] == 0 && KeepsAt(w, u, p, i);
        }
      }
    }
  }

  /** A removal frees the first buffer whose bytes match, in use or not, and nothing else changes. */
  lemma RemovalInBytes(w: Window, kind: Byte, seqNo: Byte, hi: Byte, lo: Byte, i: Slot)
    ensures (forall j: Slot :: j < i ==> w.rows[j][0] != kind || w.rows[j][3] != seqNo) ==>
              var u := RemoveFirst(w, ForAck(kind, seqNo));
              w.rows[i][0] == kind && w.rows[i][3] == seqNo ==> u.rows == w.rows && u.len == w.len[i := 0]
    ensures (forall j: Slot :: j < i ==> w.rows[j][0] != kind) ==>
              var u := RemoveFirst(w, ForType(kind));
              w.rows[i][0] == kind ==> u.rows == w.rows && u.len == w.len[i := 0]
    ensures kind in {2, 3, 14} &&
            (forall j: Slot :: j < i ==> w.rows[j][0] != kind || w.rows[j][8] != hi || w.rows[j][9] != lo) ==>
              var u := RemoveFirst(w, ForKey(Request(kind, hi, lo)));
              w.rows[i][0] == kind && w.rows[i][8] == hi && w.rows[i][9] == lo ==>
                u.rows == w.rows && u.len == w.len[i := 0]
  {
    var a := First(w, ForAck(kind, seqNo), 0);
    assert a < WINDOW ==> Hits(ForAck(kind, seqNo), w.rows[a]);
  }

  /**
    When the timer of a kept packet goes off and a packet buffer is to be had, the packet leaves the window, an own
    one with a new sequence number in byte 3; otherwise nothing changes and it stays.
   */
  lemma FireReleases(w: Window, self: (Byte, Byte), i: Slot, queued: bool, seqNo: Byte, x: Key)
    requires Ok(w) && w.len[i] > 0
    ensures var u := Step(self, w, Timer(i, queued, seqNo));
            var own := w.rows[i][4] == self.0 && w.rows[i][5] == self.1;
            && (!queued ==> u == w)
            && (queued ==>
                  && u.len == w.len[i := 0]
                  && u.rows == w.rows[i := w.rows[i][3 := if own then seqNo else w.rows[i][3]]]
                  && Held(u, x) == (if x == KeyOf(w.rows[i]) then None else Held(w, x)))
  {
    var u := Step(self, w, Timer(i, queued, seqNo));
    if queued {
      FireKeepsOk(w, self, i, queued, seqNo);
      assert w.rows[i][3 := w.rows[i][3]] == w.rows[i];
      forall j: Slot ensures Live(u, x, j) <==> j != i && Live(w, x, j) {
      }
      var m := LiveFrom(w, x, 0);
      if m < WINDOW {
        LiveIsFirst(w, x, m);
        if m != i {
          HeldAt(u, x, m);
        }
      }
      if Live(w, KeyOf(w.rows[i]), i) {
        LiveIsFirst(w, KeyOf(w.rows[i]), i);
      }
    }
  }
}
