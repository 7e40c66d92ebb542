/**
  Duplicate detection on a node (contiki-sdn/sdn-receive.c): an array of senders with their latest sequence
  number, newest first, shifted in place.
 */
module DuplicateDetection {
  import opened Bytes
  import opened Graphs

  const MAX_SEQNOS := 16

  datatype Seen = Seen(sender: Id, seqNo: Byte)

  /** The null address fills unused places. */
  const NULL_SENDER: Id := 0
  const UNUSED := Seen(NULL_SENDER, 0)

  type Seqnos = t: seq<Seen> | |t| == MAX_SEQNOS witness seq(MAX_SEQNOS, i => UNUSED)

  function IndexOf(t: seq<Seen>, s: Id): (i: nat)
    ensures i <= |t| && (i < |t| ==> t[i].sender == s)
    ensures forall j :: 0 <= j < i ==> t[j].sender != s
  {
    if t == [] || t[0].sender == s then 0 else 1 + IndexOf(t[1..], s)
  }

  /** sdn_seqno_register: the place of the sender, or else the last one, gives way. */
  function Registered(t: Seqnos, x: Seen): Seqnos {
    var i := IndexOf(t, x.sender);
    var k := if i < MAX_SEQNOS then i else MAX_SEQNOS - 1;
    [x] + t[..k] + t[k + 1..]
  }

  predicate IsDuplicate(self: Id, t: seq<Seen>, x: Seen) {
    x.sender == self || var i := IndexOf(t, x.sender); i < |t| && t[i].seqNo == x.seqNo
  }

  // ---------------------------------------------------------------- the history

  /** The registrations in `h`, oldest first, leave this table. */
  function Table(h: seq<Seen>): Seqnos {
    if h == [] then seq(MAX_SEQNOS, i => UNUSED) else Registered(Table(h[..|h| - 1]), h[|h| - 1])
  }

  /** Reading a history backwards: the latest registration of every sender not in `past`, newest first. */
  function Latest(h: seq<Seen>, past: set<Id>): seq<Seen> {
    if h == [] then []
    else
      var x := h[|h| - 1];
      if x.sender in past then Latest(h[..|h| - 1], past)
      else [x] + Latest(h[..|h| - 1], past + {x.sender})
  }

  function Without(l: seq<Seen>, s: Id): seq<Seen> {
    if l == [] then []
    else if l[0].sender == s then Without(l[1..], s)
    else [l[0]] + Without(l[1..], s)
  }

  lemma {:induction false} LatestSkips(h: seq<Seen>, past: set<Id>, s: Id)
    ensures Latest(h, past + {s}) == Without(Latest(h, past), s)
  {
    if h != [] {
      var x, init := h[|h| - 1], h[..|h| - 1];
      LatestSkips(init, past, s);
      if x.sender !in past {
        LatestSkips(init, past + {x.sender}, s);
        assert past + {s} + {x.sender} == past + {x.sender} + {s};
        if x.sender == s {
          WithoutTwice(Latest(init, past), s);
          LatestSkips(init, past, s);
          assert past + {s} == past + {x.sender};
        }
      }
    }
  }

  lemma {:induction false} WithoutTwice(l: seq<Seen>, s: Id)
    ensures Without(Without(l, s), s) == Without(l, s)
  {
    if l != [] {
      WithoutTwice(l[1..], s);
      if l[0].sender != s {
        assert Without(l, s)[1..] == Without(l[1..], s);
      }
    }
  }

  /** Senders occur once. */
  ghost predicate DistinctSenders(l: seq<Seen>) {
    forall i, j {:trigger OtherSender(l, i, j)} :: OtherSender(l, i, j)
  }

  ghost predicate OtherSender(l: seq<Seen>, i: int, j: int) {
    0 <= i < j < |l| ==> l[i].sender != l[j].sender
  }

  lemma {:induction false} LatestIsDistinct(h: seq<Seen>, past: set<Id>)
    ensures var l := Latest(h, past);
            DistinctSenders(l) && forall x :: x in l ==> x in h && x.sender !in past
  {
    var l := Latest(h, past);
    if h != [] {
      var x, init := h[|h| - 1], h[..|h| - 1];
      if x.sender in past {
        LatestIsDistinct(init, past);
      } else {
        LatestIsDistinct(init, past + {x.sender});
        var rest := Latest(init, past + {x.sender});
        forall i, j ensures OtherSender(l, i, j) {
          assert OtherSender(rest, i - 1, j - 1);
          assert 0 <= i < j < |l| ==> l[j] in rest;
        }
      }
    }
  }

  lemma TailIsDistinct(l: seq<Seen>)
    requires DistinctSenders(l) && l != []
    ensures DistinctSenders(l[1..]) && forall j :: 0 <= j < |l| - 1 ==> l[1..][j].sender != l[0].sender
  {
    forall i, j ensures OtherSender(l[1..], i, j) {
      assert OtherSender(l, i + 1, j + 1);
    }
    forall j | 0 <= j < |l| - 1 ensures l[1..][j].sender != l[0].sender {
      assert OtherSender(l, 0, j + 1);
    }
  }

  /** Removing a sender from a list in which it occurs at most once. */
  lemma {:induction false} WithoutIs(l: seq<Seen>, s: Id)
    requires DistinctSenders(l)
    ensures var k := IndexOf(l, s);
            Without(l, s) == if k < |l| then l[..k] + l[k + 1..] else l
  {
    if l != [] {
      var rest, k := l[1..], IndexOf(l[1..], s);
      TailIsDistinct(l);
      hide DistinctSenders;
      WithoutIs(rest, s);
      if l[0].sender != s && k < |rest| {
        assert [l[0]] + (rest[..k] + rest[k + 1..]) == l[..k + 1] + l[k + 2..];
      }
    }
  }

  /** The first MAX_SEQNOS elements, filled up with unused places. */
  function Padded(l: seq<Seen>): Seqnos {
    seq(MAX_SEQNOS, i => if 0 <= i < |l| then l[i] else UNUSED)
  }

  /** The place that gives way is the one of the sender in the unbounded list, or the last. */
  lemma PaddedIndex(l: seq<Seen>, s: Id)
    requires s != NULL_SENDER
    ensures var k := IndexOf(l, s);
            IndexOf(Padded(l), s) == if k < |l| && k < MAX_SEQNOS then k else MAX_SEQNOS
  {
    var t, k := Padded(l), IndexOf(l, s);
    if k < |l| && k < MAX_SEQNOS {
      assert t[k].sender == s;
    }
  }

  /** Shifting the bounded array is moving to the front of the unbounded list. */
  lemma RegisterOnPadded(l: seq<Seen>, x: Seen)
    requires DistinctSenders(l) && x.sender != NULL_SENDER
    ensures Registered(Padded(l), x) == Padded([x] + Without(l, x.sender))
  {
    WithoutIs(l, x.sender);
    PaddedIndex(l, x.sender);
    hide DistinctSenders;
    hide IndexOf;
    hide Without;
    var t, k, rest := Padded(l), IndexOf(l, x.sender), Without(l, x.sender);
    var r := Registered(t, x);
    forall n | 0 <= n < MAX_SEQNOS ensures r[n] == Padded([x] + rest)[n] {
      if n > 0 {
        assert ([x] + rest)[1..] == rest;
        assert r[n] == if n <= k then t[n - 1] else t[n];
      }
    }
  }

  /**
    For any history of non-null senders the array is the list of the most recently registered distinct
    senders, newest first, each with its latest sequence number.
   */
  lemma {:induction false} TableIsLatest(h: seq<Seen>)
    requires forall x :: x in h ==> x.sender != NULL_SENDER
    ensures Table(h) == Padded(Latest(h, {}))
  {
    if h != [] {
      var x, init := h[|h| - 1], h[..|h| - 1];
      TableIsLatest(init);
      LatestSkips(init, {}, x.sender);
      LatestIsDistinct(init, {});
      RegisterOnPadded(Latest(init, {}), x);
    }
  }

  /**
    The duplicate test answers exactly from that list or from the node's own address; a packet without a
    source address and with number 0 is taken for a duplicate as long as a place is unused.
   */
  lemma DuplicateIsExact(self: Id, h: seq<Seen>, x: Seen)
    requires forall y :: y in h ==> y.sender != NULL_SENDER
    ensures var l := Latest(h, {});
            IsDuplicate(self, Table(h), x) <==>
              || x.sender == self
              || (exists i :: 0 <= i < |l| && i < MAX_SEQNOS && l[i] == x)
              || (x == UNUSED && |l| < MAX_SEQNOS)
  {
    var l, t := Latest(h, {}), Table(h);
    TableIsLatest(h);
    LatestIsDistinct(h, {});
    var i := IndexOf(t, x.sender);
    if j :| 0 <= j < |l| && j < MAX_SEQNOS && l[j] == x {
      assert t[j] == x && i <= j;
      assert i < j ==> OtherSender(l, i, j);
    }
    if x == UNUSED && |l| < MAX_SEQNOS {
      forall j | 0 <= j < |l| ensures t[j].sender != NULL_SENDER {
        assert l[j] in l;
      }
      assert t[|l|] == UNUSED && i == |l|;
    }
  }

  // ---------------------------------------------------------------- in place

  class SeqnoTable {
    const self: Id
    const received: array<Seen>

    constructor (self: Id)
      ensures received.Length == MAX_SEQNOS && received[..] == Table([]) && fresh(received) && this.self == self
    {
      this.self := self;
      received := new Seen[MAX_SEQNOS](i => UNUSED);
      new;
      assert received[..] == Table([]);
    }

    method CheckDuplicate(x: Seen) returns (duplicate: bool)
      requires received.Length == MAX_SEQNOS
      ensures duplicate <==> IsDuplicate(self, received[..], x)
    {
      if x.sender == self {
        return true;
      }
      var i := 0;
      while i < MAX_SEQNOS
        invariant 0 <= i <= MAX_SEQNOS
        invariant forall j :: 0 <= j < i ==> received[j].sender != x.sender
      {
        if x.sender == received[i].sender {
          assert IndexOf(received[..], x.sender) == i;
          if x.seqNo == received[i].seqNo {
            return true;
          }
          break;
        }
        i := i + 1;
      }
      return false;
    }

    method Register(x: Seen)
      requires received.Length == MAX_SEQNOS
      modifies received
      ensures received[..] == Registered(old(received[..]), x)
    {
      ghost var t := received[..];
      var i := 0;
      while i < MAX_SEQNOS && received[i].sender != x.sender
        invariant 0 <= i <= MAX_SEQNOS
        invariant forall j :: 0 <= j < i ==> received[j].sender != x.sender
      {
        i := i + 1;
      }
      assert IndexOf(t, x.sender) == i;
      if i < MAX_SEQNOS {
        i := i + 1;
      }
      var j := i - 1;
      while j > 0
        invariant 0 <= j <= i - 1 < MAX_SEQNOS
        invariant forall n :: 0 <= n <= j ==> received[n] == t[n]
        invariant forall n :: j < n < i ==> received[n] == t[n - 1]
        invariant forall n :: i <= n < MAX_SEQNOS ==> received[n] == t[n]
      {
        received[j] := received[j - 1];
        j := j - 1;
      }
      received[0] := x;
      assert received[..] == Registered(t, x);
    }
  }
}
