/**
  In what order the packets of a node leave its send queue, and that the sender never sleeps over one.
 */
module SendOrder {
  import opened Bytes
  import opened PacketBuffers
  import opened SendPath

  // ---------------------------------------------------------------- the order of leaving

  /** The packets are still there in their order, own reports perhaps renewed, and perhaps more behind them. */
  ghost predicate Continues(self: (Byte, Byte), a: seq<Packet>, b: seq<Packet>) {
    |a| <= |b| && forall i :: 0 <= i < |a| ==> b[i] == a[i] || Renews(self, a[i], b[i])
  }

  lemma ContinuesOn(self: (Byte, Byte), a: seq<Packet>, b: seq<Packet>, c: seq<Packet>)
    requires Continues(self, a, b) && Continues(self, b, c)
    ensures Continues(self, a, c)
  {
  }

  lemma PrefixContinues(self: (Byte, Byte), a: seq<Packet>, b: seq<Packet>)
    requires a <= b
    ensures Continues(self, a, b)
  {
  }

  lemma {:induction false} ActsKeepSelf(n: Node, acts: seq<Act>)
    ensures DidAll(n, acts).self == n.self
    decreases |acts|
  {
    if acts != [] {
      if acts[0].Learn? {
        SolvedKeepsSelf(n.(known := n.known + {acts[0].key}), acts[0].key, 0);
      }
      ActsKeepSelf(Did(n, acts[0]), acts[1..]);
    }
  }

  lemma {:induction false} SolvedKeepsSelf(n: Node, k: Key, i: PlaceOrEnd)
    ensures SolvedFrom(n, k, i).self == n.self
    decreases KEEP_MAX - i
  {
    if i < KEEP_MAX {
      SolvedKeepsSelf(SolvedAt(n, k, i), k, i + 1);
    }
  }

  lemma {:induction false} ActsAppend(n: Node, acts: seq<Act>, hand: multiset<Buf>)
    requires Ok(n, hand)
    ensures Continues(n.self, Queued(n), Queued(DidAll(n, acts)))
    decreases |acts|
  {
    hide Ok;
    hide Queued;
    hide Continues;
    PrefixContinues(n.self, Queued(n), Queued(n));
    if acts != [] {
      var a := Did(n, acts[0]);
      OneActAppends(n, acts[0], hand);
      DidKeepsOk(n, acts[0], hand);
      assert a.self == n.self by {
        ActsKeepSelf(n, acts[..1]);
        assert acts[..1][1..] == [];
      }
      ActsAppend(a, acts[1..], hand);
      ContinuesOn(n.self, Queued(n), Queued(a), Queued(DidAll(n, acts)));
    }
  }

  lemma OneActAppends(n: Node, a: Act, hand: multiset<Buf>)
    requires Ok(n, hand)
    ensures Continues(n.self, Queued(n), Queued(Did(n, a)))
  {
    match a
    case Emit(p) => EmitAppends(n, p, hand);
    case Report(p) => var j := ReportRenews(n, p, hand);
    case Learn(k) => LearnReleases(n, k);
    case Forget(_) => assert Queued(Did(n, a)) == Queued(n);
    case Unanswered => assert Queued(Did(n, a)) == Queued(n);
  }

  lemma {:induction false} StoredKeepsSelf(n: Node, p: Packet, i: PlaceOrEnd)
    ensures StoredFrom(n, p, i).self == n.self
    decreases KEEP_MAX - i
  {
    if i < KEEP_MAX && n.keep[i].Some? {
      StoredKeepsSelf(n, p, i + 1);
    }
  }

  lemma TreatmentAppends(n: Node, p: Packet, v: Verdict, acts: seq<Act>, hand: multiset<Buf>)
    requires Ok(n, hand)
    ensures Continues(n.self, Queued(n), Queued(Treated(n, p, v, acts)))
  {
    hide Ok;
    hide Queued;
    hide Continues;
    PrefixContinues(n.self, Queued(n), Queued(n));
    StoredKeepsSelf(n, p, 0);
    hide StoredFrom;
    hide DidAll;
    if KeyOf(p) != Neither && KeyOf(p) !in n.known {
      StoredStores(n, p, 0, hand);
      StoredKeepsOk(n, p, 0, hand);
      ActsAppend(StoredFrom(n, p, 0), acts, hand);
    } else {
      ActsAppend(n, acts, hand);
    }
  }

  /** The head of the send queue leaves: sent and done with, or not for sending at all. */
  predicate Leaves(n: Node, e: Event) {
    && n.send != []
    && match e
       case SendTurn(v, _) => n.status == Busy && !(v == Forward && Routable(n, n.content[n.send[0]]))
       case SendDone(finished) => n.status == AckWait && finished
       case _ => false
  }

  lemma DispatchAppends(n: Node, v: Verdict, acts: seq<Act>)
    requires Ok(n, multiset{}) && n.recv != []
    ensures Continues(n.self, Queued(n), Queued(Step(n, Dispatch(v, acts))))
  {
    hide Ok;
    hide Queued;
    hide Treated;
    hide Emitted;
    var b := n.recv[0];
    var p, a := n.content[b], n.(recv := n.recv[1..]);
    DequeuedIsOk(n);
    DequeuedPackets(n);
    EmitAppends(a, p, multiset{b});
    TreatmentAppends(a, p, v, acts, multiset{b});
    PutKeepsPackets(Did(a, Emit(p)), b);
    PutKeepsPackets(Treated(a, p, v, acts), b);
  }

  lemma RetiredPackets(n: Node)
    requires n.send != []
    ensures var m := Retired(n);
            && Queued(m) == Queued(n)[1..] && Incoming(m) == Incoming(n) && SameWaiting(n, m) && m.free[n.send[0]]
            && m.known == n.known && (m.send != [] <==> m.status == Busy) && (m.send == [] ==> m.status == Idle)
  {
    var m := Retired(n);
    assert m.send == n.send[1..] && m.content == n.content;
  }

  /**
    Packets leave the send queue one at a time and in the order in which they came, unchanged but for own reports
    that are renewed, and nothing else ever takes a packet out of it.
   */
  lemma StepIsFifo(n: Node, e: Event)
    requires Ok(n, multiset{})
    ensures Continues(n.self, if Leaves(n, e) then Queued(n)[1..] else Queued(n), Queued(Step(n, e)))
  {
    hide Queued;
    hide Treated;
    hide DidAll;
    hide Retired;
    hide Continues;
    PrefixContinues(n.self, Queued(n), Queued(n));
    match e
    case Radio(p) =>
      if |p| > 2 {
        RadioAppends(n, p);
      }
    case Dispatch(v, acts) =>
      if n.recv != [] {
        DispatchAppends(n, v, acts);
      }
    case SendTurn(v, acts) =>
      if n.status == Busy {
        var p := n.content[n.send[0]];
        var m := Treated(n, p, v, acts);
        TreatmentAppends(n, p, v, acts, multiset{});
        TreatedGrows(n, p, v, acts);
        RetiredPackets(m);
        TailContinues(n.self, Queued(n), Queued(m));
        SameSend(n, n.(status := AckWait));
      }
    case SendDone(finished) =>
      if n.status == AckWait {
        RetiredPackets(n);
        PrefixContinues(n.self, Queued(n)[1..], Queued(n)[1..]);
        SameSend(n, n.(status := TrickleTime));
      }
    case TrickleTimer =>
      SameSend(n, Step(n, e));
    case Local(acts) =>
      ActsAppend(n, acts, multiset{});
  }

  lemma TailContinues(self: (Byte, Byte), a: seq<Packet>, b: seq<Packet>)
    requires Continues(self, a, b) && a != []
    ensures Continues(self, a[1..], b[1..])
  {
  }

  lemma StepKeepsSelf(n: Node, e: Event)
    ensures Step(n, e).self == n.self
  {
    hide DidAll;
    hide StoredFrom;
    match e
    case Dispatch(v, acts) =>
      if n.recv != [] {
        TreatedKeepsSelf(n.(recv := n.recv[1..]), n.content[n.recv[0]], v, acts);
      }
    case SendTurn(v, acts) =>
      if n.send != [] {
        TreatedKeepsSelf(n, n.content[n.send[0]], v, acts);
      }
    case Local(acts) => ActsKeepSelf(n, acts);
    case _ =>
  }

  lemma TreatedKeepsSelf(n: Node, p: Packet, v: Verdict, acts: seq<Act>)
    ensures Treated(n, p, v, acts).self == n.self
  {
    hide DidAll;
    StoredKeepsSelf(n, p, 0);
    ActsKeepSelf(StoredFrom(n, p, 0), acts);
    ActsKeepSelf(n, acts);
  }

  /** The packets that have left the send queue before state `i`. */
  ghost function Left(run: seq<Node>, events: seq<Event>, i: nat): seq<Packet>
    requires |run| == |events| + 1 && i < |run|
  {
    if i == 0 then []
    else
      Left(run, events, i - 1)
      + if Leaves(run[i - 1], events[i - 1]) then [run[i - 1].content[run[i - 1].send[0]]] else []
  }

  /**
    Whatever has ever been in the send queue leaves it in the order in which it came in: the packets that have
    left, followed by those in the queue, only ever get more at the end, or a renewed report in the place of one.
   */
  lemma {:induction false} RunIsFifo(run: seq<Node>, events: seq<Event>, i: nat, j: nat)
    requires IsRun(run, events) && i <= j < |run|
    ensures run[j].self == run[i].self
    ensures Continues(run[i].self, Left(run, events, i) + Queued(run[i]), Left(run, events, j) + Queued(run[j]))
    decreases j
  {
    hide Step;
    hide Leaves;
    hide Continues;
    hide Left;
    hide Queued;
    var a, b := Left(run, events, i) + Queued(run[i]), Left(run, events, j) + Queued(run[j]);
    if i < j {
      var c := Left(run, events, j - 1) + Queued(run[j - 1]);
      RunIsFifo(run, events, i, j - 1);
      OneStepLater(run, events, j - 1);
      ContinuesOn(run[i].self, a, c, b);
    } else {
      PrefixContinues(run[i].self, a, a);
    }
  }

  lemma OneStepLater(run: seq<Node>, events: seq<Event>, j: nat)
    requires IsRun(run, events) && j < |events|
    ensures run[j + 1].self == run[j].self
    ensures Continues(run[j].self, Left(run, events, j) + Queued(run[j]),
                      Left(run, events, j + 1) + Queued(run[j + 1]))
  {
    hide Step;
    hide Continues;
    var n, e, m := run[j], events[j], run[j + 1];
    EveryStateIsOk(run, events, j);
    StepIsFifo(n, e);
    StepKeepsSelf(n, e);
    var l, q := Left(run, events, j), Queued(n);
    if Leaves(n, e) {
      assert l + q == l + [q[0]] + q[1..];
      JoinedContinues(n.self, l + [q[0]], q[1..], Queued(m));
    } else {
      assert Left(run, events, j + 1) == l;
      JoinedContinues(n.self, l, q, Queued(m));
    }
  }

  lemma JoinedContinues(self: (Byte, Byte), a: seq<Packet>, b: seq<Packet>, c: seq<Packet>)
    requires Continues(self, b, c)
    ensures Continues(self, a + b, a + c)
  {
    forall i | 0 <= i < |a + b| ensures (a + c)[i] == (a + b)[i] || Renews(self, (a + b)[i], (a + c)[i]) {
    }
  }

  // ---------------------------------------------------------------- the sender never sleeps

  ghost predicate Awake(n: Node) {
    n.send != [] <==> n.status != Idle
  }

  lemma {:induction false} SolvedAwake(n: Node, k: Key, i: PlaceOrEnd)
    requires Awake(n)
    ensures Awake(SolvedFrom(n, k, i))
    decreases KEEP_MAX - i
  {
    if i < KEEP_MAX {
      SolvedAwake(SolvedAt(n, k, i), k, i + 1);
    }
  }

  lemma {:induction false} ActsAwake(n: Node, acts: seq<Act>)
    requires Awake(n)
    ensures Awake(DidAll(n, acts))
    decreases |acts|
  {
    if acts != [] {
      if acts[0].Learn? {
        SolvedAwake(n.(known := n.known + {acts[0].key}), acts[0].key, 0);
      }
      ActsAwake(Did(n, acts[0]), acts[1..]);
    }
  }

  lemma {:induction false} StoredAwake(n: Node, p: Packet, i: PlaceOrEnd)
    requires Awake(n)
    ensures Awake(StoredFrom(n, p, i))
    decreases KEEP_MAX - i
  {
    if i < KEEP_MAX && n.keep[i].Some? {
      StoredAwake(n, p, i + 1);
    }
  }

  lemma TreatedAwake(n: Node, p: Packet, v: Verdict, acts: seq<Act>)
    requires Awake(n)
    ensures Awake(Treated(n, p, v, acts))
  {
    StoredAwake(n, p, 0);
    ActsAwake(StoredFrom(n, p, 0), acts);
    ActsAwake(n, acts);
  }

  lemma StepAwake(n: Node, e: Event)
    requires Awake(n)
    ensures Awake(Step(n, e))
  {
    hide Treated;
    hide DidAll;
    match e
    case Dispatch(v, acts) =>
      if n.recv != [] {
        TreatedAwake(n.(recv := n.recv[1..]), n.content[n.recv[0]], v, acts);
      }
    case SendTurn(v, acts) =>
      if n.send != [] {
        TreatedAwake(n, n.content[n.send[0]], v, acts);
      }
    case Local(acts) => ActsAwake(n, acts);
    case _ =>
  }

  /** In every state of every run the sender is idle exactly when there is nothing to send. */
  lemma {:induction false} SenderIsAwake(run: seq<Node>, events: seq<Event>, i: nat)
    requires IsRun(run, events) && i < |run|
    ensures run[i].send != [] <==> run[i].status != Idle
  {
    if i > 0 {
      SenderIsAwake(run, events, i - 1);
      StepAwake(run[i - 1], events[i - 1]);
    }
  }

  // ---------------------------------------------------------------- emptying the send queue

  /** The head is handed to the radio, and later reported as done. */
  ghost function HandedOut(n: Node): Node {
    Step(n, SendTurn(Forward, []))
  }

  ghost function OneSent(n: Node): Node {
    Step(HandedOut(n), SendDone(true))
  }

  lemma HeadIsSent(n: Node)
    requires n.send != [] && n.status == Busy && Routable(n, Queued(n)[0])
    ensures HandedOut(n).status == AckWait && Queued(HandedOut(n)) == Queued(n)
    ensures var m := OneSent(n);
            && Queued(m) == Queued(n)[1..] && m.free[n.send[0]] && m.known == n.known && SameWaiting(n, m)
            && m.status == if |n.send| > 1 then Busy else Idle
    ensures var again := Step(Step(HandedOut(n), SendDone(false)), TrickleTimer);
            again.status == Busy && Queued(again) == Queued(n)
  {
    var h := HandedOut(n);
    assert h == n.(status := AckWait);
    RetiredPackets(h);
    SameSend(n, h);
    SameSend(n, Step(Step(h, SendDone(false)), TrickleTimer));
  }

  ghost function Sent(n: Node, k: nat): Node {
    if k == 0 then n else OneSent(Sent(n, k - 1))
  }

  /** Turn by turn the radio gets exactly the queued packets in their order, and the sender ends idle. */
  lemma {:induction false} QueueDrains(n: Node, k: nat)
    requires Awake(n) && (n.send != [] ==> n.status == Busy) && k <= |n.send|
    requires forall i :: 0 <= i < |n.send| ==> Routable(n, Queued(n)[i])
    ensures var m := Sent(n, k);
            && Queued(m) == Queued(n)[k..] && m.known == n.known
            && (k < |n.send| ==>
                  m.status == Busy && HandedOut(m).status == AckWait && Queued(HandedOut(m))[0] == Queued(n)[k])
            && (k == |n.send| ==> m.status == Idle)
  {
    hide OneSent;
    hide HandedOut;
    hide KeyOf;
    hide Queued;
    if k > 0 {
      QueueDrains(n, k - 1);
      HeadIsSent(Sent(n, k - 1));
    }
    if k < |n.send| {
      HeadIsSent(Sent(n, k));
    }
  }
}
