/** Whether the guest learns every fwd_cnt, over whole runs of the vsock device
    (src/lib/pci_virtio_sock.c). */
module VsockUpdate {
  import opened VsockIovec
  import opened VsockSock
  import opened VsockDevice
  import opened VsockClosing
  import opened VsockEof

  ghost predicate AllDue(d: Dev) { forall i: nat :: i < |d.socks| ==> CreditDue(d.socks[i]) }

  /** A read that finds nothing while the guest is behind. */
  predicate Loses(d: Dev, e: Event) {
    e.RxSock? && Enabled(d, e) && e.op.ReadNothing? && d.socks[e.i].told != d.socks[e.i].fwd
  }

  lemma SetDueIff(d: Dev, i: nat, s: Sock)
    requires AllDue(d) && i < |d.socks|
    ensures AllDue(SetSock(d, i, s)) <==> CreditDue(s)
  {
    assert SetSock(d, i, s).socks[i] == s;
  }

  lemma ScanKeepsDue(d: Dev, e: Event)
    requires AllDue(d) && !e.Packet? && !e.DrainQueued? && !e.RxSock?
    ensures AllDue(Step(d, e))
  {
  }

  /** A step keeps it exactly if it is not such a read. */
  lemma StepDueIff(d: Dev, e: Event)
    requires AllDue(d)
    ensures AllDue(Step(d, e)) <==> !Loses(d, e)
  {
    if Enabled(d, e) && (e.Packet? || e.DrainQueued? || e.RxSock?) {
      assert CreditDue(d.socks[e.i]);
      SockStepDueIff(d, e);
    } else if !(e.Packet? || e.DrainQueued? || e.RxSock?) {
      ScanKeepsDue(d, e);
    }
  }

  lemma SockStepDueIff(d: Dev, e: Event)
    requires AllDue(d) && Enabled(d, e) && (e.Packet? || e.DrainQueued? || e.RxSock?) && CreditDue(d.socks[e.i])
    ensures AllDue(Step(d, e)) <==> !Loses(d, e)
  {
    match e
    case Packet(i, peerBuf, peerFwd, op) =>
      var s := d.socks[i].(peerBufAlloc := peerBuf, peerFwdCnt := peerFwd);
      CreditDueIff(s, op);
      SetDueIff(d, i, Apply(s, op));
    case DrainQueued(i, ready, r) =>
      var d1 := d.(txq := d.txq - {i});
      if ready && Applies(d.socks[i], Drain(r)) {
        CreditDueIff(d.socks[i], Drain(r));
        SetDueIff(d1, i, Apply(d.socks[i], Drain(r)));
      }
    case RxSock(i, op) =>
      CreditDueIff(d.socks[i], op);
      SetDueIff(d, i, Apply(d.socks[i], op));
  }

  ghost predicate NoLoss(d: Dev, es: seq<Event>) {
    es == [] || (NoLoss(d, es[..|es| - 1]) && !Loses(Run(d, es[..|es| - 1]), es[|es| - 1]))
  }

  /** Without such a read every guest knows fwd_cnt or will be told, in every run. */
  lemma {:induction false} RunDue(d: Dev, es: seq<Event>)
    requires AllDue(d) && NoLoss(d, es)
    ensures AllDue(Run(d, es))
  {
    if es != [] {
      RunDue(d, es[..|es| - 1]);
      StepDueIff(Run(d, es[..|es| - 1]), es[|es| - 1]);
    }
  }

  /** A packet the fd takes whole. */
  lemma TakenStep(d: Dev, data: seq<byte>)
    requires PolledNew(d) && 0 < |data| <= WRITE_BUF_LENGTH
    ensures var d' := Step(d, Packet(0, 1, 0, OpRw(Whole(data), Wrote(|data|))));
      && d'.rx.RxWork? && 0 in d'.rxq && 0 < |d'.socks| && d'.socks[0].state == CONNECTED
      && d'.socks[0].fd in d'.rfd && d'.socks[0].told == 0 && d'.socks[0].fwd == |data|
  {
    var s := d.socks[0];
    assert s.(peerBufAlloc := 1, peerFwdCnt := 0) == s;
    MatchingNeverAborts(s, Whole(data), Wrote(|data|));
    assert Rw(s, Whole(data), Wrote(|data|)).fwd == |data|;
  }

  lemma NothingStep(d: Dev)
    requires d.rx.RxWork? && 0 in d.rxq && 0 < |d.socks| && d.socks[0].state == CONNECTED && d.socks[0].fd in d.rfd
    ensures var d' := Step(d, RxSock(0, ReadNothing));
      0 < |d'.socks| && d'.socks[0] == d.socks[0].(creditUpdate := false)
  {
  }

  /** From the start: a new connection is polled, its first packet is taken whole, and the next
      read finds nothing. */
  lemma {:induction false} UpdateLost(n: nat, data: seq<byte>) returns (es: seq<Event>)
    requires n > 0 && 0 < |data| <= WRITE_BUF_LENGTH
    ensures var d := Run(Initial(n), es); 0 < |d.socks| && d.socks[0].fwd == |data| && !CreditDue(d.socks[0])
  {
    es := PolledRun(n);
    var d := Run(Initial(n), es);
    var e := Packet(0, 1, 0, OpRw(Whole(data), Wrote(|data|)));
    TakenStep(d, data);
    NothingStep(Step(d, e));
    RunSnoc(Initial(n), es, e);
    RunSnoc(Initial(n), es + [e], RxSock(0, ReadNothing));
    es := es + [e] + [RxSock(0, ReadNothing)];
  }
}
