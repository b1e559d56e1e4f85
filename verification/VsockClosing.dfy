/** The end of a vsock connection over whole runs of the two threads
    (src/lib/pci_virtio_sock.c): when a closed sock can be used again. */
module VsockClosing {
  import opened VsockIovec
  import opened VsockSock
  import opened VsockDevice

  // ----- closing while data is buffered -----

  predicate Stuck(s: Sock) { s.state == CLOSING_TX && Buffering(s) }

  /** A sock closed while it held buffered data is never touched again: the tx thread keeps it
      queued but drains connected socks only. */
  lemma StuckStep(d: Dev, e: Event, i: nat)
    requires Inv(d) && i < |d.socks| && Stuck(d.socks[i])
    ensures |Step(d, e).socks| == |d.socks| && Step(d, e).socks[i] == d.socks[i]
  {
    LiveHasFd(d, i);
    if e.Packet? || e.DrainQueued? || e.RxSock? { StuckSockStep(d, e, i); } else { StuckScanStep(d, e, i); }
  }

  lemma StuckScanStep(d: Dev, e: Event, i: nat)
    requires i < |d.socks| && Stuck(d.socks[i]) && i !in d.closing && i !in d.free
    requires SockOk(d.socks[i]) && !e.Packet? && !e.DrainQueued? && !e.RxSock?
    ensures |Step(d, e).socks| == |d.socks| && Step(d, e).socks[i] == d.socks[i]
  {
    if TxEvent(e) { StuckTxStep(d, e, i); } else { StuckRxStep(d, e, i); }
  }

  lemma StuckTxStep(d: Dev, e: Event, i: nat)
    requires i < |d.socks| && Stuck(d.socks[i]) && i !in d.free && SockOk(d.socks[i])
    requires TxEvent(e) && !e.Packet? && !e.DrainQueued?
    ensures |Step(d, e).socks| == |d.socks| && Step(d, e).socks[i] == d.socks[i]
  {
  }

  lemma StuckRxStep(d: Dev, e: Event, i: nat)
    requires i < |d.socks| && Stuck(d.socks[i]) && i !in d.closing && !TxEvent(e) && !e.RxSock?
    ensures |Step(d, e).socks| == |d.socks| && Step(d, e).socks[i] == d.socks[i]
  {
  }

  lemma StuckSockStep(d: Dev, e: Event, i: nat)
    requires i < |d.socks| && Stuck(d.socks[i]) && (e.Packet? || e.DrainQueued? || e.RxSock?)
    ensures |Step(d, e).socks| == |d.socks| && Step(d, e).socks[i] == d.socks[i]
  {
  }

  lemma {:induction false} StuckForever(d: Dev, es: seq<Event>, i: nat)
    requires Inv(d) && i < |d.socks| && Stuck(d.socks[i])
    ensures i < |Run(d, es).socks| && Run(d, es).socks[i] == d.socks[i] && i !in Run(d, es).free
  {
    if es != [] {
      StuckForever(d, es[..|es| - 1], i);
      RunKeepsInv(d, es[..|es| - 1]);
      StuckStep(Run(d, es[..|es| - 1]), es[|es| - 1], i);
    }
    RunKeepsInv(d, es);
    LiveHasFd(Run(d, es), i);
  }

  lemma {:induction false} RunSnoc(d: Dev, es: seq<Event>, e: Event)
    ensures Run(d, es + [e]) == Step(Run(d, es), e)
  {
    assert (es + [e])[..|es|] == es;
  }

  lemma {:induction false} RunConcat(d: Dev, a: seq<Event>, b: seq<Event>)
    ensures Run(Run(d, a), b) == Run(d, a + b)
  {
    if b == [] {
      assert a + b == a;
    } else {
      RunConcat(d, a, b[..|b| - 1]);
      assert (a + b)[..|a + b| - 1] == a + b[..|b| - 1];
    }
  }

  lemma {:induction false} RunCons(d: Dev, e: Event, es: seq<Event>)
    ensures Run(d, [e] + es) == Run(Step(d, e), es)
  {
    RunOne(d, e);
    RunConcat(d, [e], es);
  }

  lemma {:induction false} RunOne(d: Dev, e: Event)
    ensures Run(d, [e]) == Step(d, e)
  {
    RunSnoc(d, [], e);
    assert [] + [e] == [e];
  }

  predicate TxEvent(e: Event) { !e.RxBegin? && !e.RxVisit? && !e.RxEnd? && !e.RxFree? && !e.RxSock? }
  predicate TxOnly(es: seq<Event>) { forall k :: 0 <= k < |es| ==> TxEvent(es[k]) }

  /** What only the rx thread changes. */
  predicate SameRx(d: Dev, e: Dev) { e.rx == d.rx && e.rxq == d.rxq && e.rfd == d.rfd && e.closing == d.closing }

  lemma TxVisitEffect(d: Dev, j: nat, i: nat)
    requires Enabled(d, TxVisit(j, false)) && i < |d.socks| && i != j
    ensures var d1 := Step(d, TxVisit(j, false));
      && d1.tx == TxScan(d.tx.todo - {j}) && SameRx(d, d1) && d1.inuse == d.inuse && d.txq <= d1.txq
      && |d1.socks| == |d.socks| && d1.socks[i] == d.socks[i]
  {
  }

  lemma RxVisitEffect(d: Dev, j: nat, i: nat)
    requires Enabled(d, RxVisit(j, true)) && i < |d.socks| && d.socks[i].state == CLOSING_RX
    ensures var d1 := Step(d, RxVisit(j, true));
      && d1.rx == RxScan(d.rx.seen + {j}) && d1.tx == d.tx && d1.inuse == d.inuse
      && |d1.socks| == |d.socks| && d1.socks[i].state == CLOSING_RX
      && (i in d.closing || i == j ==> i in d1.closing)
  {
  }

  /** The tx thread can finish its scan, leaving the socks it has passed as they are. */
  lemma {:induction false} FinishTxScan(d: Dev, i: nat) returns (es: seq<Event>)
    requires Inv(d) && d.tx.TxScan? && i < |d.socks| && i !in d.tx.todo
    ensures TxOnly(es)
    ensures var d' := Run(d, es);
      && d'.tx.TxWork? && SameRx(d, d') && d'.inuse == d.inuse && d.txq <= d'.txq
      && |d'.socks| == |d.socks| && d'.socks[i] == d.socks[i]
    decreases |d.tx.todo|
  {
    if d.tx.todo == {} {
      RunCons(d, TxEnd, []);
      es := [TxEnd];
      assert [TxEnd] + [] == es;
    } else {
      var j :| j in d.tx.todo;
      assert j < |d.socks| by { assert Scanning(d, j); }
      TxVisitEffect(d, j, i);
      StepKeepsInv(d, TxVisit(j, false));
      es := FinishTxScan(Step(d, TxVisit(j, false)), i);
      RunCons(d, TxVisit(j, false), es);
      es := [TxVisit(j, false)] + es;
    }
  }

  /** The rx thread can finish its scan, and closes sock i on the way. */
  lemma {:induction false} FinishRxScan(d: Dev, i: nat) returns (es: seq<Event>)
    requires Inv(d) && d.rx.RxScan? && d.tx.TxWork? && i < |d.socks| && i in d.inuse
    requires d.socks[i].state == CLOSING_RX && (i in d.rx.seen ==> i in d.closing)
    ensures var d' := Run(d, es); d'.rx.RxClose? && d'.tx.TxWork? && i in d'.closing
    decreases |d.inuse - d.rx.seen|
  {
    if d.inuse <= d.rx.seen {
      RunCons(d, RxEnd, []);
      es := [RxEnd];
      assert [RxEnd] + [] == es;
    } else {
      var j :| j in d.inuse && j !in d.rx.seen;
      assert j < |d.socks|;
      RxVisitEffect(d, j, i);
      StepKeepsInv(d, RxVisit(j, true));
      var d1 := Step(d, RxVisit(j, true));
      assert d1.inuse - d1.rx.seen == (d.inuse - d.rx.seen) - {j};
      es := FinishRxScan(d1, i);
      RunCons(d, RxVisit(j, true), es);
      es := [RxVisit(j, true)] + es;
    }
  }

  /** The tx thread's next scan hands over a closing sock that holds no data. */
  lemma HandOver(d: Dev, i: nat) returns (es: seq<Event>)
    requires Inv(d) && d.tx.TxWork? && d.rx.RxWork? && i < |d.socks|
    requires d.socks[i].state == CLOSING_TX && !Buffering(d.socks[i])
    ensures var d' := Run(d, es);
      d'.tx.TxWork? && d'.rx.RxWork? && i < |d'.socks| && d'.socks[i].state == CLOSING_RX
  {
    LiveHasFd(d, i);
    StepKeepsInv(d, TxBegin);
    var d1 := Step(d, TxBegin);
    StepKeepsInv(d1, TxVisit(i, false));
    var d2 := Step(d1, TxVisit(i, false));
    es := FinishTxScan(d2, i);
    RunCons(d1, TxVisit(i, false), es);
    RunCons(d, TxBegin, [TxVisit(i, false)] + es);
    es := [TxBegin] + ([TxVisit(i, false)] + es);
  }

  lemma FreeEffect(d: Dev, i: nat)
    requires d.rx.RxClose? && d.tx.TxWork? && i in d.closing && i < |d.socks|
    ensures var d' := Step(d, RxFree); i < |d'.socks| && i in d'.free && d'.socks[i].state == FREE
  {
  }

  lemma BeginEffect(d: Dev, i: nat)
    requires Inv(d) && d.tx.TxWork? && d.rx.RxWork? && i < |d.socks| && d.socks[i].state == CLOSING_RX
    ensures var d1 := Step(d, RxBegin);
      d1 == d.(rx := RxScan({}), rxq := {}, rfd := map[]) && i in d1.inuse
  {
  }

  /** The rx thread's next pass then closes and frees it. */
  lemma CloseAndFree(d: Dev, i: nat) returns (es: seq<Event>)
    requires Inv(d) && d.tx.TxWork? && d.rx.RxWork? && i < |d.socks| && d.socks[i].state == CLOSING_RX
    ensures var d' := Run(d, es); i < |d'.socks| && i in d'.free && d'.socks[i].state == FREE
  {
    StepKeepsInv(d, RxBegin);
    BeginEffect(d, i);
    var a := FinishRxScan(Step(d, RxBegin), i);
    RunCons(d, RxBegin, a);
    a := [RxBegin] + a;
    es := a + [RxFree];
    assert es[..|es| - 1] == a;
    RunKeepsInv(d, a);
    ClosingInRange(Run(d, a), i);
    FreeEffect(Run(d, a), i);
  }

  lemma ClosingInRange(d: Dev, i: nat)
    requires Inv(d) && i in d.closing
    ensures i < |d.socks|
  {
  }

  // ----- from any position of the threads -----

  /** What a run leaves of a sock that is closing without data. */
  predicate Closing(d: Dev, i: nat) {
    i < |d.socks| && ((d.socks[i].state == CLOSING_TX && !Buffering(d.socks[i])) || d.socks[i].state == CLOSING_RX)
  }

  lemma RxVisitPasses(d: Dev, j: nat, i: nat)
    requires Enabled(d, RxVisit(j, false)) && i < |d.socks| && d.socks[i].state == CLOSING_TX
    ensures var d1 := Step(d, RxVisit(j, false));
      && d1.rx == RxScan(d.rx.seen + {j}) && d1.tx == d.tx && d1.inuse == d.inuse
      && |d1.socks| == |d.socks| && d1.socks[i] == d.socks[i]
  {
  }

  /** The rx thread can finish its scan past a sock the tx thread has not handed over. */
  lemma {:induction false} PassRxScan(d: Dev, i: nat) returns (es: seq<Event>)
    requires Inv(d) && d.rx.RxScan? && i < |d.socks| && d.socks[i].state == CLOSING_TX
    ensures var d' := Run(d, es);
      d'.rx.RxClose? && d'.tx == d.tx && |d'.socks| == |d.socks| && d'.socks[i] == d.socks[i]
    decreases |d.inuse - d.rx.seen|
  {
    if d.inuse <= d.rx.seen {
      RunOne(d, RxEnd);
      es := [RxEnd];
    } else {
      var j :| j in d.inuse && j !in d.rx.seen;
      assert j < |d.socks|;
      RxVisitPasses(d, j, i);
      StepKeepsInv(d, RxVisit(j, false));
      var d1 := Step(d, RxVisit(j, false));
      assert d1.inuse - d1.rx.seen == (d.inuse - d.rx.seen) - {j};
      es := PassRxScan(d1, i);
      RunCons(d, RxVisit(j, false), es);
      es := [RxVisit(j, false)] + es;
    }
  }

  lemma TxVisitHandsOver(d: Dev, i: nat)
    requires Enabled(d, TxVisit(i, false)) && d.socks[i].state == CLOSING_TX && !Buffering(d.socks[i])
    ensures var d1 := Step(d, TxVisit(i, false));
      && d1.tx == TxScan(d.tx.todo - {i}) && SameRx(d, d1) && |d1.socks| == |d.socks| && d1.socks[i].state == CLOSING_RX
  {
  }

  /** The tx thread can finish its scan. */
  lemma {:induction false} PassTxScan(d: Dev, i: nat) returns (es: seq<Event>)
    requires Inv(d) && d.tx.TxScan? && i < |d.socks| && d.socks[i].state == CLOSING_TX && !Buffering(d.socks[i])
    ensures var d' := Run(d, es); d'.tx.TxWork? && SameRx(d, d') && Closing(d', i)
  {
    if i in d.tx.todo {
      TxVisitHandsOver(d, i);
      StepKeepsInv(d, TxVisit(i, false));
      es := FinishTxScan(Step(d, TxVisit(i, false)), i);
      RunCons(d, TxVisit(i, false), es);
      es := [TxVisit(i, false)] + es;
    } else {
      es := FinishTxScan(d, i);
    }
  }

  lemma FreePasses(d: Dev, i: nat)
    requires d.rx.RxClose? && d.tx.TxWork? && Closing(d, i) && i !in d.closing
    ensures var d' := Step(d, RxFree); d'.rx.RxWork? && d'.tx.TxWork? && Closing(d', i)
  {
  }

  /** Both threads can come to work. */
  lemma {:induction false} BothAtWork(d: Dev, i: nat) returns (es: seq<Event>)
    requires Inv(d) && i < |d.socks| && d.socks[i].state == CLOSING_TX && !Buffering(d.socks[i])
    ensures var d' := Run(d, es); d'.tx.TxWork? && d'.rx.RxWork? && Closing(d', i)
  {
    es := [];
    if d.rx.RxScan? { es := PassRxScan(d, i); }
    RunKeepsInv(d, es);
    var d1 := Run(d, es);
    LiveHasFd(d1, i);
    if d1.tx.TxScan? {
      var more := PassTxScan(d1, i);
      RunConcat(d, es, more);
      es := es + more;
    }
    var d2 := Run(d, es);
    if d2.rx.RxClose? {
      FreePasses(d2, i);
      RunSnoc(d, es, RxFree);
      es := es + [RxFree];
    }
  }

  lemma {:induction false} FreeFromWork(d: Dev, i: nat) returns (es: seq<Event>)
    requires Inv(d) && d.tx.TxWork? && d.rx.RxWork? && Closing(d, i)
    ensures i in Run(d, es).free
  {
    es := [];
    if d.socks[i].state == CLOSING_TX { es := HandOver(d, i); }
    RunKeepsInv(d, es);
    var more := CloseAndFree(Run(d, es), i);
    RunConcat(d, es, more);
    es := es + more;
  }

  /** A closing sock can ever be used again exactly if it held no buffered data when closed. */
  lemma {:induction false} FreedIffEmpty(d: Dev, i: nat)
    requires Inv(d) && i < |d.socks| && d.socks[i].state == CLOSING_TX
    ensures (exists es :: i in Run(d, es).free) <==> !Buffering(d.socks[i])
  {
    if Buffering(d.socks[i]) {
      forall es ensures i !in Run(d, es).free { StuckForever(d, es, i); }
    } else {
      var a := BothAtWork(d, i);
      RunKeepsInv(d, a);
      var b := FreeFromWork(Run(d, a), i);
      RunConcat(d, a, b);
      assert i in Run(d, a + b).free;
    }
  }

  // ----- reaching it -----

  /** A connection to sock 0 of a fresh device. */
  lemma {:induction false} Connected(n: nat, peerBuf: nat)
    requires n > 0
    ensures var d := Run(Initial(n), [Connect(0, CONNECTED, WRITE_BUF_LENGTH, peerBuf, 0)]);
      && d.socks == Initial(n).socks[0 := Allocated(CONNECTED, 0, WRITE_BUF_LENGTH, peerBuf, 0)]
      && d == Initial(n).(socks := d.socks, free := Below(n) - {0}, inuse := {0}, open := map[0 := 0], nextFd := 1)
  {
    var e := Connect(0, CONNECTED, WRITE_BUF_LENGTH, peerBuf, 0);
    RunSnoc(Initial(n), [], e);
    assert [] + [e] == [e];
  }

  /** A packet the fd does not take. */
  lemma BufferedStep(d: Dev, data: seq<byte>)
    requires d.tx.TxWork? && 0 in d.inuse && 0 < |d.socks| && 0 < |data| <= WRITE_BUF_LENGTH
    requires d.socks[0] == Allocated(CONNECTED, 0, WRITE_BUF_LENGTH, 0, 0)
    ensures Step(d, Packet(0, 0, 0, OpRw(Whole(data), Eagain)))
         == d.(socks := d.socks[0 := d.socks[0].(buf := data, offered := data)])
  {
    var s := d.socks[0];
    assert data[0..] == data && data[..0] == [] && [] + data == data;
    assert Apply(s, OpRw(Whole(data), Eagain)) == s.(buf := data, offered := data);
    assert s.(peerBufAlloc := 0, peerFwdCnt := 0) == s;
  }

  lemma ResetStep(d: Dev)
    requires d.tx.TxWork? && 0 in d.inuse && 0 < |d.socks| && d.socks[0].state == CONNECTED && Buffering(d.socks[0])
    ensures var d' := Step(d, Packet(0, 0, 0, OpReset)); 0 < |d'.socks| && Stuck(d'.socks[0])
  {
  }

  /** Closed while buffering: a packet the fd does not take, and a reset. */
  lemma {:induction false} StuckReachable(n: nat, data: seq<byte>)
    requires n > 0 && 0 < |data| <= WRITE_BUF_LENGTH
    ensures var d := Run(Initial(n), [Connect(0, CONNECTED, WRITE_BUF_LENGTH, 0, 0)]
                                     + [Packet(0, 0, 0, OpRw(Whole(data), Eagain))] + [Packet(0, 0, 0, OpReset)]);
      0 < |d.socks| && Stuck(d.socks[0])
  {
    var es := [Connect(0, CONNECTED, WRITE_BUF_LENGTH, 0, 0)];
    Connected(n, 0);
    BufferedStep(Run(Initial(n), es), data);
    RunSnoc(Initial(n), es, Packet(0, 0, 0, OpRw(Whole(data), Eagain)));
    ResetStep(Run(Initial(n), es + [Packet(0, 0, 0, OpRw(Whole(data), Eagain))]));
    RunSnoc(Initial(n), es + [Packet(0, 0, 0, OpRw(Whole(data), Eagain))], Packet(0, 0, 0, OpReset));
  }

  // ----- a failed connection -----

  /** In use and free: nothing looks at such a sock any more. */
  predicate Leaked(d: Dev, i: nat) { i < |d.socks| && i in d.inuse && d.socks[i].state == FREE && i !in d.closing }

  lemma LeakedScanStep(d: Dev, e: Event, i: nat)
    requires Leaked(d, i) && i !in d.free && !e.Packet? && !e.DrainQueued? && !e.RxSock?
    ensures Leaked(Step(d, e), i)
  {
    if TxEvent(e) { LeakedTxStep(d, e, i); } else { LeakedRxStep(d, e, i); }
  }

  lemma LeakedTxStep(d: Dev, e: Event, i: nat)
    requires Leaked(d, i) && i !in d.free && TxEvent(e) && !e.Packet? && !e.DrainQueued?
    ensures Leaked(Step(d, e), i)
  {
  }

  lemma LeakedRxStep(d: Dev, e: Event, i: nat)
    requires Leaked(d, i) && !TxEvent(e) && !e.RxSock?
    ensures Leaked(Step(d, e), i)
  {
  }

  /** The socks a packet, a drain or a read works on are live. */
  lemma LeakedSockStep(d: Dev, e: Event, i: nat)
    requires Leaked(d, i) && (e.Packet? || e.DrainQueued? || e.RxSock?)
    ensures Leaked(Step(d, e), i)
  {
    if Enabled(d, e) && e.i == i { assert d.socks[i].state == FREE; }
  }

  lemma LeakedStep(d: Dev, e: Event, i: nat)
    requires Leaked(d, i) && i !in d.free
    ensures Leaked(Step(d, e), i)
  {
    if e.Packet? || e.DrainQueued? || e.RxSock? { LeakedSockStep(d, e, i); } else { LeakedScanStep(d, e, i); }
  }

  /** A sock whose connection attempt failed never returns to the free list. */
  lemma {:induction false} FailedConnectLeaks(d: Dev, i: nat, stale: bool, es: seq<Event>)
    requires Inv(d) && Enabled(d, ConnectFailed(i, stale))
    ensures i in d.free && i !in Run(Step(d, ConnectFailed(i, stale)), es).free
  {
    var d1 := Step(d, ConnectFailed(i, stale));
    StepKeepsInv(d, ConnectFailed(i, stale));
    LeakedForever(d1, es, i);
    RunKeepsInv(d1, es);
  }

  lemma {:induction false} LeakedForever(d: Dev, es: seq<Event>, i: nat)
    requires Inv(d) && Leaked(d, i)
    ensures Leaked(Run(d, es), i)
  {
    if es != [] {
      LeakedForever(d, es[..|es| - 1], i);
      RunKeepsInv(d, es[..|es| - 1]);
      LeakedStep(Run(d, es[..|es| - 1]), es[|es| - 1], i);
    }
  }
}
