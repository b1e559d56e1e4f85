/** The assertion in shutdown_local_sock that not both directions of a sock are shut already,
    as the rx thread meets it when it reads end of file (src/lib/pci_virtio_sock.c). */
module VsockEof {
  import opened VsockIovec
  import opened VsockSock
  import opened VsockDevice
  import opened VsockClosing

  /** The rx thread may come to read sock i, and would fail the assertion at end of file. */
  predicate Fails(d: Dev, i: nat) {
    && d.rx.RxWork? && i in d.rxq && i < |d.socks| && d.socks[i].fd in d.rfd
    && d.socks[i].state == CONNECTED && d.socks[i].local == ALL
  }

  // ----- it cannot happen -----

  /** The peer sends no more and still receives; or the sock is closing. */
  predicate Safe(s: Sock) {
    s.state == CLOSING_TX || s.state == CLOSING_RX || (s.state == CONNECTED && s.peer.tx && !s.local.tx)
  }

  lemma SafeOp(s: Sock, op: SockOp)
    requires Safe(s) && SockOk(s) && Applies(s, op) && (TxOp(op) || op.Drain?)
    ensures Safe(Apply(s, op))
  {
  }

  lemma SafeStep(d: Dev, e: Event, i: nat)
    requires Inv(d) && i < |d.socks| && i in d.inuse && Safe(d.socks[i]) && TxEvent(e)
    ensures var d' := Step(d, e); i < |d'.socks| && i in d'.inuse && Safe(d'.socks[i])
  {
    if e.Packet? || e.DrainQueued? { SafeSockStep(d, e, i); } else { SafeScanStep(d, e, i); }
  }

  lemma SafeScanStep(d: Dev, e: Event, i: nat)
    requires i !in d.free && i < |d.socks| && i in d.inuse && Safe(d.socks[i])
    requires TxEvent(e) && !e.Packet? && !e.DrainQueued?
    ensures var d' := Step(d, e); i < |d'.socks| && i in d'.inuse && Safe(d'.socks[i])
  {
  }

  lemma SafeSockStep(d: Dev, e: Event, i: nat)
    requires SocksOk(d) && i < |d.socks| && i in d.inuse && Safe(d.socks[i]) && (e.Packet? || e.DrainQueued?)
    ensures var d' := Step(d, e); i < |d'.socks| && i in d'.inuse && Safe(d'.socks[i])
  {
    assert SockOk(d.socks[i]);
    if Enabled(d, e) && e.i == i {
      if e.Packet? {
        SafeOp(d.socks[i].(peerBufAlloc := e.peerBuf, peerFwdCnt := e.peerFwd), e.op);
      } else if Applies(d.socks[i], Drain(e.r)) {
        SafeOp(d.socks[i], Drain(e.r));
      }
    }
  }

  lemma {:induction false} SafeForever(d: Dev, es: seq<Event>, i: nat)
    requires Inv(d) && i < |d.socks| && i in d.inuse && Safe(d.socks[i]) && TxOnly(es)
    ensures var d' := Run(d, es); i < |d'.socks| && i in d'.inuse && Safe(d'.socks[i])
  {
    if es != [] {
      SafeForever(d, es[..|es| - 1], i);
      RunKeepsInv(d, es[..|es| - 1]);
      SafeStep(Run(d, es[..|es| - 1]), es[|es| - 1], i);
    }
  }

  // ----- it can -----

  /** A sock the rx thread polls, with the tx thread at work. */
  predicate Polled(d: Dev, i: nat) {
    && d.tx.TxWork? && d.rx.RxWork? && i in d.rxq && i < |d.socks| && d.socks[i].fd in d.rfd
    && d.socks[i].state == CONNECTED
  }

  /** The tx thread's scan queues a sock that holds data. */
  lemma VisitQueues(d: Dev, i: nat)
    requires d.tx == TxScan(d.inuse) && i in d.inuse && i < |d.socks| && d.socks[i].state == CONNECTED
    requires Buffering(d.socks[i]) && !d.socks[i].local.rx
    ensures var d' := Step(d, TxVisit(i, false));
      && d'.tx == TxScan(d.inuse - {i}) && SameRx(d, d') && i in d'.txq && d'.socks == d.socks && d'.inuse == d.inuse
  {
    assert Enabled(d, TxVisit(i, false));
  }

  lemma {:induction false} QueueIt(d: Dev, i: nat) returns (es: seq<Event>)
    requires Inv(d) && Polled(d, i) && Buffering(d.socks[i])
    ensures TxOnly(es)
    ensures var d' := Run(d, es);
      d'.tx.TxWork? && SameRx(d, d') && i in d'.txq && |d'.socks| == |d.socks| && d'.socks[i] == d.socks[i]
  {
    LiveHasFd(d, i);
    assert SockOk(d.socks[i]);
    StepKeepsInv(d, TxBegin);
    es := VisitIt(d.(tx := TxScan(d.inuse), txq := {}, wfd := map[]), i);
    RunCons(d, TxBegin, es);
    es := [TxBegin] + es;
  }

  lemma {:induction false} VisitIt(d: Dev, i: nat) returns (es: seq<Event>)
    requires Inv(d) && d.tx == TxScan(d.inuse) && i in d.inuse && i < |d.socks| && d.socks[i].state == CONNECTED
    requires Buffering(d.socks[i]) && !d.socks[i].local.rx
    ensures TxOnly(es)
    ensures var d' := Run(d, es);
      d'.tx.TxWork? && SameRx(d, d') && i in d'.txq && |d'.socks| == |d.socks| && d'.socks[i] == d.socks[i]
  {
    StepKeepsInv(d, TxVisit(i, false));
    VisitQueues(d, i);
    es := FinishTxScan(Step(d, TxVisit(i, false)), i);
    RunCons(d, TxVisit(i, false), es);
    es := [TxVisit(i, false)] + es;
  }

  /** Still polled, with our receiving side shut. */
  predicate RxShut(d: Dev, e: Dev, i: nat)
    requires i < |d.socks|
  {
    Polled(e, i) && e.socks[i].local == Shut(true, d.socks[i].local.tx) && e.socks[i].peer == d.socks[i].peer
  }

  lemma DrainShutsRx(d: Dev, i: nat)
    requires Polled(d, i) && i in d.txq && d.socks[i].head < |d.socks[i].buf|
    ensures RxShut(d, Step(d, DrainQueued(i, true, Epipe)), i)
  {
  }

  lemma WriteShutsRx(d: Dev, i: nat)
    requires Polled(d, i) && i in d.inuse && Writable(d.socks[i]) && !Buffering(d.socks[i])
    ensures RxShut(d, Step(d, Packet(i, 0, 0, OpRw(Whole([0]), Epipe))), i)
  {
  }

  /** A write that fails with EPIPE shuts our receiving side. */
  lemma {:induction false} ShutRx(d: Dev, i: nat) returns (es: seq<Event>)
    requires Inv(d) && Polled(d, i) && !d.socks[i].local.rx
    ensures TxOnly(es) && RxShut(d, Run(d, es), i)
  {
    LiveHasFd(d, i);
    assert SockOk(d.socks[i]);
    if Buffering(d.socks[i]) {
      es := QueueIt(d, i);
      DrainShutsRx(Run(d, es), i);
      RunSnoc(d, es, DrainQueued(i, true, Epipe));
      es := es + [DrainQueued(i, true, Epipe)];
    } else {
      WriteShutsRx(d, i);
      RunCons(d, Packet(i, 0, 0, OpRw(Whole([0]), Epipe)), []);
      es := [Packet(i, 0, 0, OpRw(Whole([0]), Epipe))] + [];
    }
  }

  /** A peer that stops receiving shuts our sending side. */
  lemma {:induction false} ShutTx(d: Dev, i: nat) returns (es: seq<Event>)
    requires Inv(d) && Polled(d, i) && !d.socks[i].local.tx && !d.socks[i].peer.tx && d.socks[i].local.rx
    ensures TxOnly(es) && Fails(Run(d, es), i)
  {
    LiveHasFd(d, i);
    assert SockOk(d.socks[i]);
    var e := Packet(i, 0, 0, OpShutdown(Shut(true, false), false));
    RunCons(d, e, []);
    es := [e] + [];
  }

  lemma {:induction false} ShutBoth(d: Dev, i: nat) returns (es: seq<Event>)
    requires Inv(d) && Polled(d, i) && (d.socks[i].local.tx || !d.socks[i].peer.tx)
    ensures TxOnly(es) && Fails(Run(d, es), i)
  {
    es := [];
    if !d.socks[i].local.rx { es := ShutRx(d, i); }
    var d1 := Run(d, es);
    RunKeepsInv(d, es);
    if !d1.socks[i].local.tx {
      var more := ShutTx(d1, i);
      RunConcat(d, es, more);
      es := es + more;
    }
  }

  /** Steps of the tx thread alone lead a polled sock into the failing assertion exactly if it
      no longer sends already or the peer still does. */
  lemma {:induction false} EofAssertionIff(d: Dev, i: nat)
    requires Inv(d) && Polled(d, i)
    ensures (exists es :: TxOnly(es) && Fails(Run(d, es), i)) <==> d.socks[i].local.tx || !d.socks[i].peer.tx
  {
    if d.socks[i].local.tx || !d.socks[i].peer.tx {
      var es := ShutBoth(d, i);
    } else {
      LiveHasFd(d, i);
      forall es | TxOnly(es) ensures !Fails(Run(d, es), i) { SafeForever(d, es, i); }
    }
  }

  lemma {:induction false} AfterBegin(d: Dev, es: seq<Event>, x: Dev)
    requires Run(d, es) == x && x.rx.RxWork?
    ensures Run(d, es + [RxBegin]) == x.(rx := RxScan({}), rxq := {}, rfd := map[])
  {
    RunSnoc(d, es, RxBegin);
  }

  lemma {:induction false} AfterVisit(d: Dev, es: seq<Event>, x: Dev)
    requires Run(d, es) == x && x.rx == RxScan({}) && x.rxq == {} && x.rfd == map[] && 0 in x.inuse && 0 < |x.socks|
    requires x.socks[0].state == CONNECTED && Polling(x.socks[0])
    ensures Run(d, es + [RxVisit(0, true)]) == x.(rx := RxScan({0}), rxq := {0}, rfd := map[x.socks[0].fd := 0])
  {
    RunSnoc(d, es, RxVisit(0, true));
    assert {} + {0} == {0} && map[][x.socks[0].fd := 0] == map[x.socks[0].fd := 0];
    assert Step(x, RxVisit(0, true)) == VisitRx(x, 0, true);
  }

  lemma {:induction false} AfterEnd(d: Dev, es: seq<Event>, x: Dev)
    requires Run(d, es) == x && x.rx == RxScan({0}) && x.inuse == {0}
    ensures Run(d, es + [RxEnd]) == x.(rx := RxClose)
  {
    RunSnoc(d, es, RxEnd);
  }

  lemma {:induction false} AfterFree(d: Dev, es: seq<Event>, x: Dev)
    requires Run(d, es) == x && x.rx.RxClose? && x.closing == {}
    ensures Run(d, es + [RxFree]) == x.(rx := RxWork)
  {
    RunSnoc(d, es, RxFree);
    assert Freed(x.socks, {}) == x.socks && x.inuse - {} == x.inuse && x.free + {} == x.free;
    assert Enabled(x, RxFree);
  }

  /** A new connection that the rx thread polls. */
  predicate PolledNew(d: Dev) {
    && d.tx.TxWork? && d.rx.RxWork? && 0 in d.rxq && 0 in d.inuse && 0 < |d.socks|
    && d.socks[0] == Allocated(CONNECTED, 0, WRITE_BUF_LENGTH, 1, 0) && d.socks[0].fd in d.rfd
  }

  lemma {:induction false} PolledRun(n: nat) returns (es: seq<Event>)
    requires n > 0
    ensures PolledNew(Run(Initial(n), es))
  {
    var i := Initial(n);
    es := [Connect(0, CONNECTED, WRITE_BUF_LENGTH, 1, 0)];
    Connected(n, 1);
    var d := Run(i, es);
    assert Polling(d.socks[0]);
    AfterBegin(i, es, d);
    var d1 := d.(rx := RxScan({}), rxq := {}, rfd := map[]);
    AfterVisit(i, es + [RxBegin], d1);
    var d2 := d1.(rx := RxScan({0}), rxq := {0}, rfd := map[d.socks[0].fd := 0]);
    AfterEnd(i, es + [RxBegin] + [RxVisit(0, true)], d2);
    AfterFree(i, es + [RxBegin] + [RxVisit(0, true)] + [RxEnd], d2.(rx := RxClose));
    es := es + [RxBegin] + [RxVisit(0, true)] + [RxEnd] + [RxFree];
  }

  /** A polled sock that is open both ways, in a run from the start. */
  lemma {:induction false} PolledReachable(n: nat)
    requires n > 0
    ensures exists es :: var d := Run(Initial(n), es); Polled(d, 0) && d.socks[0].local == NONE && d.socks[0].peer == NONE
  {
    var es := PolledRun(n);
    assert Polled(Run(Initial(n), es), 0);
  }
}
