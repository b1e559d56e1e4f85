/** The vsock device's two threads and the life of its socks (src/lib/pci_virtio_sock.c).

    The tx thread scans the in-use list, selects on the fds of socks that hold buffered data,
    accepts connections, drains and processes packets; the rx thread scans the same list,
    closes and frees socks, selects and reads.  A step is what happens under one hold of a
    sock's mutex or of the list lock.  Both threads scan under the read lock, so a scan shuts
    out the other thread's list changes.  Within a phase a thread's steps may come in any
    order, and lists are sets: more runs than the program has.  A failed assertion ends a run,
    and so does the packet that overruns a write buffer.  A descriptor is named by a new number
    each time one is opened. */
module VsockDevice {
  import opened VsockIovec
  import opened VsockSock

  datatype TxPc = TxWork | TxScan(todo: set<nat>)
  datatype RxPc = RxWork | RxScan(seen: set<nat>) | RxClose

  datatype Dev = Dev(
    socks: seq<Sock>, free: set<nat>, inuse: set<nat>,
    tx: TxPc, txq: set<nat>, wfd: map<int, nat>,               // tx queue and write fd_set
    rx: RxPc, rxq: set<nat>, rfd: map<int, nat>, closing: set<nat>,
    open: map<int, nat>, nextFd: nat)                          // open descriptors and their socks

  datatype Event =
    | TxBegin
    | TxVisit(i: nat, late: bool)
    | TxEnd
    | Connect(i: nat, st: SockState, sndbuf: nat, peerBuf: nat, peerFwd: nat)
    | ConnectFailed(i: nat, stale: bool)
    | Packet(i: nat, peerBuf: nat, peerFwd: nat, op: SockOp)
    | DrainQueued(i: nat, ready: bool, r: IoResult)
    | RxBegin
    | RxVisit(i: nat, poll: bool)
    | RxEnd
    | RxFree
    | RxSock(i: nat, op: SockOp)

  predicate TxOp(op: SockOp) { op.OpRw? || op.OpShutdown? || op.OpResponse? || op.OpCredit? || op.OpReset? }
  predicate RxOp(op: SockOp) { op.ReadData? || op.ReadNothing? || op.ReadEof? || op.ReadFailed? || op.CreditSent? }

  predicate Enabled(d: Dev, e: Event) {
    match e
    case TxBegin => d.tx.TxWork?
    case TxVisit(i, _) => d.tx.TxScan? && i in d.tx.todo && i < |d.socks|
    case TxEnd => d.tx.TxScan? && d.tx.todo == {}
    case Connect(i, st, _, _, _) =>
      d.tx.TxWork? && !d.rx.RxScan? && i in d.free && i < |d.socks| && (st == CONNECTED || st == CONNECTING)
    case ConnectFailed(i, _) => d.tx.TxWork? && !d.rx.RxScan? && i in d.free && i < |d.socks|
    case Packet(i, _, _, op) =>
      && d.tx.TxWork? && i in d.inuse && i < |d.socks| && TxOp(op) && Applies(d.socks[i], op)
      && !Overruns(d.socks[i], op) && !Aborts(d.socks[i], op)
    case DrainQueued(i, _, _) => d.tx.TxWork? && i in d.txq && i < |d.socks|
    case RxBegin => d.rx.RxWork?
    case RxVisit(i, _) => d.rx.RxScan? && i in d.inuse && i !in d.rx.seen && i < |d.socks|
    case RxEnd => d.rx.RxScan? && d.inuse <= d.rx.seen
    case RxFree => d.rx.RxClose? && (d.closing == {} || !d.tx.TxScan?)
    case RxSock(i, op) =>
      && d.rx.RxWork? && i in d.rxq && i < |d.socks| && RxOp(op) && Applies(d.socks[i], op)
      && (op.CreditSent? || d.socks[i].fd in d.rfd)
      && (op.ReadData? ==> op.n <= PeerFree(d.socks[i].peerBufAlloc, d.socks[i].rxCnt, d.socks[i].peerFwdCnt))
  }

  function SetSock(d: Dev, i: nat, s: Sock): Dev
    requires i < |d.socks|
  {
    d.(socks := d.socks[i := s])
  }

  /** The body of the tx thread's LIST_FOREACH. */
  function VisitTx(d: Dev, i: nat, late: bool): Dev
    requires i < |d.socks| && d.tx.TxScan?
  {
    var d1 := d.(tx := TxScan(d.tx.todo - {i}));
    var s := d.socks[i];
    if s.state == CLOSING_TX && !Buffering(s) then SetSock(d1, i, s.(state := CLOSING_RX))
    else if s.state != CLOSING_TX && s.state != CONNECTED then d1
    else if s.local == ALL && late then SetSock(d1, i, CloseSock(s))
    else if s.local.rx || !Buffering(s) then d1
    else d1.(txq := d.txq + {i}, wfd := d.wfd[s.fd := i])
  }

  predicate Polling(s: Sock) { !s.local.tx && !s.peer.rx && PeerFree(s.peerBufAlloc, s.rxCnt, s.peerFwdCnt) != 0 }

  /** The body of the rx thread's LIST_FOREACH. */
  function VisitRx(d: Dev, i: nat, poll: bool): Dev
    requires i < |d.socks| && d.rx.RxScan?
  {
    var d1 := d.(rx := RxScan(d.rx.seen + {i}));
    var s := d.socks[i];
    if s.state == CLOSING_RX then
      SetSock(d1, i, s.(fd := -1)).(open := d.open - {s.fd}, closing := d.closing + {i})
    else if s.state != CONNECTED || !poll then d1
    else
      var rfd := if Polling(s) then d.rfd[s.fd := i] else d.rfd;
      var rxq := if Polling(s) || s.creditUpdate then d.rxq + {i} else d.rxq;
      d1.(rfd := rfd, rxq := rxq)
  }

  /** alloc_sock: sock i leaves the free list.  A connection that fails closes its new
      descriptor and puts the state back, but not the sock back on the list. */
  function Installed(d: Dev, i: nat, s: Sock): Dev
    requires i < |d.socks|
  {
    SetSock(d, i, s).(free := d.free - {i}, inuse := d.inuse + {i}, nextFd := d.nextFd + 1,
                      open := if s.state == FREE then d.open else d.open[d.nextFd := i])
  }

  function Freed(socks: seq<Sock>, closing: set<nat>): (r: seq<Sock>)
    ensures |r| == |socks|
  {
    seq(|socks|, i requires 0 <= i < |socks| => if i in closing then socks[i].(state := FREE) else socks[i])
  }

  function Step(d: Dev, e: Event): Dev {
    if !Enabled(d, e) then d
    else
      match e
      case TxBegin => d.(tx := TxScan(d.inuse), txq := {}, wfd := map[])
      case TxVisit(i, late) => VisitTx(d, i, late)
      case TxEnd => d.(tx := TxWork)
      case Connect(i, st, sndbuf, peerBuf, peerFwd) =>
        Installed(d, i, Allocated(st, d.nextFd, sndbuf, peerBuf, peerFwd))
      case ConnectFailed(i, stale) =>
        Installed(d, i, Allocated(FREE, if stale then d.nextFd else d.socks[i].fd, 0, 0, 0))
      case Packet(i, peerBuf, peerFwd, op) =>
        SetSock(d, i, Apply(d.socks[i].(peerBufAlloc := peerBuf, peerFwdCnt := peerFwd), op))
      case DrainQueued(i, ready, r) =>
        var d1 := d.(txq := d.txq - {i});
        if ready && Applies(d.socks[i], Drain(r)) then SetSock(d1, i, Apply(d.socks[i], Drain(r))) else d1
      case RxBegin => d.(rx := RxScan({}), rxq := {}, rfd := map[])
      case RxVisit(i, poll) => VisitRx(d, i, poll)
      case RxEnd => d.(rx := RxClose)
      case RxFree =>
        d.(rx := RxWork, closing := {}, inuse := d.inuse - d.closing, free := d.free + d.closing,
           socks := Freed(d.socks, d.closing))
      case RxSock(i, op) => SetSock(d, i, Apply(d.socks[i], op))
  }

  // ----- the invariant -----

  ghost predicate ListsOk(d: Dev) {
    && (forall i: nat :: i in d.free || i in d.inuse <==> i < |d.socks|)
    && (forall i: nat :: i in d.free ==> i !in d.inuse)
    && (forall i: nat :: i in d.free && i < |d.socks| ==> d.socks[i].state == FREE)
  }

  ghost predicate SocksOk(d: Dev) { forall i: nat :: i < |d.socks| ==> SockOk(d.socks[i]) }

  /** The sock holds a descriptor. */
  predicate HasFd(d: Dev, i: nat) { i < |d.socks| && d.socks[i].state != FREE && i !in d.closing }

  /** The open descriptors are exactly those of live socks, one each. */
  ghost predicate FdsOk(d: Dev) {
    && (forall i: nat :: HasFd(d, i) ==> d.socks[i].fd in d.open && d.open[d.socks[i].fd] == i)
    && (forall f :: f in d.open ==> 0 <= f < d.nextFd && HasFd(d, d.open[f]) && d.socks[d.open[f]].fd == f)
  }

  predicate Writing(s: Sock) { s.state == CONNECTED || s.state == CLOSING_TX }
  predicate Reading(s: Sock) { s.state == CONNECTED || s.state == CLOSING_TX || s.state == CLOSING_RX }

  predicate Scanning(d: Dev, i: nat) { d.tx.TxScan? && i in d.tx.todo }

  ghost predicate TxOk(d: Dev) {
    && (forall i: nat :: Scanning(d, i) ==> i in d.inuse)
    && (forall i: nat :: i in d.txq ==>
          HasFd(d, i) && Writing(d.socks[i]) && d.socks[i].fd in d.wfd && !Scanning(d, i))
    && (forall i: nat :: i in d.txq && HasFd(d, i) && d.socks[i].state == CONNECTED ==> Buffering(d.socks[i]))
    && (forall f :: f in d.wfd ==> var i := d.wfd[f];
          HasFd(d, i) && Writing(d.socks[i]) && d.socks[i].fd == f && !Scanning(d, i))
  }

  predicate Seen(d: Dev, i: nat) { d.rx.RxScan? ==> i in d.rx.seen }

  ghost predicate RxOk(d: Dev) {
    && (forall i: nat :: i in d.closing ==> i in d.inuse && i < |d.socks| && d.socks[i].state == CLOSING_RX && Seen(d, i))
    && (d.rx.RxWork? ==> d.closing == {})
    && (forall i: nat :: i in d.rxq ==> HasFd(d, i) && Reading(d.socks[i]) && Seen(d, i))
    && (forall f :: f in d.rfd ==> var i := d.rfd[f];
          HasFd(d, i) && Reading(d.socks[i]) && d.socks[i].fd == f && Seen(d, i))
  }

  ghost predicate Shape(d: Dev) { ListsOk(d) && FdsOk(d) && TxOk(d) && RxOk(d) }

  ghost predicate Inv(d: Dev) { Shape(d) && SocksOk(d) }

  // ----- every step keeps the shape -----

  /** Sock i may become s: it stays live on the same descriptor, leaves the states a select
      set needs only while its own visit of a scan is going on, and keeps its data while it
      is queued. */
  predicate MayBecome(d: Dev, i: nat, s: Sock) {
    && HasFd(d, i) && i in d.inuse && s.state != FREE && s.fd == d.socks[i].fd
    && (Writing(s) || Scanning(d, i)) && (Reading(d.socks[i]) ==> Reading(s))
    && (i in d.txq && s.state == CONNECTED ==> Buffering(s))
  }

  lemma SetKeepsLists(d: Dev, i: nat, s: Sock)
    requires Shape(d) && MayBecome(d, i, s)
    ensures ListsOk(SetSock(d, i, s))
  {
  }

  lemma SetKeepsFds(d: Dev, i: nat, s: Sock)
    requires FdsOk(d) && MayBecome(d, i, s)
    ensures FdsOk(SetSock(d, i, s))
  {
    var d' := SetSock(d, i, s);
    assert forall j: nat :: HasFd(d', j) <==> HasFd(d, j);
  }

  lemma SetKeepsTx(d: Dev, i: nat, s: Sock)
    requires TxOk(d) && MayBecome(d, i, s)
    ensures TxOk(SetSock(d, i, s))
  {
    var d' := SetSock(d, i, s);
    assert forall j: nat :: Scanning(d', j) <==> Scanning(d, j);
    assert forall j: nat :: HasFd(d', j) <==> HasFd(d, j);
  }

  lemma SetKeepsRx(d: Dev, i: nat, s: Sock)
    requires RxOk(d) && MayBecome(d, i, s)
    ensures RxOk(SetSock(d, i, s))
  {
    var d' := SetSock(d, i, s);
    assert forall j: nat :: HasFd(d', j) <==> HasFd(d, j);
    assert forall j: nat :: Seen(d', j) <==> Seen(d, j);
  }

  lemma SetKeepsShape(d: Dev, i: nat, s: Sock)
    requires Shape(d) && MayBecome(d, i, s)
    ensures Shape(SetSock(d, i, s))
  {
    SetKeepsLists(d, i, s);
    SetKeepsFds(d, i, s);
    SetKeepsTx(d, i, s);
    SetKeepsRx(d, i, s);
  }

  /** The tx scan is past sock i, which it may have queued. */
  lemma PassTxKeepsShape(d: Dev, i: nat, queue: bool)
    requires Shape(d) && Scanning(d, i)
    requires queue ==> HasFd(d, i) && Writing(d.socks[i]) && Buffering(d.socks[i])
    ensures var d1 := d.(tx := TxScan(d.tx.todo - {i}));
      Shape(if queue then d1.(txq := d.txq + {i}, wfd := d.wfd[d.socks[i].fd := i]) else d1)
  {
    var d1 := d.(tx := TxScan(d.tx.todo - {i}));
    var d' := if queue then d1.(txq := d.txq + {i}, wfd := d.wfd[d.socks[i].fd := i]) else d1;
    assert forall j: nat :: HasFd(d', j) <==> HasFd(d, j);
    assert forall j: nat :: Scanning(d', j) <==> Scanning(d, j) && j != i;
    assert forall j: nat :: Seen(d', j) <==> Seen(d, j);
  }

  lemma SetAndPass(d: Dev, i: nat, s: Sock)
    requires Shape(d) && Scanning(d, i) && MayBecome(d, i, s)
    ensures Shape(SetSock(d.(tx := TxScan(d.tx.todo - {i})), i, s))
  {
    SetKeepsShape(d, i, s);
    PassTxKeepsShape(SetSock(d, i, s), i, false);
  }

  lemma LiveHasFd(d: Dev, i: nat)
    requires Shape(d) && i < |d.socks| && (Writing(d.socks[i]) || d.socks[i].state == CONNECTING)
    ensures HasFd(d, i) && i in d.inuse
  {
  }

  lemma ScannedLive(d: Dev, i: nat)
    requires Shape(d) && Scanning(d, i) && i < |d.socks| && Writing(d.socks[i])
    ensures HasFd(d, i) && i in d.inuse && i !in d.txq
  {
  }

  lemma TxVisitKeepsShape(d: Dev, i: nat, late: bool)
    requires Shape(d) && Scanning(d, i) && i < |d.socks|
    ensures Shape(VisitTx(d, i, late))
  {
    var s := d.socks[i];
    if s.state != CLOSING_TX && s.state != CONNECTED {
      PassTxKeepsShape(d, i, false);
    } else {
      ScannedLive(d, i);
      if s.state == CLOSING_TX && !Buffering(s) {
        SetAndPass(d, i, s.(state := CLOSING_RX));
      } else if s.local == ALL && late {
        SetAndPass(d, i, CloseSock(s));
      } else {
        PassTxKeepsShape(d, i, !s.local.rx && Buffering(s));
      }
    }
  }

  /** The rx scan closes sock i. */
  lemma CloseKeepsShape(d: Dev, i: nat)
    requires Shape(d) && d.rx.RxScan? && i in d.inuse && i !in d.rx.seen && i < |d.socks|
    requires d.socks[i].state == CLOSING_RX
    ensures d.socks[i].fd in d.open && d.socks[i].fd !in d.wfd && d.socks[i].fd !in d.rfd
    ensures Shape(VisitRx(d, i, true))
  {
    var d' := VisitRx(d, i, true);
    assert HasFd(d, i);
    assert forall j: nat :: HasFd(d', j) <==> HasFd(d, j) && j != i;
    assert forall j: nat :: Scanning(d', j) <==> Scanning(d, j);
    assert forall j: nat :: Seen(d', j) <==> Seen(d, j) || j == i;
  }

  lemma PollKeepsShape(d: Dev, i: nat, poll: bool)
    requires Shape(d) && d.rx.RxScan? && i in d.inuse && i !in d.rx.seen && i < |d.socks|
    requires d.socks[i].state != CLOSING_RX
    ensures Shape(VisitRx(d, i, poll))
  {
    var d' := VisitRx(d, i, poll);
    assert d'.socks == d.socks && d'.open == d.open && d'.closing == d.closing;
    assert forall j: nat :: HasFd(d', j) <==> HasFd(d, j);
    assert forall j: nat :: Scanning(d', j) <==> Scanning(d, j);
    assert forall j: nat :: Seen(d', j) <==> Seen(d, j) || j == i;
  }

  lemma ConnectKeepsShape(d: Dev, i: nat, s: Sock)
    requires Shape(d) && !d.tx.TxScan? && !d.rx.RxScan? && i in d.free && i < |d.socks|
    requires s.state == CONNECTED || s.state == CONNECTING ==> s.fd == d.nextFd
    requires s.state == CONNECTED || s.state == CONNECTING || s.state == FREE
    ensures Shape(Installed(d, i, s))
  {
    var d' := Installed(d, i, s);
    assert !HasFd(d, i);
    assert forall j: nat :: HasFd(d', j) <==> HasFd(d, j) || (j == i && s.state != FREE);
    assert forall j: nat :: !Scanning(d', j) && Seen(d', j);
  }

  lemma FreeKeepsShape(d: Dev)
    requires Shape(d) && Enabled(d, RxFree)
    ensures Shape(Step(d, RxFree))
  {
    var d' := Step(d, RxFree);
    assert forall j: nat :: HasFd(d', j) <==> HasFd(d, j);
    assert forall j: nat :: HasFd(d, j) ==> d'.socks[j] == d.socks[j];
    assert forall j: nat :: Scanning(d', j) <==> Scanning(d, j);
    assert forall j: nat :: Seen(d', j);
  }

  lemma BeginKeepsShape(d: Dev, e: Event)
    requires Shape(d) && (e.TxBegin? || e.TxEnd? || e.RxBegin? || e.RxEnd?)
    ensures Shape(Step(d, e))
  {
    var d' := Step(d, e);
    assert forall j: nat :: HasFd(d', j) <==> HasFd(d, j);
    assert forall j: nat :: Seen(d', j) ==> Seen(d, j) || e.RxEnd?;
  }

  // ----- and the socks -----

  /** What an operation may do to the state, the descriptor and the buffer. */
  predicate Shaped(s: Sock, s': Sock) {
    s'.fd == s.fd && Writing(s') && (s'.state == CONNECTED && Buffering(s) ==> Buffering(s'))
  }

  lemma HandleWriteShaped(s: Sock, p: Payload, r: IoResult)
    requires Writable(s)
    ensures var s' := HandleWrite(s, p, r).0; s'.fd == s.fd && s'.state == CONNECTED && (Buffering(s) ==> Buffering(s'))
  {
  }

  lemma WriteShaped(s: Sock, p: Payload, r: IoResult)
    requires Writable(s)
    ensures Shaped(s, Rw(s, p, r))
  {
    HandleWriteShaped(s, p, r);
    var (s', o) := HandleWrite(s, p, r);
    assert Rw(s, p, r) == CloseSock(s') || Rw(s, p, r) == s' || Rw(s, p, r) == s'.(creditUpdate := true);
  }

  lemma DrainShaped(s: Sock, r: IoResult)
    requires Applies(s, Drain(r))
    ensures Apply(s, Drain(r)).fd == s.fd && Writing(Apply(s, Drain(r)))
  {
  }

  lemma ApplyShaped(s: Sock, op: SockOp)
    requires BufferOk(s) && Applies(s, op) && !op.Drain?
    ensures Shaped(s, Apply(s, op))
  {
    if op.OpRw? && Writable(s) { WriteShaped(s, op.p, op.r); }
  }

  lemma OpKeepsInv(d: Dev, i: nat, s: Sock, op: SockOp)
    requires Inv(d) && i < |d.socks| && Applies(s, op) && !op.Drain?
    requires !Overruns(s, op)
    requires s == d.socks[i].(peerBufAlloc := s.peerBufAlloc, peerFwdCnt := s.peerFwdCnt)
    ensures Inv(SetSock(d, i, Apply(s, op)))
  {
    assert SockOk(d.socks[i]) && SockOk(s);
    ApplyKeepsOk(s, op);
    ApplyShaped(s, op);
    LiveHasFd(d, i);
    SetKeepsShape(d, i, Apply(s, op));
  }

  lemma DrainKeepsInv(d: Dev, i: nat, ready: bool, r: IoResult)
    requires Inv(d) && Enabled(d, DrainQueued(i, ready, r))
    ensures Inv(Step(d, DrainQueued(i, ready, r)))
  {
    var d1 := d.(txq := d.txq - {i});
    assert Shape(d1) by {
      assert forall j: nat :: HasFd(d1, j) <==> HasFd(d, j);
      assert forall j: nat :: Scanning(d1, j) <==> Scanning(d, j);
      assert forall j: nat :: Seen(d1, j) <==> Seen(d, j);
    }
    if ready && Applies(d.socks[i], Drain(r)) {
      assert SockOk(d.socks[i]);
      ApplyKeepsOk(d.socks[i], Drain(r));
      DrainShaped(d.socks[i], r);
      LiveHasFd(d1, i);
      SetKeepsShape(d1, i, Apply(d.socks[i], Drain(r)));
    }
  }

  lemma VisitsKeepSocks(d: Dev, i: nat, late: bool)
    requires SocksOk(d) && i < |d.socks|
    ensures d.tx.TxScan? ==> SocksOk(VisitTx(d, i, late))
    ensures d.rx.RxScan? ==> SocksOk(VisitRx(d, i, late))
  {
    assert SockOk(d.socks[i]);
    CloseKeepsOk(d.socks[i]);
  }

  lemma FreshSockOk(st: SockState, fd: int, sndbuf: nat, peerBuf: nat, peerFwd: nat)
    requires st != CLOSING_TX && st != CLOSING_RX
    ensures SockOk(Allocated(st, fd, sndbuf, peerBuf, peerFwd))
  {
    assert [] + Allocated(st, fd, sndbuf, peerBuf, peerFwd).buf[0..] == [];
  }

  lemma ConnectStepKeepsShape(d: Dev, e: Event)
    requires Shape(d) && (e.Connect? || e.ConnectFailed?) && Enabled(d, e)
    ensures Shape(Step(d, e))
  {
    if e.Connect? {
      ConnectKeepsShape(d, e.i, Allocated(e.st, d.nextFd, e.sndbuf, e.peerBuf, e.peerFwd));
    } else {
      ConnectKeepsShape(d, e.i, Allocated(FREE, if e.stale then d.nextFd else d.socks[e.i].fd, 0, 0, 0));
    }
  }

  lemma ConnectKeepsSocks(d: Dev, e: Event)
    requires SocksOk(d) && (e.Connect? || e.ConnectFailed?) && Enabled(d, e)
    ensures SocksOk(Step(d, e))
  {
    if e.Connect? {
      FreshSockOk(e.st, d.nextFd, e.sndbuf, e.peerBuf, e.peerFwd);
    } else {
      FreshSockOk(FREE, if e.stale then d.nextFd else d.socks[e.i].fd, 0, 0, 0);
    }
  }

  lemma FreeKeepsSocks(d: Dev)
    requires SocksOk(d)
    ensures SocksOk(d.(socks := Freed(d.socks, d.closing)))
  {
    forall i: nat | i < |d.socks| ensures SockOk(Freed(d.socks, d.closing)[i]) { FreedOk(d.socks[i]); }
  }

  lemma FreedOk(s: Sock)
    requires SockOk(s)
    ensures SockOk(s.(state := FREE))
  {
  }

  lemma RxVisitKeepsShape(d: Dev, i: nat, poll: bool)
    requires Shape(d) && Enabled(d, RxVisit(i, poll))
    ensures Shape(VisitRx(d, i, poll))
  {
    if d.socks[i].state == CLOSING_RX { CloseKeepsShape(d, i); } else { PollKeepsShape(d, i, poll); }
  }

  lemma ScanStepKeepsInv(d: Dev, e: Event)
    requires Inv(d) && Enabled(d, e) && !e.Packet? && !e.DrainQueued? && !e.RxSock?
    ensures Inv(Step(d, e))
  {
    match e
    case TxVisit(i, late) => TxVisitKeepsShape(d, i, late); VisitsKeepSocks(d, i, late);
    case RxVisit(i, poll) => RxVisitKeepsShape(d, i, poll); VisitsKeepSocks(d, i, poll);
    case Connect(_, _, _, _, _) => ConnectStepKeepsShape(d, e); ConnectKeepsSocks(d, e);
    case ConnectFailed(_, _) => ConnectStepKeepsShape(d, e); ConnectKeepsSocks(d, e);
    case RxFree => FreeKeepsShape(d); FreeKeepsSocks(d);
    case _ => BeginKeepsShape(d, e);
  }

  lemma StepKeepsInv(d: Dev, e: Event)
    requires Inv(d)
    ensures Inv(Step(d, e))
  {
    if Enabled(d, e) {
      if e.Packet? {
        OpKeepsInv(d, e.i, d.socks[e.i].(peerBufAlloc := e.peerBuf, peerFwdCnt := e.peerFwd), e.op);
      } else if e.DrainQueued? {
        DrainKeepsInv(d, e.i, e.ready, e.r);
      } else if e.RxSock? {
        OpKeepsInv(d, e.i, d.socks[e.i], e.op);
      } else {
        ScanStepKeepsInv(d, e);
      }
    }
  }

  /** What a packet makes of the device, overrun or not: the invariant holds exactly if the
      packet does not overrun the write buffer. */
  lemma PacketOkIff(d: Dev, i: nat, peerBuf: nat, peerFwd: nat, op: SockOp)
    requires Inv(d) && d.tx.TxWork? && i in d.inuse && i < |d.socks| && TxOp(op) && Applies(d.socks[i], op)
    ensures Inv(SetSock(d, i, Apply(d.socks[i].(peerBufAlloc := peerBuf, peerFwdCnt := peerFwd), op)))
            <==> !Overruns(d.socks[i], op)
  {
    var s := d.socks[i].(peerBufAlloc := peerBuf, peerFwdCnt := peerFwd);
    if Overruns(d.socks[i], op) {
      assert SockOk(d.socks[i]);
      OverrunBreaks(s, op);
      LongBufferBreaks(d, i, Apply(s, op));
    } else {
      OpKeepsInv(d, i, s, op);
    }
  }

  lemma LongBufferBreaks(d: Dev, i: nat, s: Sock)
    requires i < |d.socks| && |s.buf| > WRITE_BUF_LENGTH
    ensures !SocksOk(SetSock(d, i, s))
  {
    assert !SockOk(SetSock(d, i, s).socks[i]);
  }

  function Run(d: Dev, es: seq<Event>): Dev {
    if es == [] then d else Step(Run(d, es[..|es| - 1]), es[|es| - 1])
  }

  lemma {:induction false} RunKeepsInv(d: Dev, es: seq<Event>)
    requires Inv(d)
    ensures Inv(Run(d, es))
  {
    if es != [] {
      RunKeepsInv(d, es[..|es| - 1]);
      StepKeepsInv(Run(d, es[..|es| - 1]), es[|es| - 1]);
    }
  }

  function Below(n: nat): (r: set<nat>)
    ensures forall i: nat :: i in r <==> i < n
  {
    if n == 0 then {} else Below(n - 1) + {n - 1}
  }

  /** The device as pci_vtsock_init leaves it: n socks, all on the free list. */
  ghost function Initial(n: nat): (d: Dev)
    ensures Inv(d)
  {
    FreshSockOk(FREE, -1, 0, 0, 0);
    Dev(seq(n, i => Allocated(FREE, -1, 0, 0, 0)), Below(n), {}, TxWork, {}, map[], RxWork, {}, map[], {}, map[], 0)
  }

  // ----- what every reachable device promises -----

  /** Every sock is on exactly one list; a descriptor is open exactly if it belongs to a live
      sock, to one only; nothing a thread selects on has been closed under it. */
  lemma DescriptorsOwned(d: Dev, f: int, k: nat)
    requires Inv(d) && k < |d.socks|
    ensures k in d.free <==> k !in d.inuse
    ensures k in d.free ==> d.socks[k].state == FREE
    ensures f in d.open <==> exists i: nat :: HasFd(d, i) && d.socks[i].fd == f
    ensures forall i: nat, j: nat :: HasFd(d, i) && HasFd(d, j) && d.socks[i].fd == d.socks[j].fd ==> i == j
    ensures f in d.wfd || f in d.rfd ==> f in d.open
  {
  }

  /** The rx thread closes open descriptors only, and none that either thread selects on. */
  lemma ClosesUnwatched(d: Dev, i: nat, poll: bool)
    requires Inv(d) && Enabled(d, RxVisit(i, poll)) && d.socks[i].state == CLOSING_RX
    ensures d.socks[i].fd in d.open && d.socks[i].fd !in d.wfd && d.socks[i].fd !in d.rfd
    ensures Step(d, RxVisit(i, poll)).open == d.open - {d.socks[i].fd}
    ensures d.socks[i].peer == ALL && i !in d.txq && i !in d.rxq
  {
    CloseKeepsShape(d, i);
    assert SockOk(d.socks[i]);
  }

  /** buffer_drain's assertions, and the one in shutdown_local_sock behind EPIPE, hold when
      the tx thread comes to drain a queued sock, whatever happened since its scan. */
  lemma DrainFindsData(d: Dev, i: nat)
    requires Inv(d) && i in d.txq && d.socks[i].state == CONNECTED
    ensures d.socks[i].fd in d.open && d.socks[i].head < |d.socks[i].buf| && !d.socks[i].local.rx
  {
    assert SockOk(d.socks[i]);
  }

  /** A sock the rx thread comes back to after its select still has its descriptor. */
  lemma ReadFindsFd(d: Dev, i: nat)
    requires Inv(d) && i in d.rxq
    ensures d.socks[i].fd in d.open && d.open[d.socks[i].fd] == i
  {
  }

  /** Descriptors are numbered upwards, and only a new one is ever opened. */
  lemma StepOpensNew(d: Dev, e: Event, f: int)
    requires f < d.nextFd && f !in d.open
    ensures f < Step(d, e).nextFd && f !in Step(d, e).open
  {
  }

  /** What was closed stays closed over every run; with ClosesUnwatched, a descriptor is
      closed at most once. */
  lemma {:induction false} ClosedForGood(d: Dev, es: seq<Event>, f: int)
    requires f < d.nextFd && f !in d.open
    ensures f < Run(d, es).nextFd && f !in Run(d, es).open
  {
    if es != [] {
      ClosedForGood(d, es[..|es| - 1], f);
      StepOpensNew(Run(d, es[..|es| - 1]), es[|es| - 1], f);
    }
  }
}
