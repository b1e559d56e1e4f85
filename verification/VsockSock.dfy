/** One connection of the vsock device: the write buffer that absorbs short writes, the
    credit counters and the half-close flags (src/lib/pci_virtio_sock.c).

    Operating-system calls are parameters.  Each operation is a function on the value of a
    sock; module VsockSockObject performs them in place. */
module VsockSock {
  import opened VsockIovec

  const U32 := 0x1_0000_0000
  const WRITE_BUF_LENGTH := 128 * 1024

  datatype SockState = FREE | CONNECTING | CONNECTED | CLOSING_TX | CLOSING_RX

  /** VIRTIO_VSOCK_FLAG_SHUTDOWN_RX and _TX. */
  datatype Shut = Shut(rx: bool, tx: bool)
  const ALL := Shut(true, true)
  const NONE := Shut(false, false)

  function Or(a: Shut, b: Shut): Shut { Shut(a.rx || b.rx, a.tx || b.tx) }

  /** The fields of struct pci_vtsock_sock; `buf` is write_buf[0..write_buf_tail).
      The last seven are history: the bytes the fd took, the payload bytes offered to
      handle_write, whether bytes were dropped, whether the fd's write side was shut down,
      fwd_cnt without wrap-around, the bytes taken by short writev calls, and the unwrapped
      fwd_cnt in the last header made for the guest. */
  datatype Sock = Sock(
    state: SockState, fd: int,
    local: Shut, peer: Shut,
    bufAlloc: nat, fwdCnt: nat, creditUpdate: bool,
    rxCnt: nat, peerBufAlloc: nat, peerFwdCnt: nat,
    buf: seq<byte>, head: nat,
    sent: seq<byte>, offered: seq<byte>, lost: bool, wrShut: bool, fwd: nat, leaked: nat, told: nat)

  /** What write or writev on the fd returned. */
  datatype IoResult = Wrote(n: nat) | Eagain | Epipe | Failed

  /** EAGAIN counts as nothing written. */
  function Num(r: IoResult): nat { match r case Wrote(n) => n case _ => 0 }

  predicate Buffering(s: Sock) { s.buf != [] }

  /** alloc_sock, then set_socket_options: SO_SNDBUF may only lower the window. */
  function Allocated(st: SockState, fd: int, bufAlloc: nat, peerBufAlloc: nat, peerFwdCnt: nat): Sock {
    Sock(st, fd, NONE, NONE, Min(bufAlloc, WRITE_BUF_LENGTH), 0, false, 0, peerBufAlloc, peerFwdCnt, [], 0,
         [], [], false, false, 0, 0, 0)
  }

  /** shutdown_peer_local_fd: reflect the peer's shutdown onto the fd, deferring SHUT_WR
      while data is buffered. */
  function ShutdownPeerLocalFd(s: Sock, mode: Shut): Sock {
    var newPeer := Or(mode, s.peer);
    var setTx := newPeer.tx && !s.peer.tx;
    var setRx := newPeer.rx && !s.peer.rx;
    var shutWr := setTx && !Buffering(s);
    s.(peer := newPeer, local := Shut(s.local.rx || shutWr, s.local.tx || setRx), wrShut := s.wrShut || shutWr)
  }

  /** close_sock. */
  function CloseSock(s: Sock): Sock { ShutdownPeerLocalFd(s, ALL).(state := CLOSING_TX) }

  /** shutdown_local_sock: closing our receiving side discards what is buffered. */
  function ShutdownLocal(s: Sock, mode: Shut): Sock {
    if s.state != CONNECTED then s
    else
      var s1 := s.(local := Or(mode, s.local));
      if s1.local.rx && Buffering(s1) then s1.(buf := [], head := 0, lost := true) else s1
  }

  /** An OP_RW packet: hdr.len, the bytes of the chain behind the header, which need not be as
      many, and whether an empty segment trails them. */
  datatype Payload = Payload(len: nat, data: seq<byte>, slack: bool)

  /** A packet whose header is right. */
  function Whole(data: seq<byte>): Payload { Payload(|data|, data, false) }

  /** What buffer_write asserts after the copy. */
  predicate Matches(p: Payload) { p.len == |p.data| && !p.slack }

  /** buffer_write's test, on a 32-bit sum. */
  predicate BufferAccepts(s: Sock, len: nat) { (|s.buf| + len) % U32 <= WRITE_BUF_LENGTH }

  /** The outcome of handle_write: -1, 0 or 1, or a failed assertion. */
  datatype WriteOutcome = Reset | Taken | TakenUpdate | Abort

  /** buffer_write: a refusal loses data, and resets the connection; else the copy, bounded by
      hdr.len and the payload alone, and then the assertions. */
  function BufferWrite(s: Sock, p: Payload): (Sock, WriteOutcome) {
    if !BufferAccepts(s, p.len) then (s.(offered := s.offered + p.data, lost := true), Reset)
    else
      var copied := p.data[..Min(p.len, |p.data|)];
      (s.(buf := s.buf + copied, offered := s.offered + copied), if Matches(p) then Taken else Abort)
  }

  /** What is left of a packet once writev took n bytes: len - num is a 32-bit difference. */
  function Left(p: Payload, n: nat): Payload
    requires n <= |p.data|
  {
    Payload((p.len - n) % U32, p.data[n..], p.slack)
  }

  /** The fd took n bytes of the payload without wait: as many as hdr.len says, or not. */
  function WriteSome(s: Sock, p: Payload, n: nat): (Sock, WriteOutcome)
    requires n <= |p.data|
  {
    if n == p.len then (Took(s, p.data, n).(fwdCnt := (s.fwdCnt + n) % U32, fwd := s.fwd + n), TakenUpdate)
    else BufferWrite(Took(s, p.data, n).(leaked := s.leaked + n), Left(p, n))
  }

  function Took(s: Sock, data: seq<byte>, n: nat): Sock
    requires n <= |data|
  {
    s.(sent := s.sent + data[..n], offered := s.offered + data[..n])
  }

  /** handle_write.  The SHUTDOWN reply to EPIPE carries fwd_cnt. */
  function HandleWrite(s: Sock, p: Payload, r: IoResult): (Sock, WriteOutcome) {
    if Buffering(s) then BufferWrite(s, p)
    else
      match r
      case Epipe =>
        (ShutdownLocal(s.(offered := s.offered + p.data, lost := true), Shut(true, false)).(told := s.fwd), Taken)
      case Failed => (s.(offered := s.offered + p.data, lost := true), Reset)
      case _ => WriteSome(s, p, Min(Num(r), |p.data|))
  }

  /** The end of buffer_drain, once all is written: only now fwd_cnt moves, and the deferred
      SHUT_WR is performed. */
  function Drained(s: Sock): Sock {
    var shutWr := s.peer.tx && !s.local.rx;
    s.(buf := [], head := 0, fwdCnt := (s.fwdCnt + |s.buf|) % U32, fwd := s.fwd + |s.buf|,
       local := Shut(s.local.rx || shutWr, s.local.tx), wrShut := s.wrShut || shutWr, creditUpdate := true)
  }

  /** buffer_drain: write the rest of the buffer. */
  function BufferDrain(s: Sock, r: IoResult): Sock
    requires s.head < |s.buf|
  {
    match r
    case Eagain => s
    case Epipe => ShutdownLocal(s, Shut(true, false)).(told := s.fwd)
    case Failed => CloseSock(s)
    case Wrote(m) =>
      var n := Min(m, |s.buf| - s.head);
      var s1 := s.(head := s.head + n, sent := s.sent + s.buf[s.head..s.head + n]);
      if s1.head < |s.buf| then s1 else Drained(s1)
  }

  /** The room left in the guest's buffer, from the 32-bit fields. */
  function PeerFree(alloc: nat, rxCnt: nat, fwdCnt: nat): nat { (alloc - (rxCnt - fwdCnt) % U32) % U32 }

  // ----- the packets and events that reach a locked sock -----

  datatype SockOp =
    | OpRw(p: Payload, r: IoResult)           // OP_RW
    | OpShutdown(flags: Shut, reserved: bool) // OP_SHUTDOWN
    | OpResponse                              // OP_RESPONSE
    | OpCredit(request: bool)                 // OP_CREDIT_UPDATE, OP_CREDIT_REQUEST
    | OpReset                                 // OP_RST, OP_INVALID, OP_REQUEST on a known sock
    | Drain(r: IoResult)                      // buffer_drain, from the tx thread
    | ReadData(n: nat)                        // pci_vtsock_proc_rx read n > 0 bytes
    | ReadNothing                             // it found no room at the peer, or EAGAIN
    | ReadEof
    | ReadFailed
    | CreditSent                              // the rx thread told the peer our credit
    | Deadline                                // no RST came back within SHUTDOWN_RST_DELAY

  /** The callers' checks before the operation; hdr.len is a 32-bit field. */
  predicate Applies(s: Sock, op: SockOp) {
    match op
    case Drain(_) => s.state == CONNECTED && s.head < |s.buf|
    case OpRw(p, _) => p.len < U32 && (s.state == CONNECTED || s.state == CONNECTING)
    case ReadData(_) => s.state == CONNECTED
    case ReadNothing => s.state == CONNECTED
    case ReadEof => s.state == CONNECTED && s.local != ALL
    case ReadFailed => s.state == CONNECTED
    case CreditSent => s.state == CONNECTED
    case Deadline => s.state == CONNECTED && s.local == ALL
    case _ => s.state == CONNECTED || s.state == CONNECTING
  }

  function Rw(s: Sock, p: Payload, r: IoResult): Sock {
    if s.state != CONNECTED || s.peer.tx || s.local.rx then CloseSock(s)
    else
      var (s', o) := HandleWrite(s, p, r);
      match o
      case Reset => CloseSock(s')
      case TakenUpdate => s'.(creditUpdate := true)
      case _ => s'
  }

  function Apply(s: Sock, op: SockOp): Sock
    requires Applies(s, op)
  {
    match op
    case OpRw(p, r) => Rw(s, p, r)
    case OpShutdown(flags, reserved) =>
      if s.state != CONNECTED || reserved || flags == NONE then CloseSock(s)
      else
        var s' := ShutdownPeerLocalFd(s, flags);
        if s'.peer == ALL then CloseSock(s') else s'
    case OpResponse => if s.state == CONNECTING then s.(state := CONNECTED) else CloseSock(s)
    case OpCredit(request) =>
      if s.state != CONNECTED then CloseSock(s) else if request then s.(creditUpdate := true) else s
    case OpReset => CloseSock(s)
    case Drain(r) => BufferDrain(s, r)
    case ReadData(n) => s.(rxCnt := (s.rxCnt + n) % U32, creditUpdate := false, told := s.fwd)
    case ReadNothing => s.(creditUpdate := false)
    case ReadEof => ShutdownLocal(s, Shut(false, true)).(creditUpdate := false, told := s.fwd)
    case ReadFailed => CloseSock(s)
    case CreditSent => s.(creditUpdate := false, told := s.fwd)
    case Deadline => CloseSock(s)
  }

  // ----- what every operation keeps -----

  /** The buffer indices, and the promises about the fd's write side: it is never shut down
      while data is buffered, and a shutdown the peer asked for is only ever put off by data. */
  predicate BufferOk(s: Sock) {
    && |s.buf| <= WRITE_BUF_LENGTH && s.bufAlloc <= WRITE_BUF_LENGTH
    && (if Buffering(s) then s.head < |s.buf| else s.head == 0)
    && (s.wrShut ==> s.local.rx)
    && (s.local.rx ==> !Buffering(s))
    && (s.peer.tx && !Buffering(s) ==> s.local.rx) && (s.peer.rx ==> s.local.tx)
    && (s.state == CLOSING_TX || s.state == CLOSING_RX ==> s.peer == ALL)
  }

  /** The stream: what the fd took followed by what is buffered is what was offered, up to a
      loss that resets the connection or closes our receiving side. */
  predicate StreamOk(s: Sock)
    requires s.head <= |s.buf|
  {
    && s.sent + s.buf[s.head..] <= s.offered
    && (!s.lost ==> s.sent + s.buf[s.head..] == s.offered)
    && (s.lost && (s.state == CONNECTING || s.state == CONNECTED) ==> s.local.rx)
  }

  /** The credit: fwd_cnt, unwrapped, plus the buffer plus the bytes taken by short writev
      calls is what was offered. */
  predicate CreditOk(s: Sock) {
    && s.fwdCnt == s.fwd % U32
    && s.fwd + s.leaked + |s.buf| <= |s.offered|
    && (!s.lost ==> s.fwd + s.leaked + |s.buf| == |s.offered|)
  }

  predicate SockOk(s: Sock) { BufferOk(s) && StreamOk(s) && CreditOk(s) }

  /** The caller's guard in pci_vtsock_proc_tx before handle_write. */
  predicate Writable(s: Sock) { s.state == CONNECTED && !s.peer.tx && !s.local.rx }

  /** Up to the reset that follows a refusal. */
  predicate WroteOk(s: Sock, o: WriteOutcome) {
    && BufferOk(s) && StreamOk(s.(state := CLOSING_TX)) && CreditOk(s)
    && (o != Reset ==> StreamOk(s))
  }

  /** The copy in buffer_write runs past the buffer: the 32-bit sum wraps, so the test passes,
      and the payload does not fit. */
  predicate Overflows(s: Sock, p: Payload) {
    |s.buf| + p.len >= U32 && |s.buf| + |p.data| > WRITE_BUF_LENGTH
  }

  lemma BufferedOk(s: Sock, data: seq<byte>)
    requires SockOk(s) && Writable(s) && |s.buf| + |data| <= WRITE_BUF_LENGTH
    ensures SockOk(s.(buf := s.buf + data, offered := s.offered + data))
  {
    assert (s.buf + data)[s.head..] == s.buf[s.head..] + data;
    assert s.sent + (s.buf[s.head..] + data) == (s.sent + s.buf[s.head..]) + data;
  }

  lemma RefusedOk(s: Sock, data: seq<byte>)
    requires SockOk(s) && Writable(s)
    ensures WroteOk(s.(offered := s.offered + data, lost := true), Reset)
  {
  }

  /** A sum that does not wrap is tested as it is. */
  lemma AcceptedFits(s: Sock, p: Payload)
    requires |s.buf| <= WRITE_BUF_LENGTH && p.len < U32 && BufferAccepts(s, p.len)
    ensures |s.buf| + Min(p.len, |p.data|) > WRITE_BUF_LENGTH <==> Overflows(s, p)
  {
  }

  lemma BufferWriteOk(s: Sock, p: Payload)
    requires SockOk(s) && Writable(s) && p.len < U32
    ensures var (s', o) := BufferWrite(s, p); WroteOk(s', o) <==> !Overflows(s, p)
  {
    if !BufferAccepts(s, p.len) {
      RefusedOk(s, p.data);
      assert |s.buf| + p.len < U32;
    } else {
      AcceptedFits(s, p);
      if Overflows(s, p) {
        assert !BufferOk(BufferWrite(s, p).0);
      } else {
        BufferedOk(s, p.data[..Min(p.len, |p.data|)]);
      }
    }
  }

  /** The first n bytes are on the fd, and not accounted for. */
  lemma TookOk(s: Sock, data: seq<byte>, n: nat)
    requires SockOk(s) && Writable(s) && !Buffering(s) && n <= |data|
    ensures SockOk(Took(s, data, n).(leaked := s.leaked + n))
  {
    assert s.sent + s.buf[s.head..] == s.sent;
    assert (s.sent + data[..n]) + s.buf[s.head..] == s.sent + data[..n];
  }

  lemma WriteAllOk(s: Sock, data: seq<byte>, n: nat)
    requires SockOk(s) && Writable(s) && !Buffering(s) && n <= |data|
    ensures WroteOk(Took(s, data, n).(fwdCnt := (s.fwdCnt + n) % U32, fwd := s.fwd + n), TakenUpdate)
  {
    TookOk(s, data, n);
    assert (s.fwd % U32 + n) % U32 == (s.fwd + n) % U32;
  }

  lemma WriteSomeOk(s: Sock, p: Payload, n: nat)
    requires SockOk(s) && Writable(s) && !Buffering(s) && n <= |p.data| && p.len < U32
    ensures var (s', o) := WriteSome(s, p, n); WroteOk(s', o)
  {
    if n == p.len {
      WriteAllOk(s, p.data, n);
    } else {
      var s1 := Took(s, p.data, n).(leaked := s.leaked + n);
      TookOk(s, p.data, n);
      assert Writable(s1) && !Overflows(s1, Left(p, n));
      BufferWriteOk(s1, Left(p, n));
      assert WriteSome(s, p, n) == BufferWrite(s1, Left(p, n));
    }
  }

  lemma HandleWriteOk(s: Sock, p: Payload, r: IoResult)
    requires SockOk(s) && Writable(s) && p.len < U32
    ensures var (s', o) := HandleWrite(s, p, r); WroteOk(s', o) <==> !Overflows(s, p)
  {
    if Buffering(s) {
      BufferWriteOk(s, p);
    } else if !r.Epipe? && !r.Failed? {
      WriteSomeOk(s, p, Min(Num(r), |p.data|));
    } else {
      assert s.sent + s.buf[s.head..] == s.sent <= s.offered + p.data;
    }
  }

  lemma ResetOk(s: Sock)
    requires WroteOk(s, Reset)
    ensures SockOk(CloseSock(s))
  {
  }

  lemma WriteKeepsOk(s: Sock, p: Payload, r: IoResult)
    requires SockOk(s) && Writable(s) && p.len < U32 && !Overflows(s, p)
    ensures SockOk(Rw(s, p, r))
  {
    var (s', o) := HandleWrite(s, p, r);
    HandleWriteOk(s, p, r);
    if o.Reset? { ResetOk(s'); }
  }

  lemma CloseKeepsOk(s: Sock)
    requires SockOk(s)
    ensures SockOk(CloseSock(s))
  {
  }

  lemma ShutdownKeepsOk(s: Sock, mode: Shut)
    requires SockOk(s) && s.state == CONNECTED
    ensures SockOk(ShutdownPeerLocalFd(s, mode)) && SockOk(ShutdownLocal(s, mode))
  {
  }

  /** After write took n more bytes. */
  predicate DrainingOk(s: Sock) {
    && s.state == CONNECTED && 0 < |s.buf| && s.head <= |s.buf|
    && BufferOk(s.(head := 0)) && StreamOk(s) && CreditOk(s)
  }

  lemma DrainedOk(s: Sock)
    requires DrainingOk(s) && s.head == |s.buf|
    ensures SockOk(Drained(s))
  {
    assert Drained(s).buf[0..] == [] && s.buf[s.head..] == [];
    assert (s.fwd % U32 + |s.buf|) % U32 == (s.fwd + |s.buf|) % U32;
  }

  lemma DrainingKeepsOk(s: Sock, n: nat)
    requires SockOk(s) && s.state == CONNECTED && s.head + n <= |s.buf| && Buffering(s)
    ensures DrainingOk(s.(head := s.head + n, sent := s.sent + s.buf[s.head..s.head + n]))
  {
    var s1 := s.(head := s.head + n, sent := s.sent + s.buf[s.head..s.head + n]);
    assert s.buf[s.head..] == s.buf[s.head..s.head + n] + s.buf[s.head + n..];
    assert s1.sent + s1.buf[s1.head..] == s.sent + s.buf[s.head..];
  }

  lemma DrainWroteOk(s: Sock, m: nat)
    requires SockOk(s) && s.state == CONNECTED && s.head < |s.buf|
    ensures SockOk(BufferDrain(s, Wrote(m)))
  {
    var n := Min(m, |s.buf| - s.head);
    DrainingKeepsOk(s, n);
    var s1 := s.(head := s.head + n, sent := s.sent + s.buf[s.head..s.head + n]);
    if s1.head == |s.buf| { DrainedOk(s1); }
  }

  lemma DrainKeepsOk(s: Sock, r: IoResult)
    requires SockOk(s) && s.state == CONNECTED && s.head < |s.buf|
    ensures SockOk(BufferDrain(s, r))
  {
    match r
    case Eagain =>
    case Epipe => ShutdownKeepsOk(s, Shut(true, false));
    case Failed => CloseKeepsOk(s);
    case Wrote(m) => DrainWroteOk(s, m);
  }

  /** The one operation that breaks them: OP_RW behind buffered data with a header length that
      wraps the sum and a payload that does not fit. */
  predicate Overruns(s: Sock, op: SockOp) { op.OpRw? && Writable(s) && Overflows(s, op.p) }

  lemma OverrunBreaks(s: Sock, op: SockOp)
    requires SockOk(s) && Applies(s, op) && Overruns(s, op)
    ensures |Apply(s, op).buf| > WRITE_BUF_LENGTH
  {
    assert BufferAccepts(s, op.p.len);
    AcceptedFits(s, op.p);
  }

  lemma ApplyKeepsOk(s: Sock, op: SockOp)
    requires SockOk(s) && Applies(s, op) && !Overruns(s, op)
    ensures SockOk(Apply(s, op))
  {
    CloseKeepsOk(s);
    if op.OpRw? {
      if Writable(s) {
        WriteKeepsOk(s, op.p, op.r);
      }
    } else if op.Drain? {
      DrainKeepsOk(s, op.r);
    } else if op.OpShutdown? {
      if s.state == CONNECTED {
        ShutdownKeepsOk(s, op.flags);
        CloseKeepsOk(ShutdownPeerLocalFd(s, op.flags));
      }
    } else if op.ReadEof? {
      ShutdownKeepsOk(s, Shut(false, true));
    }
  }

  /** Every operation keeps the three promises exactly if it does not overrun the buffer. */
  lemma ApplyOkIff(s: Sock, op: SockOp)
    requires SockOk(s) && Applies(s, op)
    ensures SockOk(Apply(s, op)) <==> !Overruns(s, op)
  {
    if Overruns(s, op) { OverrunBreaks(s, op); } else { ApplyKeepsOk(s, op); }
  }

  /** A fresh connection gets there with two packets: one the fd does not take, and one whose
      header says almost 2^32 bytes and whose payload is longer than the room left. */
  lemma OverrunReachable(data: seq<byte>, long: Payload, r: IoResult)
    requires 0 < |data| <= WRITE_BUF_LENGTH
    requires U32 - |data| <= long.len < U32 && |long.data| > WRITE_BUF_LENGTH - |data|
    ensures var s := Allocated(CONNECTED, 3, WRITE_BUF_LENGTH, 0, 0);
      && SockOk(s) && Applies(s, OpRw(Whole(data), Eagain)) && !Overruns(s, OpRw(Whole(data), Eagain))
      && var s1 := Apply(s, OpRw(Whole(data), Eagain)); Applies(s1, OpRw(long, r)) && Overruns(s1, OpRw(long, r))
  {
    var s := Allocated(CONNECTED, 3, WRITE_BUF_LENGTH, 0, 0);
    assert s.sent + s.buf[s.head..] == [];
    assert data[0..] == data && data[..0] == [] && data[..|data|] == data;
  }

  // ----- the assertions of buffer_write -----

  predicate Aborts(s: Sock, op: SockOp) { op.OpRw? && Writable(s) && HandleWrite(s, op.p, op.r).1 == Abort }

  /** They hold of every packet whose header is right. */
  lemma MatchingNeverAborts(s: Sock, p: Payload, r: IoResult)
    requires p.len < U32 && Matches(p)
    ensures !Aborts(s, OpRw(p, r))
  {
    var n := Min(Num(r), |p.data|);
    if n != p.len { assert (p.len - n) % U32 == p.len - n; }
    assert n != p.len ==> Matches(Left(p, n));
  }

  /** They fail exactly if the test passes although length and payload differ: behind buffered
      data as they are, else as writev left them. */
  lemma AbortsIff(s: Sock, p: Payload, r: IoResult)
    requires Writable(s) && p.len < U32
    ensures Aborts(s, OpRw(p, r)) <==>
      if Buffering(s) then (|s.buf| + p.len) % U32 <= WRITE_BUF_LENGTH && (p.len != |p.data| || p.slack)
      else
        && !r.Epipe? && !r.Failed?
        && var n := Min(Num(r), |p.data|);
           n != p.len && (p.len - n) % U32 <= WRITE_BUF_LENGTH && ((p.len - n) % U32 != |p.data| - n || p.slack)
  {
    if Buffering(s) {
      BufferAborts(s, p);
    } else if !r.Epipe? && !r.Failed? {
      var n := Min(Num(r), |p.data|);
      if n != p.len { BufferAborts(Took(s, p.data, n).(leaked := s.leaked + n), Left(p, n)); }
    }
  }

  lemma BufferAborts(s: Sock, p: Payload)
    ensures BufferWrite(s, p).1 == Abort <==> (|s.buf| + p.len) % U32 <= WRITE_BUF_LENGTH && (p.len != |p.data| || p.slack)
  {
  }

  /** The first packet of a connection can do it: it is shorter than its header says. */
  lemma AbortReachable(p: Payload)
    requires |p.data| < p.len <= WRITE_BUF_LENGTH
    ensures var s := Allocated(CONNECTED, 3, WRITE_BUF_LENGTH, 0, 0);
      SockOk(s) && Applies(s, OpRw(p, Eagain)) && Aborts(s, OpRw(p, Eagain))
  {
    var s := Allocated(CONNECTED, 3, WRITE_BUF_LENGTH, 0, 0);
    assert s.sent + s.buf[s.head..] == [];
  }

  // ----- is a credit update ever lost? -----

  /** The guest knows the current fwd_cnt, or will be told. */
  predicate CreditDue(s: Sock) {
    s.state == CONNECTING || (s.state == CONNECTED && !s.creditUpdate) ==> s.told == s.fwd
  }

  /** A write leaves fwd_cnt, what the guest was told and the flag alone unless it succeeds,
      or tells the guest. */
  predicate SameDue(s: Sock, s': Sock) {
    s'.fwd == s.fwd && (s'.told == s.told || s'.told == s.fwd) && s'.creditUpdate == s.creditUpdate && s'.state == s.state
  }

  lemma BufferSameDue(s: Sock, p: Payload)
    ensures SameDue(s, BufferWrite(s, p).0) && BufferWrite(s, p).1 != TakenUpdate
  {
  }

  lemma WriteSameDue(s: Sock, p: Payload, r: IoResult)
    requires Writable(s)
    ensures var (s', o) := HandleWrite(s, p, r); o == TakenUpdate || SameDue(s, s')
  {
    if Buffering(s) {
      BufferSameDue(s, p);
    } else if !r.Epipe? && !r.Failed? {
      var n := Min(Num(r), |p.data|);
      if n != p.len { BufferSameDue(Took(s, p.data, n).(leaked := s.leaked + n), Left(p, n)); }
    }
  }

  lemma WriteKeepsDue(s: Sock, p: Payload, r: IoResult)
    requires CreditDue(s) && Writable(s)
    ensures CreditDue(Rw(s, p, r))
  {
    WriteSameDue(s, p, r);
  }

  /** Kept by every operation, except exactly by a read that clears the flag without making
      a header while the guest is behind. */
  lemma CreditDueIff(s: Sock, op: SockOp)
    requires Applies(s, op) && CreditDue(s)
    ensures CreditDue(Apply(s, op)) <==> !(op.ReadNothing? && s.told != s.fwd)
  {
    if op.OpRw? && Writable(s) { WriteKeepsDue(s, op.p, op.r); }
  }
}
