/** Credit between the guest and the vsock device, in both directions
    (src/lib/pci_virtio_sock.c; section 5.10.6.3 of VIRTIO 1.1).

    Counters are 32-bit on the wire; the model keeps the unwrapped totals beside them. */
module VsockCredit {
  import opened VsockIovec
  import opened VsockSock

  // ----- guest to device -----

  /** A sock, and the unwrapped fwd_cnt of the last header the guest saw. */
  datatype Link = Link(s: Sock, seen: nat)

  /** The guest's own 32-bit sum: buf_alloc - (tx_cnt - fwd_cnt). */
  function GuestFree(l: Link): nat {
    (l.s.bufAlloc - (|l.s.offered| % U32 - l.seen % U32) % U32) % U32
  }

  datatype LinkEvent =
    | Send(data: seq<byte>, r: IoResult)
    | Learn(fwd: nat) // a header carrying an earlier or the current fwd_cnt arrives
    | Other(op: SockOp)

  predicate Enabled(l: Link, e: LinkEvent) {
    match e
    case Send(data, r) => Applies(l.s, OpRw(Whole(data), r)) && |data| <= GuestFree(l)
    case Learn(fwd) => l.seen <= fwd <= l.s.fwd
    case Other(op) => !op.OpRw? && Applies(l.s, op)
  }

  function Step(l: Link, e: LinkEvent): Link {
    if !Enabled(l, e) then l
    else
      match e
      case Send(data, r) => l.(s := Apply(l.s, OpRw(Whole(data), r)))
      case Learn(fwd) => l.(seen := fwd)
      case Other(op) => l.(s := Apply(l.s, op))
  }

  ghost predicate LinkInv(l: Link) {
    && SockOk(l.s) && l.seen <= l.s.fwd
    && |l.s.offered| - l.seen <= l.s.bufAlloc
    && (!l.s.lost && l.s.bufAlloc > 0 ==> l.s.leaked < l.s.bufAlloc)
  }

  lemma WrappedDifference(a: nat, b: nat)
    requires b <= a < b + U32
    ensures (a % U32 - b % U32) % U32 == a - b
  {
    assert a == U32 * (a / U32) + a % U32 && b == U32 * (b / U32) + b % U32;
    assert a / U32 == b / U32 || a / U32 == b / U32 + 1;
  }

  /** While the invariant holds, the guest's wrapping sum is the true free space. */
  lemma GuestFreeExact(l: Link)
    requires LinkInv(l)
    ensures GuestFree(l) == l.s.bufAlloc - (|l.s.offered| - l.seen)
  {
    WrappedDifference(|l.s.offered|, l.seen);
  }

  /** How the counters move without a write. */
  predicate Moves(s: Sock, s': Sock) {
    && s'.offered == s.offered && s'.bufAlloc == s.bufAlloc && s'.fwd >= s.fwd && s'.leaked == s.leaked
    && (s.lost ==> s'.lost)
  }

  lemma ShutdownMoves(s: Sock, mode: Shut)
    ensures Moves(s, ShutdownPeerLocalFd(s, mode)) && Moves(s, ShutdownLocal(s, mode)) && Moves(s, CloseSock(s))
  {
  }

  lemma DrainMoves(s: Sock, r: IoResult)
    requires s.head < |s.buf|
    ensures Moves(s, BufferDrain(s, r))
  {
    ShutdownMoves(s, Shut(true, false));
  }

  lemma OtherMoves(s: Sock, op: SockOp)
    requires Applies(s, op) && !op.OpRw?
    ensures Moves(s, Apply(s, op))
  {
    ShutdownMoves(s, Shut(false, true));
    if op.Drain? {
      DrainMoves(s, op.r);
    } else if op.OpShutdown? {
      ShutdownMoves(s, op.flags);
      ShutdownMoves(ShutdownPeerLocalFd(s, op.flags), ALL);
    }
  }

  /** The whole payload was offered, and k bytes of credit lost. */
  predicate Counted(s: Sock, s': Sock, data: seq<byte>, k: nat) {
    && s'.offered == s.offered + data && s'.bufAlloc == s.bufAlloc && s'.fwd >= s.fwd
    && s'.leaked == s.leaked + k && (s.lost ==> s'.lost)
  }

  lemma BufferCounted(s: Sock, p: Payload)
    requires Matches(p)
    ensures Counted(s, BufferWrite(s, p).0, p.data, 0)
  {
    assert p.data[..Min(p.len, |p.data|)] == p.data;
  }

  lemma SomeCounted(s: Sock, data: seq<byte>, n: nat)
    requires n <= |data| < U32
    ensures Counted(s, WriteSome(s, Whole(data), n).0, data, if n < |data| then n else 0)
  {
    if n == |data| {
      assert data[..n] == data;
    } else {
      var s1, p := Took(s, data, n).(leaked := s.leaked + n), Left(Whole(data), n);
      BufferCounted(s1, p);
      assert s.offered + data[..n] + data[n..] == s.offered + data;
      assert WriteSome(s, Whole(data), n) == BufferWrite(s1, p);
    }
  }

  lemma HandleCounted(s: Sock, data: seq<byte>, r: IoResult)
    requires Writable(s) && |data| < U32
    ensures Counted(s, HandleWrite(s, Whole(data), r).0, data, if !Buffering(s) && Num(r) < |data| then Num(r) else 0)
  {
    if Buffering(s) {
      BufferCounted(s, Whole(data));
    } else if !r.Epipe? && !r.Failed? {
      SomeCounted(s, data, Min(Num(r), |data|));
    }
  }

  /** A write leaks credit in one case only: the fd took part of the payload. */
  lemma WriteCounters(s: Sock, data: seq<byte>, r: IoResult)
    requires SockOk(s) && Writable(s) && |data| < U32
    ensures Counted(s, Rw(s, Whole(data), r), data, if !Buffering(s) && Num(r) < |data| then Num(r) else 0)
  {
    HandleCounted(s, data, r);
    ShutdownMoves(HandleWrite(s, Whole(data), r).0, ALL);
  }

  lemma SendKeepsInv(l: Link, data: seq<byte>, r: IoResult)
    requires LinkInv(l) && Enabled(l, Send(data, r))
    ensures LinkInv(Step(l, Send(data, r)))
  {
    GuestFreeExact(l);
    ApplyKeepsOk(l.s, OpRw(Whole(data), r));
    if Writable(l.s) { WriteCounters(l.s, data, r); }
  }

  lemma StepKeepsInv(l: Link, e: LinkEvent)
    requires LinkInv(l)
    ensures LinkInv(Step(l, e))
  {
    if Enabled(l, e) {
      if e.Send? {
        SendKeepsInv(l, e.data, e.r);
      } else if e.Other? {
        ApplyKeepsOk(l.s, e.op);
        OtherMoves(l.s, e.op);
      }
    }
  }

  ghost function Run(l: Link, es: seq<LinkEvent>): (l': Link)
    requires LinkInv(l)
    ensures LinkInv(l')
  {
    if es == [] then l
    else
      var p := Run(l, es[..|es| - 1]);
      StepKeepsInv(p, es[|es| - 1]);
      Step(p, es[|es| - 1])
  }

  /** A fresh sock and a guest that has seen nothing. */
  lemma FreshLinkOk(st: SockState, fd: int, sndbuf: nat, peerBuf: nat, peerFwd: nat)
    ensures st != CLOSING_TX && st != CLOSING_RX ==> LinkInv(Link(Allocated(st, fd, sndbuf, peerBuf, peerFwd), 0))
  {
    var s := Allocated(st, fd, sndbuf, peerBuf, peerFwd);
    assert s.sent + s.buf[s.head..] == [];
  }

  /** A guest that honours its credit is never refused: in every reachable state of a link,
      a write within the credit resets the connection only when writev itself failed. */
  lemma ConformingNeverRefused(l: Link, data: seq<byte>, r: IoResult)
    requires LinkInv(l) && Enabled(l, Send(data, r)) && Writable(l.s)
    ensures HandleWrite(l.s, Whole(data), r).1 == Reset <==> !Buffering(l.s) && r.Failed?
  {
    CreditFitsBuffer(l, |data|);
    RoomIsTaken(l.s, data, r);
  }

  lemma CreditFitsBuffer(l: Link, n: nat)
    requires LinkInv(l) && n <= GuestFree(l)
    ensures |l.s.buf| + n <= WRITE_BUF_LENGTH
  {
    GuestFreeExact(l);
  }

  lemma RoomIsTaken(s: Sock, data: seq<byte>, r: IoResult)
    requires |s.buf| + |data| <= WRITE_BUF_LENGTH
    ensures HandleWrite(s, Whole(data), r).1 == Reset <==> !Buffering(s) && r.Failed?
  {
  }

  /** With the buffer drained and the last header seen, the credit is the window less the
      bytes taken by short writes; so it is whole again exactly if there were none, and never
      falls to zero. */
  lemma CreditAfterDrain(l: Link)
    requires LinkInv(l) && !l.s.lost && !Buffering(l.s) && l.seen == l.s.fwd
    ensures GuestFree(l) == l.s.bufAlloc - l.s.leaked
    ensures GuestFree(l) == l.s.bufAlloc <==> l.s.leaked == 0
    ensures l.s.bufAlloc > 0 ==> GuestFree(l) > 0
  {
    GuestFreeExact(l);
  }

  /** The bytes lost to short writes are never given back. */
  lemma {:induction false} LeakNeverShrinks(l: Link, es: seq<LinkEvent>)
    requires LinkInv(l)
    ensures Run(l, es).s.leaked >= l.s.leaked && Run(l, es).s.bufAlloc == l.s.bufAlloc
  {
    if es != [] {
      LeakNeverShrinks(l, es[..|es| - 1]);
      var p, e := Run(l, es[..|es| - 1]), es[|es| - 1];
      if Enabled(p, e) && e.Other? { OtherMoves(p.s, e.op); }
      if Enabled(p, e) && e.Send? && Writable(p.s) { WriteCounters(p.s, e.data, e.r); }
    }
  }

  /** One short write is enough to bring a window of any size down to a single byte. */
  lemma WindowShrinksToOne(data: seq<byte>)
    requires 2 <= |data| <= WRITE_BUF_LENGTH
    ensures var l := Link(Allocated(CONNECTED, 3, |data|, 0, 0), 0);
      var l1 := Step(l, Send(data, Wrote(|data| - 1)));
      var l2 := Step(l1, Other(Drain(Wrote(1))));
      var l3 := Step(l2, Learn(1));
      LinkInv(l) && GuestFree(l) == |data| && l2.s.buf == [] && GuestFree(l3) == 1
  {
    FreshLinkOk(CONNECTED, 3, |data|, 0, 0);
    var l := Link(Allocated(CONNECTED, 3, |data|, 0, 0), 0);
    GuestFreeExact(l);
    var l1 := Step(l, Send(data, Wrote(|data| - 1)));
    ShortByOne(l, data);
    StepKeepsInv(l, Send(data, Wrote(|data| - 1)));
    var l2 := Step(l1, Other(Drain(Wrote(1))));
    StepKeepsInv(l1, Other(Drain(Wrote(1))));
    DrainOne(l1);
    CreditAfterDrain(l2.(seen := 1));
  }

  /** All but one byte of the first packet is taken. */
  lemma ShortByOne(l: Link, data: seq<byte>)
    requires 2 <= |data| <= WRITE_BUF_LENGTH && l == Link(Allocated(CONNECTED, 3, |data|, 0, 0), 0) && LinkInv(l)
    ensures var s := Step(l, Send(data, Wrote(|data| - 1))).s;
      && s.buf == data[|data| - 1..] && s.head == 0 && s.state == CONNECTED && !s.lost && s.fwd == 0
      && s.leaked == |data| - 1 && s.bufAlloc == |data| && s.local == NONE && s.peer == NONE
  {
    GuestFreeExact(l);
    var n := |data| - 1;
    SomeCounted(l.s, data, n);
    var p := Left(Whole(data), n);
    assert p == Payload(1, data[n..], false) && p.data[..1] == p.data;
    assert WriteSome(l.s, Whole(data), n).1 == Taken;
  }

  lemma DrainOne(l: Link)
    requires l.s.state == CONNECTED && l.s.head == 0 && |l.s.buf| == 1 && l.s.fwd == 0 && !l.s.lost
    ensures var l' := Step(l, Other(Drain(Wrote(1))));
      && l'.s.buf == [] && !l'.s.lost && l'.s.fwd == 1 && l'.s.leaked == l.s.leaked && l'.s.bufAlloc == l.s.bufAlloc
      && l'.seen == l.seen
  {
  }

  // ----- device to guest -----

  /** Unwrapped: the bytes sent to the guest, the fwd_cnt it reported, its buf_alloc. */
  datatype PeerView = PeerView(rx: nat, fwd: nat, alloc: nat)

  /** peer_free as pci_vtsock_proc_rx computes it. */
  function Room(v: PeerView): nat { PeerFree(v.alloc, v.rx % U32, v.fwd % U32) }

  /** The 32-bit sum is the true free space exactly if the guest has not shrunk its buffer
      below what is in flight; otherwise it exceeds the whole buffer. */
  lemma PeerFreeExact(v: PeerView)
    requires v.fwd <= v.rx < v.fwd + U32 && v.alloc < U32
    ensures v.rx - v.fwd <= v.alloc <==> Room(v) <= v.alloc
    ensures v.rx - v.fwd <= v.alloc ==> Room(v) == v.alloc - (v.rx - v.fwd)
  {
    WrappedDifference(v.rx, v.fwd);
  }

  datatype PeerEvent =
    | Deliver(n: nat)                  // readv returned n bytes into iovecs clipped to peer_free
    | Header(fwd: nat, alloc: nat)     // a header from the guest

  /** A guest reports progress it made, and never gives back less room than is in use. */
  predicate PeerEnabled(v: PeerView, e: PeerEvent) {
    match e
    case Deliver(n) => n <= Room(v)
    case Header(fwd, alloc) => v.fwd <= fwd <= v.rx <= fwd + alloc && alloc < U32
  }

  function PeerStep(v: PeerView, e: PeerEvent): PeerView {
    if !PeerEnabled(v, e) then v
    else match e
      case Deliver(n) => v.(rx := v.rx + n)
      case Header(fwd, alloc) => v.(fwd := fwd, alloc := alloc)
  }

  function PeerRun(v: PeerView, es: seq<PeerEvent>): PeerView {
    if es == [] then v else PeerStep(PeerRun(v, es[..|es| - 1]), es[|es| - 1])
  }

  /** The guest's receive buffer never overflows. */
  lemma {:induction false} NeverOverruns(alloc: nat, es: seq<PeerEvent>)
    requires alloc < U32
    ensures var v := PeerRun(PeerView(0, 0, alloc), es); v.fwd <= v.rx <= v.fwd + v.alloc && v.alloc < U32
  {
    if es != [] {
      NeverOverruns(alloc, es[..|es| - 1]);
      PeerFreeExact(PeerRun(PeerView(0, 0, alloc), es[..|es| - 1]));
    }
  }
}
