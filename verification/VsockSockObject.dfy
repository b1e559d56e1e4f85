/** The operations of VsockSock in place, on the fields of struct pci_vtsock_sock and its
    fixed-size write buffer (src/lib/pci_virtio_sock.c). */
module VsockSockObject {
  import opened VsockIovec
  import S = VsockSock

  /** The packet with header length len over an iovec. */
  function Pkt(len: nat, iov: IoVec): S.Payload { S.Payload(len, Flat(iov), !Exact(iov)) }

  /** What a pull of len bytes leaves tells whether header and payload match. */
  lemma Pulled(len: nat, iov: IoVec, data: seq<byte>, left: IoVec)
    requires |data| == Min(len, |Flat(iov)|) && data + Flat(left) == Flat(iov)
    requires len == |Flat(iov)| ==> (left == [] <==> Exact(iov))
    requires |data| == len && left == [] ==> len == |Flat(iov)|
    ensures data == Flat(iov)[..Min(len, |Flat(iov)|)]
    ensures |data| == len && left == [] <==> S.Matches(Pkt(len, iov))
  {
    Split(Flat(iov), data, Flat(left));
  }

  lemma Split(all: seq<byte>, a: seq<byte>, b: seq<byte>)
    requires a + b == all
    ensures all[..|a|] == a && all[|a|..] == b
  {
  }

  lemma LeftOver(len: nat, iov: IoVec, n: nat, pulled: seq<byte>, left: IoVec)
    requires n <= |Flat(iov)| && |pulled| == n && pulled + Flat(left) == Flat(iov) && (Exact(left) <==> Exact(iov))
    ensures Flat(iov)[..n] == pulled && Pkt((len - n) % S.U32, left) == S.Left(Pkt(len, iov), n)
  {
    Split(Flat(iov), pulled, Flat(left));
  }

  class SockObject {
    var state: S.SockState
    var local: S.Shut
    var peer: S.Shut
    var fwdCnt: nat
    var creditUpdate: bool
    const writeBuf: array<byte>
    var head: nat
    var tail: nat
    ghost var rest: S.Sock // the fields these operations leave alone, and the history

    ghost predicate Valid()
      reads this
    {
      writeBuf.Length == S.WRITE_BUF_LENGTH && tail <= S.WRITE_BUF_LENGTH
    }

    ghost function Value(): S.Sock
      requires Valid()
      reads this, writeBuf
    {
      rest.(state := state, local := local, peer := peer, fwdCnt := fwdCnt, creditUpdate := creditUpdate,
            buf := writeBuf[..tail], head := head)
    }

    /** A sock on the free list, over a buffer of WRITE_BUF_LENGTH bytes. */
    constructor ()
      ensures Valid() && fresh(writeBuf) && Value() == S.Allocated(S.FREE, -1, 0, 0, 0)
    {
      state, local, peer := S.FREE, S.NONE, S.NONE;
      fwdCnt, creditUpdate, head, tail := 0, false, 0, 0;
      writeBuf := new byte[S.WRITE_BUF_LENGTH](_ => 0);
      rest := S.Allocated(S.FREE, -1, 0, 0, 0);
    }

    /** buffer_write.  `overrun` is the copy past the end of the buffer; after that, or a failed
        assertion, nothing is promised of the sock. */
    method BufferWrite(len: nat, iov: IoVec) returns (o: S.WriteOutcome, overrun: bool)
      requires Valid() && len < S.U32
      modifies this, writeBuf
      ensures Valid()
      ensures overrun <==> S.Overflows(old(Value()), Pkt(len, iov))
      ensures !overrun ==> o == S.BufferWrite(old(Value()), Pkt(len, iov)).1
      ensures !overrun && o != S.Abort ==> Value() == S.BufferWrite(old(Value()), Pkt(len, iov)).0
    {
      o, overrun := S.Reset, false;
      if (tail + len) % S.U32 > S.WRITE_BUF_LENGTH {
        Refused(Flat(iov));
        return;
      }
      S.AcceptedFits(Value(), Pkt(len, iov));
      var data, left := Pull(iov, len);
      Pulled(len, iov, data, left);
      if tail + |data| > S.WRITE_BUF_LENGTH { return S.Abort, true; }
      CopyIn(data);
      if |data| != len || left != [] { return S.Abort, false; }
      Grown(data);
      o := S.Taken;
    }

    /** The copy of iovec_pull, to the end of what is buffered. */
    method CopyIn(data: seq<byte>)
      requires Valid() && tail + |data| <= S.WRITE_BUF_LENGTH
      modifies writeBuf
      ensures Valid() && Value() == old(Value()) && writeBuf[..tail + |data|] == Value().buf + data
    {
      forall i | 0 <= i < |data| { writeBuf[tail + i] := data[i]; }
      assert writeBuf[..tail] == old(writeBuf[..tail]);
    }

    /** What was copied counts as buffered. */
    method Grown(data: seq<byte>)
      requires Valid() && tail + |data| <= S.WRITE_BUF_LENGTH && writeBuf[..tail + |data|] == Value().buf + data
      modifies this
      ensures Valid()
      ensures Value() == old(Value()).(buf := old(Value()).buf + data, offered := old(Value()).offered + data)
    {
      rest := rest.(offered := rest.offered + data);
      tail := tail + |data|;
    }

    method Refused(ghost data: seq<byte>)
      requires Valid()
      modifies this
      ensures Valid() && Value() == old(Value()).(offered := old(Value()).offered + data, lost := true)
    {
      rest := rest.(offered := rest.offered + data, lost := true);
    }

    /** shutdown_local_sock, past its return for a sock that is not connected. */
    method ShutdownLocal(mode: S.Shut)
      requires Valid() && (state == S.CONNECTED ==> local != S.ALL)
      modifies this
      ensures Valid() && Value() == S.ShutdownLocal(old(Value()), mode)
    {
      if state != S.CONNECTED { return; }
      local := S.Or(mode, local);
      if local.rx && tail > 0 {
        head, tail := 0, 0;
        rest := rest.(lost := true);
      }
    }

    /** handle_write; the result of writev is a parameter. */
    method HandleWrite(len: nat, iov: IoVec, r: S.IoResult) returns (o: S.WriteOutcome, overrun: bool)
      requires Valid() && len < S.U32
      requires state == S.CONNECTED && !local.rx
      modifies this, writeBuf
      ensures Valid()
      ensures overrun <==> S.Overflows(old(Value()), Pkt(len, iov))
      ensures !overrun ==> o == S.HandleWrite(old(Value()), Pkt(len, iov), r).1
      ensures !overrun && o != S.Abort ==> Value() == S.HandleWrite(old(Value()), Pkt(len, iov), r).0
    {
      if tail > 0 {
        o, overrun := BufferWrite(len, iov);
        return;
      }
      ghost var data := Flat(iov);
      if r.Epipe? {
        rest := rest.(offered := rest.offered + data, lost := true);
        ShutdownLocal(S.Shut(true, false));
        rest := rest.(told := rest.fwd);
        return S.Taken, false;
      } else if r.Failed? {
        Refused(data);
        return S.Reset, false;
      }
      o := WriteSome(len, iov, Min(S.Num(r), |Flat(iov)|));
      overrun := false;
    }

    /** handle_write once writev took n bytes. */
    method WriteSome(len: nat, iov: IoVec, n: nat) returns (o: S.WriteOutcome)
      requires Valid() && len < S.U32 && tail == 0 && n <= |Flat(iov)|
      modifies this, writeBuf
      ensures Valid()
      ensures o == S.WriteSome(old(Value()), Pkt(len, iov), n).1
      ensures o != S.Abort ==> Value() == S.WriteSome(old(Value()), Pkt(len, iov), n).0
    {
      ghost var data := Flat(iov);
      if n == len {
        TookAll(data, n);
        return S.TakenUpdate;
      }
      TookPart(data, n);
      var pulled, left := Pull(iov, n);
      LeftOver(len, iov, n, pulled, left);
      var overrun;
      o, overrun := BufferWrite((len - n) % S.U32, left);
    }

    method TookAll(ghost data: seq<byte>, n: nat)
      requires Valid() && n <= |data|
      modifies this
      ensures Valid()
      ensures var s := old(Value());
        Value() == S.Took(s, data, n).(fwdCnt := (s.fwdCnt + n) % S.U32, fwd := s.fwd + n)
    {
      fwdCnt := (fwdCnt + n) % S.U32;
      rest := rest.(sent := rest.sent + data[..n], offered := rest.offered + data[..n], fwd := rest.fwd + n);
    }

    method TookPart(ghost data: seq<byte>, n: nat)
      requires Valid() && n <= |data|
      modifies this
      ensures Valid() && tail == old(tail)
      ensures Value() == S.Took(old(Value()), data, n).(leaked := old(Value()).leaked + n)
    {
      rest := rest.(sent := rest.sent + data[..n], offered := rest.offered + data[..n], leaked := rest.leaked + n);
    }

    /** The end of buffer_drain. */
    method Drained()
      requires Valid() && head == tail
      modifies this
      ensures Valid() && Value() == S.Drained(old(Value()))
    {
      fwdCnt := (fwdCnt + head) % S.U32;
      rest := rest.(fwd := rest.fwd + head);
      head, tail := 0, 0;
      if peer.tx && !local.rx {
        rest := rest.(wrShut := true);
        local := S.Or(local, S.Shut(true, false));
      }
      creditUpdate := true;
    }

    /** buffer_drain; the result of write is a parameter. */
    method BufferDrain(r: S.IoResult)
      requires Valid() && head < tail
      requires state == S.CONNECTED && local != S.ALL
      modifies this
      ensures Valid() && Value() == S.BufferDrain(old(Value()), r)
    {
      match r
      case Eagain => return;
      case Epipe =>
        ShutdownLocal(S.Shut(true, false));
        rest := rest.(told := rest.fwd);
      case Failed => CloseSock();
      case Wrote(m) =>
        var n := Min(m, tail - head);
        rest := rest.(sent := rest.sent + writeBuf[..tail][head..head + n]);
        head := head + n;
        if head < tail { return; }
        Drained();
    }

    /** shutdown_peer_local_fd. */
    method ShutdownPeerLocalFd(mode: S.Shut)
      requires Valid() && mode != S.NONE
      modifies this
      ensures Valid() && Value() == S.ShutdownPeerLocalFd(old(Value()), mode)
    {
      var newPeer := S.Or(mode, peer);
      var newLocal := local;
      if newPeer == peer { return; }
      if newPeer.tx && !peer.tx && tail == 0 {
        rest := rest.(wrShut := true);
        newLocal := S.Or(newLocal, S.Shut(true, false));
      }
      if newPeer.rx && !peer.rx {
        newLocal := S.Or(newLocal, S.Shut(false, true));
      }
      local := newLocal;
      peer := newPeer;
    }

    /** close_sock. */
    method CloseSock()
      requires Valid()
      modifies this
      ensures Valid() && Value() == S.CloseSock(old(Value()))
    {
      ShutdownPeerLocalFd(S.ALL);
      state := S.CLOSING_TX;
    }
  }
}
