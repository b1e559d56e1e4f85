/** Scatter/gather helpers of the vsock device: iovec_pull and iovec_clip
    (src/lib/pci_virtio_sock.c).  An iovec is the list of its segments' contents. */
module VsockIovec {
  type byte = b: nat | b < 256
  type IoVec = seq<seq<byte>>

  /** The bytes an iovec denotes, in order. */
  function Flat(iov: IoVec): seq<byte> {
    if iov == [] then [] else iov[0] + Flat(iov[1..])
  }

  function Min(a: nat, b: nat): nat { if a < b then a else b }

  /** One turn of the loop in iovec_pull: c bytes of the first segment are used. */
  function Used(iov: IoVec, c: nat): IoVec
    requires iov != [] && c <= |iov[0]|
  {
    if c == |iov[0]| then iov[1..] else [iov[0][c..]] + iov[1..]
  }

  lemma {:induction false} UsedFlat(iov: IoVec, c: nat)
    requires iov != [] && c <= |iov[0]|
    ensures Flat(iov) == iov[0][..c] + Flat(Used(iov, c))
  {
    var front, back := iov[0][..c], iov[0][c..];
    assert iov[0] == front + back;
    if c < |iov[0]| {
      assert Used(iov, c)[0] == back && Used(iov, c)[1..] == iov[1..];
      Regroup(front, back, Flat(iov[1..]));
    } else {
      assert front == iov[0];
    }
  }

  lemma Regroup(a: seq<byte>, b: seq<byte>, c: seq<byte>)
    ensures (a + b) + c == a + (b + c)
  {
  }

  /** No empty segment trails. */
  predicate Exact(iov: IoVec) { iov == [] || iov[|iov| - 1] != [] }

  /** iovec_pull.  A pull of the bytes there are keeps a trailing empty segment; so the iovec is
      used up exactly if it has no more bytes and none trails. */
  method Pull(iov: IoVec, bytes: nat) returns (buf: seq<byte>, rest: IoVec)
    ensures |buf| == Min(bytes, |Flat(iov)|)
    ensures buf + Flat(rest) == Flat(iov)
    ensures bytes <= |Flat(iov)| ==> (Exact(rest) <==> Exact(iov))
    ensures bytes == |Flat(iov)| ==> (rest == [] <==> Exact(iov))
    ensures |buf| == bytes && rest == [] ==> bytes == |Flat(iov)|
  {
    buf, rest := [], iov;
    while |buf| < bytes && rest != []
      invariant |buf| <= bytes
      invariant buf + Flat(rest) == Flat(iov)
      invariant rest != [] ==> iov != [] && (rest[|rest| - 1] == [] <==> iov[|iov| - 1] == [])
      invariant rest == [] && iov != [] ==> iov[|iov| - 1] != [] || |buf| < bytes
      decreases |rest|, bytes - |buf|
    {
      var c := Min(bytes - |buf|, |rest[0]|);
      UsedFlat(rest, c);
      ghost var was := buf;
      buf := buf + rest[0][..c];
      rest := Used(rest, c);
    }
    if rest != [] && bytes == |Flat(iov)| { FlatEmpty(rest); }
  }

  lemma {:induction false} FlatEmpty(iov: IoVec)
    requires iov != [] && Flat(iov) == []
    ensures iov[|iov| - 1] == []
  {
    if |iov| > 1 { FlatEmpty(iov[1..]); }
  }

  lemma {:induction false} FlatAppend(iov: IoVec, seg: seq<byte>)
    ensures Flat(iov + [seg]) == Flat(iov) + seg
  {
    if iov == [] {
      assert [seg][1..] == [] && Flat([seg]) == seg;
    } else {
      assert (iov + [seg])[1..] == iov[1..] + [seg];
      FlatAppend(iov[1..], seg);
      assert iov[0] + (Flat(iov[1..]) + seg) == iov[0] + Flat(iov[1..]) + seg;
    }
  }

  lemma {:induction false} FlatPrefix(iov: IoVec, k: nat)
    requires k <= |iov|
    ensures Flat(iov[..k]) <= Flat(iov)
    ensures k < |iov| ==> Flat(iov[..k]) + iov[k] <= Flat(iov)
    decreases |iov| - k
  {
    if k == |iov| {
      assert iov[..k] == iov;
    } else {
      FlatPrefix(iov, k + 1);
      assert iov[..k + 1] == iov[..k] + [iov[k]];
      FlatAppend(iov[..k], iov[k]);
    }
  }

  /** iovec_clip: no more than `bytes` bytes remain, taken from the front. */
  method Clip(iov: IoVec, bytes: nat) returns (n: nat, r: IoVec)
    ensures n == Min(bytes, |Flat(iov)|)
    ensures Flat(r) == Flat(iov)[..n]
  {
    n, r := 0, [];
    var i := 0;
    while i < |iov| && n < bytes
      invariant 0 <= i <= |iov| && n <= bytes && n == |Flat(r)|
      invariant Flat(r) <= Flat(iov) && (n < bytes ==> r == iov[..i])
    {
      var seg := if bytes - n < |iov[i]| then iov[i][..bytes - n] else iov[i];
      FlatAppend(r, seg);
      FlatPrefix(iov, i);
      assert r == iov[..i] && r + [iov[i]] == iov[..i + 1];
      r := r + [seg];
      n := n + |seg|;
      i := i + 1;
    }
    if n < bytes { assert iov[..i] == iov; }
  }
}
