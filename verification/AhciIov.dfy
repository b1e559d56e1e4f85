/** Translation of an AHCI physical region descriptor table into block requests: ahci_build_iov
    and the continuation chain of ahci_handle_rw (src/lib/pci_ahci.c). */
module AhciIov {
  import opened Remainder

  const IOV_MAX := 126 // BLOCKIF_IOV_MAX

  /** A descriptor: a guest address and its byte count, (dbc & DBCMASK) + 1. */
  datatype Prd = Prd(dba: nat, size: nat)

  type Prdt = seq<Prd>

  function Addrs(e: Prd): seq<nat> { seq(e.size, k => e.dba + k) }

  /** The guest bytes a table denotes, in order, by address. */
  function Flat(t: Prdt): (r: seq<nat>)
    ensures |r| == Total(t)
  {
    if t == [] then [] else Flat(t[..|t| - 1]) + Addrs(t[|t| - 1])
  }

  function Total(t: Prdt): nat {
    if t == [] then 0 else Total(t[..|t| - 1]) + t[|t| - 1].size
  }

  predicate Positive(t: Prdt) { forall i :: 0 <= i < |t| ==> t[i].size > 0 }

  function Min(a: nat, b: nat): nat { if a < b then a else b }

  /** Bytes in the first m entries. */
  function UpTo(t: Prdt, m: nat): nat { Total(t[..Min(m, |t|)]) }

  lemma {:induction false} PrefixFlat(t: Prdt, i: nat)
    requires i <= |t|
    ensures Flat(t[..i]) <= Flat(t)
    decreases |t| - i
  {
    if i < |t| {
      PrefixFlat(t, i + 1);
      assert t[..i + 1][..i] == t[..i];
    } else {
      assert t[..i] == t;
    }
  }

  lemma {:induction false} UpToStep(t: Prdt, i: nat)
    requires i < |t|
    ensures UpTo(t, i + 1) == UpTo(t, i) + t[i].size <= Total(t)
    ensures Flat(t)[UpTo(t, i)..UpTo(t, i + 1)] == Addrs(t[i])
  {
    var p := t[..i + 1];
    assert p[..i] == t[..i] && p[|p| - 1] == t[i];
    PrefixFlat(t, i + 1);
    assert Flat(p) == Flat(t[..i]) + Addrs(t[i]);
    assert Flat(p)[UpTo(t, i)..] == Addrs(t[i]);
    assert Flat(t)[..|Flat(p)|] == Flat(p);
  }

  lemma {:induction false} UpToMonotone(t: Prdt, i: nat, j: nat)
    requires i <= j && Positive(t)
    ensures UpTo(t, i) <= UpTo(t, j) <= Total(t)
    ensures i < j && i < |t| ==> UpTo(t, i) < UpTo(t, j)
    decreases j - i
  {
    assert t[..|t|] == t;
    if i < j && i < |t| {
      UpToStep(t, i);
      UpToMonotone(t, i + 1, j);
    } else if |t| <= i {
      assert UpTo(t, i) == UpTo(t, j) == Total(t);
    } else {
      PrefixFlat(t, i);
    }
  }

  /** A part of one entry. */
  lemma {:induction false} PartAddrs(e: Prd, skip: nat, n: nat)
    requires skip + n <= e.size
    ensures Addrs(Prd(e.dba + skip, n)) == Addrs(e)[skip..skip + n]
  {
  }

  lemma {:induction false} FlatSnoc(t: Prdt, e: Prd)
    ensures Flat(t + [e]) == Flat(t) + Addrs(e)
  {
    assert (t + [e])[..|t|] == t;
  }

  /** Byte `done` lies in entry k. */
  predicate At(t: Prdt, done: nat, k: nat) {
    k < |t| && UpTo(t, k) <= done < UpTo(t, k + 1)
  }

  /** iov holds the bytes from `done` on, out of the entries k to i: all of their bytes, up
      to len. */
  ghost predicate Gathered(t: Prdt, done: nat, len: nat, iov: Prdt, todo: nat, i: nat, k: nat) {
    && Positive(iov) && iov != [] && i == k + |iov| <= |t| && At(t, done, k) && done < len
    && done + todo == Min(len, UpTo(t, i)) && done + todo <= Total(t) && UpTo(t, i - 1) < len
    && Flat(iov) == Flat(t)[done..done + todo]
  }

  /** The piece of entry i that follows the bytes gathered so far. */
  function Piece(t: Prdt, i: nat, skip: nat, left: nat): Prd
    requires i < |t| && skip <= t[i].size
  {
    Prd(t[i].dba + skip, Min(t[i].size - skip, left))
  }

  lemma {:induction false} SliceAdd(f: seq<nat>, a: nat, m: nat, n: nat)
    requires a <= m <= n <= |f|
    ensures f[a..m] + f[m..n] == f[a..n]
  {
  }

  lemma {:induction false} SliceSlice(f: seq<nat>, a: nat, b: nat, x: nat, y: nat)
    requires a <= b <= |f| && x <= y <= b - a
    ensures f[a..b][x..y] == f[a + x..a + y]
  {
    var l, r := f[a..b][x..y], f[a + x..a + y];
    forall i | 0 <= i < y - x ensures l[i] == r[i] {
      assert l[i] == f[a..b][x + i] == f[a + x + i];
    }
  }

  lemma {:induction false} PieceAddrs(t: Prdt, i: nat, skip: nat, left: nat)
    requires i < |t| && skip <= t[i].size
    ensures var p := Piece(t, i, skip, left); var from := UpTo(t, i) + skip;
      from + p.size <= Total(t) && Addrs(p) == Flat(t)[from..from + p.size]
  {
    var p := Piece(t, i, skip, left);
    UpToStep(t, i);
    PartAddrs(t[i], skip, p.size);
    SliceSlice(Flat(t), UpTo(t, i), UpTo(t, i + 1), skip, skip + p.size);
  }

  lemma {:induction false} FirstPiece(t: Prdt, done: nat, len: nat, i: nat, skip: nat, p: Prd)
    requires Positive(t) && i < |t| && UpTo(t, i) + skip == done < len && skip < t[i].size
    requires p == Piece(t, i, skip, len - done)
    ensures Gathered(t, done, len, [p], p.size, i + 1, i)
  {
    PieceAddrs(t, i, skip, len - done);
    UpToStep(t, i);
    FlatSnoc([], p);
    assert [] + [p] == [p];
  }

  lemma {:induction false} NextBytes(t: Prdt, from: nat, todo: nat, iov: Prdt, i: nat, left: nat)
    requires i < |t| && from + todo == UpTo(t, i) && from + todo <= Total(t) && Flat(iov) == Flat(t)[from..from + todo]
    ensures var p := Piece(t, i, 0, left);
      from + todo + p.size <= Total(t) && Flat(iov + [p]) == Flat(t)[from..from + todo + p.size]
  {
    PieceAddrs(t, i, 0, left);
    var p := Piece(t, i, 0, left);
    FlatSnoc(iov, p);
    SliceAdd(Flat(t), from, from + todo, from + todo + p.size);
  }

  lemma {:induction false} NextPiece(t: Prdt, done: nat, len: nat, iov: Prdt, todo: nat, i: nat, k: nat, p: Prd)
    requires Positive(t) && Gathered(t, done, len, iov, todo, i, k) && done + todo < len && i < |t|
    requires p == Piece(t, i, 0, len - done - todo)
    ensures Gathered(t, done, len, iov + [p], todo + p.size, i + 1, k)
  {
    NextBytes(t, done, todo, iov, i, len - done - todo);
    UpToStep(t, i);
  }

  /** The loop before entry i: `skip` bytes are still to be passed over, or some are gathered. */
  ghost predicate Gathering(t: Prdt, done: nat, len: nat, iov: Prdt, todo: nat, i: nat, k: nat, skip: nat, left: nat) {
    && i <= |t| && |iov| <= IOV_MAX && todo + left == len - done
    && (iov == [] ==> todo == 0 && UpTo(t, i) + skip == done)
    && (iov != [] ==> skip == 0)
    && (iov != [] <==> Gathered(t, done, len, iov, todo, i, k))
  }

  lemma {:induction false} SkipEntry(t: Prdt, done: nat, len: nat, iov: Prdt, todo: nat, i: nat, k: nat, skip: nat, left: nat)
    requires Positive(t) && Gathering(t, done, len, iov, todo, i, k, skip, left) && i < |t| && t[i].size <= skip
    ensures Gathering(t, done, len, iov, todo, i + 1, k, skip - t[i].size, left)
  {
    UpToStep(t, i);
  }

  lemma {:induction false} GatheredInRange(t: Prdt, done: nat, len: nat, iov: Prdt, todo: nat, i: nat, k: nat)
    requires Positive(t) && Gathered(t, done, len, iov, todo, i, k)
    ensures done < len && done < Total(t)
  {
    UpToMonotone(t, k + 1, k + 1);
  }

  lemma {:induction false} GatherEnds(t: Prdt, done: nat, len: nat, iov: Prdt, todo: nat, i: nat, k: nat, skip: nat, left: nat)
    requires Positive(t) && Gathering(t, done, len, iov, todo, i, k, skip, left)
    requires i == |t| || |iov| >= IOV_MAX || left == 0
    ensures iov != [] <==> done < len && done < Total(t)
  {
    if iov == [] {
      assert i == |t| ==> UpTo(t, i) == Total(t) by { assert t[..|t|] == t; }
    } else {
      GatheredInRange(t, done, len, iov, todo, i, k);
    }
  }

  /** The gathering loop: from byte `done`, whole entries up to IOV_MAX pieces or `len`.
      `next` is the entry after the last one used. */
  method Gather(t: Prdt, done: nat, len: nat) returns (iov: Prdt, todo: nat, next: nat, ghost k: nat)
    requires Positive(t) && done <= len
    ensures |iov| <= IOV_MAX && next <= |t|
    ensures iov != [] <==> done < len && done < Total(t)
    ensures iov == [] ==> todo == 0 && (next == |t| || done == len)
    ensures iov != [] <==> Gathered(t, done, len, iov, todo, next, k)
    ensures iov != [] ==> next == |t| || |iov| == IOV_MAX || done + todo == len
  {
    var i: nat, skip: nat, left: nat := 0, done, len - done;
    iov, todo, k := [], 0, 0;
    while i < |t| && |iov| < IOV_MAX && left > 0
      invariant Gathering(t, done, len, iov, todo, i, k, skip, left)
    {
      if t[i].size <= skip {
        SkipEntry(t, done, len, iov, todo, i, k, skip, left);
        skip := skip - t[i].size;
      } else {
        var piece := Piece(t, i, skip, left);
        if iov == [] {
          FirstPiece(t, done, len, i, skip, piece);
          iov, k := [piece], i;
        } else {
          NextPiece(t, done, len, iov, todo, i, k, piece);
          iov := iov + [piece];
        }
        todo, left, skip := todo + piece.size, left - piece.size, 0;
      }
      i := i + 1;
    }
    next := i;
    GatherEnds(t, done, len, iov, todo, i, k, skip, left);
  }

  /** The last entry dropped, or cut by e bytes. */
  function Cut(r: Prdt, e: nat): Prdt
    requires r != [] && e <= r[|r| - 1].size
  {
    var last := r[|r| - 1];
    if e == last.size then r[..|r| - 1] else r[..|r| - 1] + [Prd(last.dba, last.size - e)]
  }

  lemma {:induction false} CutFlat(r: Prdt, e: nat)
    requires r != [] && e <= r[|r| - 1].size && Positive(r)
    ensures Positive(Cut(r, e)) && Total(Cut(r, e)) == Total(r) - e && Flat(Cut(r, e)) == Flat(r)[..Total(r) - e]
  {
    var front, last := r[..|r| - 1], r[|r| - 1];
    if e < last.size {
      FlatSnoc(front, Prd(last.dba, last.size - e));
      PartAddrs(last, 0, last.size - e);
      assert Total(Cut(r, e)) == |Flat(Cut(r, e))|;
    }
  }

  /** r is iov cut down to its first n bytes. */
  ghost predicate Trimmed(iov: Prdt, r: Prdt, n: nat) {
    Positive(r) && |r| <= |iov| && Total(r) == n <= Total(iov) && Flat(r) == Flat(iov)[..n]
  }

  lemma {:induction false} TrimStep(iov: Prdt, r: Prdt, n: nat, e: nat)
    requires Trimmed(iov, r, n) && r != [] && e <= r[|r| - 1].size && e <= n
    ensures Trimmed(iov, Cut(r, e), n - e)
  {
    CutFlat(r, e);
    assert Flat(iov)[..n][..n - e] == Flat(iov)[..n - e];
  }

  /** The trimming loop: drop the last `extra` bytes. */
  method Trim(iov: Prdt, extra: nat) returns (r: Prdt)
    requires Positive(iov) && extra < Total(iov)
    ensures Trimmed(iov, r, Total(iov) - extra)
  {
    var e: nat := extra;
    r := iov;
    ghost var n := Total(iov);
    assert Flat(iov)[..n] == Flat(iov);
    while e > 0
      invariant n == Total(iov) - extra + e && Trimmed(iov, r, n)
      decreases e
    {
      var k := Min(e, r[|r| - 1].size);
      TrimStep(iov, r, n, k);
      r := Cut(r, k);
      e, n := e - k, n - k;
    }
  }

  // ----- one request -----

  /** The IOV limit stops the gathering that starts in entry k before it reaches len. */
  predicate LimitedAt(t: Prdt, done: nat, len: nat, k: nat) {
    At(t, done, k) && k + IOV_MAX <= |t| && UpTo(t, k + IOV_MAX - 1) < len
  }

  /** IOV_MAX pieces hold less than a sector: the assertion on todo fails. */
  ghost predicate Starved(t: Prdt, done: nat, len: nat, sect: nat) {
    exists k: nat :: LimitedAt(t, done, len, k) && Min(len, UpTo(t, k + IOV_MAX)) < done + sect
  }

  lemma {:induction false} AtUnique(t: Prdt, done: nat, k: nat, m: nat)
    requires Positive(t) && At(t, done, k) && At(t, done, m)
    ensures k == m
  {
    if k < m { UpToMonotone(t, k + 1, m); }
    if m < k { UpToMonotone(t, m + 1, k); }
  }

  /** The gathering used every piece exactly if the limit was met. */
  lemma {:induction false} LimitedIff(t: Prdt, done: nat, len: nat, iov: Prdt, todo: nat, next: nat, k: nat)
    requires Positive(t) && Gathered(t, done, len, iov, todo, next, k) && |iov| <= IOV_MAX
    requires next == |t| || |iov| == IOV_MAX || done + todo == len
    ensures |iov| == IOV_MAX <==> LimitedAt(t, done, len, k)
  {
    if |iov| < IOV_MAX && LimitedAt(t, done, len, k) { UpToMonotone(t, next, k + IOV_MAX - 1); }
  }

  lemma {:induction false} StarvedIff(t: Prdt, done: nat, len: nat, sect: nat, k: nat)
    requires Positive(t) && At(t, done, k)
    ensures Starved(t, done, len, sect) <==>
            LimitedAt(t, done, len, k) && Min(len, UpTo(t, k + IOV_MAX)) < done + sect
  {
    if Starved(t, done, len, sect) {
      var m: nat :| LimitedAt(t, done, len, m) && Min(len, UpTo(t, m + IOV_MAX)) < done + sect;
      AtUnique(t, done, k, m);
    }
  }

  lemma {:induction false} GatheredStarves(t: Prdt, done: nat, len: nat, sect: nat, iov: Prdt, todo: nat, next: nat, k: nat)
    requires Positive(t) && Gathered(t, done, len, iov, todo, next, k) && |iov| <= IOV_MAX
    requires next == |t| || |iov| == IOV_MAX || done + todo == len
    ensures Starved(t, done, len, sect) <==> |iov| == IOV_MAX && todo < sect
  {
    LimitedIff(t, done, len, iov, todo, next, k);
    StarvedIff(t, done, len, sect, k);
  }

  /** A request for the bytes from d0 to d1: the table's bytes in order; unless it is the last
      one, whole sectors, at least one; and the last one reaches len if the table does. */
  ghost predicate Built(t: Prdt, sect: nat, len: nat, d0: nat, d1: nat, iov: Prdt, more: bool)
    requires sect > 0
  {
    && d0 <= d1 <= len && d1 <= Total(t) && |iov| <= IOV_MAX && Positive(iov)
    && Flat(iov) == Flat(t)[d0..d1]
    && (more ==> d0 < d1 < len && (d1 - d0) % sect == 0)
    && (!more && len <= Total(t) && (len - d0) % sect == 0 ==> d1 == len)
  }

  lemma {:induction false} GatheredTotal(t: Prdt, done: nat, len: nat, iov: Prdt, todo: nat, next: nat, k: nat)
    requires Gathered(t, done, len, iov, todo, next, k)
    ensures Total(iov) == todo
  {
    assert Total(iov) == |Flat(iov)|;
  }

  /** The request as gathered, when it is not limited. */
  lemma {:induction false} BuiltWhole(t: Prdt, sect: nat, len: nat, done: nat, iov: Prdt, todo: nat, next: nat, k: nat)
    requires sect > 0 && Positive(t) && Gathered(t, done, len, iov, todo, next, k) && |iov| < IOV_MAX
    requires next == |t| || done + todo == len
    ensures Built(t, sect, len, done, done + todo, iov, done + todo < len && next < |t|)
  {
    assert next == |t| ==> UpTo(t, next) == Total(t) by { assert t[..|t|] == t; }
  }

  /** The request rounded down to sectors, when it is. */
  lemma {:induction false} BuiltTrimmed(t: Prdt, sect: nat, len: nat, done: nat, iov: Prdt, todo: nat, next: nat,
                                        k: nat, r: Prdt)
    requires sect > 0 && Positive(t) && Gathered(t, done, len, iov, todo, next, k) && |iov| == IOV_MAX
    requires sect <= todo && Total(iov) == todo && Trimmed(iov, r, todo - todo % sect)
    ensures var d1 := done + (todo - todo % sect); Built(t, sect, len, done, d1, r, d1 < len && next < |t|)
  {
    var n := todo - todo % sect;
    assert n % sect == 0 && 0 < n by { Rounds(todo, sect); }
    assert Flat(t)[done..done + todo][..n] == Flat(t)[done..done + n];
    assert next == |t| ==> UpTo(t, next) == Total(t) by { assert t[..|t|] == t; }
  }

  lemma {:induction false} Rounds(n: nat, sect: nat)
    requires 0 < sect
    ensures n % sect <= n && (0 < n - n % sect <==> sect <= n)
    ensures (n - n % sect) % sect == 0
  {
    if n < sect {
      assert n % sect == n;
    } else {
      var q := n / sect;
      assert n - n % sect == sect * q;
      ModUnique(sect * q, sect, q, 0);
    }
  }

  lemma {:induction false} NothingLeft(t: Prdt, done: nat, len: nat, sect: nat)
    requires Positive(t) && (len <= done || Total(t) <= done)
    ensures !Starved(t, done, len, sect)
  {
    forall k: nat | LimitedAt(t, done, len, k) ensures false {
      UpToMonotone(t, k + 1, k + IOV_MAX - 1);
    }
  }

  /** ahci_build_iov on values; false is a failing assertion on todo. */
  method Build(t: Prdt, sect: nat, done: nat, len: nat) returns (ok: bool, iov: Prdt, todo: nat, more: bool)
    requires sect > 0 && Positive(t) && done <= len && done <= Total(t)
    ensures ok <==> !Starved(t, done, len, sect)
    ensures ok ==> Built(t, sect, len, done, done + todo, iov, more)
  {
    var g, n, next;
    ghost var k;
    g, n, next, k := Gather(t, done, len);
    if g == [] {
      NothingLeft(t, done, len, sect);
      return true, [], 0, false;
    }
    GatheredStarves(t, done, len, sect, g, n, next, k);
    if |g| < IOV_MAX {
      BuiltWhole(t, sect, len, done, g, n, next, k);
      return true, g, n, done + n < len && next < |t|;
    }
    Rounds(n, sect);
    var extra := n % sect;
    if n - extra == 0 { return false, [], 0, false; }
    GatheredTotal(t, done, len, g, n, next, k);
    var r := Trim(g, extra);
    BuiltTrimmed(t, sect, len, done, g, n, next, k, r);
    n := n - extra;
    return true, r, n, done + n < len && next < |t|;
  }

  class Ioreq {
    var len: nat
    var done: nat
    var more: bool
    var iov: Prdt     // br_iov[..br_iovcnt]
    var resid: nat    // br_resid
    var offset: nat   // br_offset

    constructor (total: nat, from: nat, lba: nat)
      ensures len == total && done == from && offset == lba + from
    {
      len, done, offset := total, from, lba + from;
      more, iov, resid := false, [], 0;
    }

    /** ahci_build_iov.  The result is whether the assertion on todo holds. */
    method BuildIov(t: Prdt, sect: nat) returns (ok: bool)
      requires sect > 0 && Positive(t) && done <= len && done <= Total(t)
      modifies this
      ensures len == old(len) && offset == old(offset)
      ensures ok <==> !Starved(t, old(done), len, sect)
      ensures ok ==> Built(t, sect, len, old(done), done, iov, more) && resid == done - old(done)
    {
      var g, todo, again;
      ok, g, todo, again := Build(t, sect, done, len);
      if ok { iov, resid, done, more := g, todo, done + todo, again; }
    }
  }

  // ----- the chain of requests of one command -----

  datatype Request = Request(offset: nat, iov: Prdt)

  /** The requests carry the table's first d bytes, in order and without a gap, each at the
      disk offset its bytes belong to. */
  ghost predicate Covers(reqs: seq<Request>, t: Prdt, lba: nat, d: nat) {
    if reqs == [] then d == 0
    else
      var r := reqs[|reqs| - 1];
      var n := Total(r.iov);
      && n <= d <= Total(t) && |r.iov| <= IOV_MAX && r.offset == lba + d - n
      && Flat(r.iov) == Flat(t)[d - n..d] && Covers(reqs[..|reqs| - 1], t, lba, d - n)
  }

  function AllBytes(reqs: seq<Request>): seq<nat> {
    if reqs == [] then [] else AllBytes(reqs[..|reqs| - 1]) + Flat(reqs[|reqs| - 1].iov)
  }

  /** Put end to end, the requests are the front of the table. */
  lemma {:induction false} CoversAll(reqs: seq<Request>, t: Prdt, lba: nat, d: nat)
    requires Covers(reqs, t, lba, d)
    ensures d <= Total(t) && AllBytes(reqs) == Flat(t)[..d]
  {
    if reqs != [] {
      var n := Total(reqs[|reqs| - 1].iov);
      CoversAll(reqs[..|reqs| - 1], t, lba, d - n);
      assert Flat(t)[..d - n] + Flat(t)[d - n..d] == Flat(t)[..d];
    }
  }

  lemma {:induction false} MultiplesAddSub(a: nat, b: nat, sect: nat)
    requires sect > 0 && a % sect == 0 && b % sect == 0
    ensures (a + b) % sect == 0 && (a >= b ==> (a - b) % sect == 0)
  {
    var p, q := a / sect, b / sect;
    assert a == sect * p && b == sect * q;
    assert a + b == sect * (p + q) && a - b == sect * (p - q);
    ModUnique(a + b, sect, p + q, 0);
    if a >= b {
      assert p >= q;
      ModUnique(a - b, sect, p - q, 0);
    }
  }

  /** A sector less a byte in any IOV_MAX - 1 consecutive entries. */
  predicate Dense(t: Prdt, sect: nat) {
    forall k: nat {:trigger UpTo(t, k)} :: k + IOV_MAX - 1 <= |t| ==> UpTo(t, k) + sect <= UpTo(t, k + IOV_MAX - 1) + 1
  }

  /** With a dense table no request of a whole-sector command is ever starved. */
  lemma {:induction false} DenseNeverStarved(t: Prdt, done: nat, len: nat, sect: nat)
    requires sect > 0 && Positive(t) && Dense(t, sect) && done <= len && (len - done) % sect == 0
    ensures !Starved(t, done, len, sect)
  {
    forall k: nat | LimitedAt(t, done, len, k) ensures Min(len, UpTo(t, k + IOV_MAX)) >= done + sect {
      assert UpTo(t, k + 1) + sect <= UpTo(t, k + 1 + IOV_MAX - 1) + 1;
      UpToMonotone(t, k + 1, k + IOV_MAX - 1);
      assert len > done;
      Rounds(len - done, sect);
    }
  }

  lemma {:induction false} CoversNext(reqs: seq<Request>, t: Prdt, lba: nat, d: nat, r: Request, d1: nat)
    requires Covers(reqs, t, lba, d) && d <= d1 <= Total(t) && |r.iov| <= IOV_MAX
    requires r.offset == lba + d && Flat(r.iov) == Flat(t)[d..d1]
    ensures Covers(reqs + [r], t, lba, d1)
  {
    assert (reqs + [r])[..|reqs|] == reqs && Total(r.iov) == |Flat(r.iov)| == d1 - d;
  }

  /** At least one sector, and whole ones. */
  predicate Whole(r: Request, sect: nat)
    requires sect > 0
  {
    0 < Total(r.iov) && Total(r.iov) % sect == 0
  }

  /** The requests so far cover the table's first `done` bytes, in whole sectors but for the
      last request; and the chain ends only when the command is done, if the table holds it. */
  ghost predicate Chained(t: Prdt, sect: nat, lba: nat, len: nat, reqs: seq<Request>, done: nat, more: bool)
    requires sect > 0
  {
    && Covers(reqs, t, lba, done) && done <= len && done <= Total(t)
    && (if more then done % sect == 0 else len <= Total(t) ==> done == len)
    && (forall i :: 0 <= i < |reqs| - 1 ==> Whole(reqs[i], sect))
    && (more && reqs != [] ==> Whole(reqs[|reqs| - 1], sect))
  }

  lemma {:induction false} ChainedNext(t: Prdt, sect: nat, lba: nat, len: nat, reqs: seq<Request>, done: nat,
                                       iov: Prdt, todo: nat, again: bool)
    requires sect > 0 && len % sect == 0 && Chained(t, sect, lba, len, reqs, done, true)
    requires Built(t, sect, len, done, done + todo, iov, again)
    ensures Chained(t, sect, lba, len, reqs + [Request(lba + done, iov)], done + todo, again)
  {
    assert Total(iov) == |Flat(iov)| == todo;
    CoversNext(reqs, t, lba, done, Request(lba + done, iov), done + todo);
    MultiplesAddSub(len, done, sect);
    if again { MultiplesAddSub(done, todo, sect); }
    var next := reqs + [Request(lba + done, iov)];
    forall i | 0 <= i < |next| - 1 ensures Whole(next[i], sect) { assert next[i] == reqs[i]; }
  }

  /** ahci_handle_rw, called again for each completion that leaves more to do.  It stops short
      exactly at a sector boundary where the next request would be starved. */
  method Transfer(t: Prdt, sect: nat, lba: nat, len: nat) returns (ok: bool, reqs: seq<Request>, done: nat)
    requires sect > 0 && Positive(t) && len % sect == 0
    ensures ok ==> Chained(t, sect, lba, len, reqs, done, false)
    ensures !ok ==> Chained(t, sect, lba, len, reqs, done, true) && Starved(t, done, len, sect)
    ensures Dense(t, sect) ==> ok
  {
    ok, reqs, done := true, [], 0;
    var more := true;
    while more
      invariant ok && (ok <==> Chained(t, sect, lba, len, reqs, done, more))
      invariant done <= len && done <= Total(t)
      decreases more, len - done
    {
      if Dense(t, sect) {
        MultiplesAddSub(len, done, sect);
        DenseNeverStarved(t, done, len, sect);
      }
      var iov, todo, again;
      ok, iov, todo, again := Build(t, sect, done, len);
      if !ok { return; }
      ChainedNext(t, sect, lba, len, reqs, done, iov, todo, again);
      reqs := reqs + [Request(lba + done, iov)];
      done, more := done + todo, again;
    }
  }

  // ----- a sector in any IOV_MAX entries is not enough -----

  /** One long entry, IOV_MAX - 1 short ones, a last one. */
  function Thin(): Prdt { [Prd(0, 522)] + seq(IOV_MAX - 1, i => Prd(0, 4)) + [Prd(0, 12)] }

  lemma {:induction false} ThinUpTo(m: nat)
    requires m < IOV_MAX
    ensures UpTo(Thin(), 0) == 0 && UpTo(Thin(), m + 1) == 522 + 4 * m
  {
    assert Thin()[..0] == [];
    if m == 0 {
      UpToStep(Thin(), 0);
    } else {
      ThinUpTo(m - 1);
      UpToStep(Thin(), m);
    }
  }

  /** Any IOV_MAX consecutive entries of this table hold a 512-byte sector and the table holds
      two, yet the second request of a two-sector command fails the assertion: ten bytes are
      left of the first entry and it uses up a piece. */
  lemma {:induction false} ThinStarves()
    ensures Positive(Thin()) && 1024 <= Total(Thin())
    ensures forall k: nat {:trigger UpTo(Thin(), k)} ::
              k + IOV_MAX <= |Thin()| ==> UpTo(Thin(), k) + 512 <= UpTo(Thin(), k + IOV_MAX)
    ensures !Starved(Thin(), 0, 1024, 512) && Starved(Thin(), 512, 1024, 512)
  {
    var t := Thin();
    assert |t| == IOV_MAX + 1 && t[..|t|] == t;
    ThinUpTo(0);
    ThinUpTo(IOV_MAX - 2);
    ThinUpTo(IOV_MAX - 1);
    UpToStep(t, IOV_MAX);
    StarvedIff(t, 0, 1024, 512, 0);
    assert LimitedAt(t, 512, 1024, 0);
  }
}
