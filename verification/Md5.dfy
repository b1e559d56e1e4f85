/** The MD5 context: buffering, the two-word bit count and padding (src/lib/md5c.c).

    The transformation of one block is a parameter, so the result holds for MD5Transform as
    for any other; the message is padded as in sections 3.1 and 3.2 of RFC 1321. */
module Md5 {
  const W := 0x1_0000_0000
  const W64 := 0x1_0000_0000_0000_0000

  type byte = b: nat | b < 256

  /** The blocks of m, one after the other; what is left of a last one is ignored. */
  function Fold<S>(f: (S, seq<byte>) -> S, s: S, m: seq<byte>): S {
    if |m| < 64 then s else Fold(f, f(s, m[..64]), m[64..])
  }

  lemma {:induction false} FoldAppend<S>(f: (S, seq<byte>) -> S, s: S, a: seq<byte>, b: seq<byte>)
    requires |a| % 64 == 0
    ensures Fold(f, s, a + b) == Fold(f, Fold(f, s, a), b)
  {
    if |a| == 0 {
      assert a + b == b;
    } else {
      assert (a + b)[..64] == a[..64] && (a + b)[64..] == a[64..] + b;
      FoldAppend(f, f(s, a[..64]), a[64..], b);
    }
  }

  lemma {:induction false} FoldBlock<S>(f: (S, seq<byte>) -> S, s: S, m: seq<byte>)
    requires |m| == 64
    ensures Fold(f, s, m) == f(s, m)
  {
    assert m[..64] == m && m[64..] == [];
  }

  // ----- the bit count -----

  predicate CountOk(c0: nat, c1: nat, len: nat) { c0 == 8 * len % W && c1 == 8 * len / W % W }

  /** MD5Update's way to add n bytes: the low word wraps, its wrap is noticed by the
      comparison, and the bits shifted out are added to the high word. */
  function Low(c0: nat, n: nat): nat { (c0 + 8 * n % W) % W }
  function High(c0: nat, c1: nat, n: nat): nat {
    ((if Low(c0, n) < 8 * n % W then c1 + 1 else c1) % W + n / 0x2000_0000) % W
  }

  lemma {:induction false} CountAdds(c0: nat, c1: nat, len: nat, n: nat)
    requires CountOk(c0, c1, len) && n < W
    ensures CountOk(Low(c0, n), High(c0, c1, n), len + n)
  {
    var lo, hi := 8 * n % W, n / 0x2000_0000;
    assert 8 * n == W * hi + lo;
    var q := 8 * len / W;
    assert 8 * len == W * q + c0;
    var carry := if c0 + lo >= W then 1 else 0;
    assert 8 * (len + n) == W * (q + hi + carry) + Low(c0, n);
    assert Low(c0, n) < lo <==> carry == 1;
    Quotient(8 * (len + n), q + hi + carry, Low(c0, n));
    AddMod(q, carry, hi);
  }

  lemma {:induction false} Quotient(x: nat, q: nat, r: nat)
    requires x == W * q + r && r < W
    ensures x / W == q && x % W == r
  {
  }

  lemma {:induction false} AddMod(q: nat, a: nat, b: nat)
    ensures ((q % W + a) % W + b) % W == (q + b + a) % W
  {
  }

  lemma {:induction false} IndexOf(c0: nat, len: nat)
    requires c0 == 8 * len % W
    ensures c0 / 8 % 64 == len % 64
  {
    var q := 8 * len / W;
    assert 8 * len == W * q + c0;
    WholeTurns(c0 / 8, 0x80_0000 * q);
    assert len == c0 / 8 + 64 * (0x80_0000 * q);
  }

  lemma {:induction false} WholeTurns(m: nat, k: nat)
    ensures (m + 64 * k) % 64 == m % 64
  {
  }

  // ----- padding -----

  function Zeros(n: nat): seq<byte> { seq(n, i => 0) }

  /** RFC 1321, section 3.1: a one bit, then zeros to 56 modulo 64. */
  function Zeroes(len: nat): (z: nat)
    ensures (len + 1 + z) % 64 == 56 && z < 64
  {
    (119 - len % 64) % 64
  }

  function Le(n: nat, k: nat): (r: seq<byte>)
    ensures |r| == k
  {
    if k == 0 then [] else [n % 256] + Le(n / 256, k - 1)
  }

  /** Section 3.2: the length in bits, modulo 2^64, lowest byte first. */
  function Padded(m: seq<byte>): (r: seq<byte>)
    ensures |r| == |m| + 1 + Zeroes(|m|) + 8
  {
    m + [0x80] + Zeros(Zeroes(|m|)) + Le(8 * |m| % W64, 8)
  }

  lemma {:induction false} LeStep(q: nat, r: byte, k: nat)
    ensures Le(256 * q + r, k + 1) == [r] + Le(q, k)
  {
    assert (256 * q + r) % 256 == r && (256 * q + r) / 256 == q;
  }

  function Pow256(k: nat): nat { if k == 0 then 1 else 256 * Pow256(k - 1) }
  function Shl(n: nat, k: nat): nat { if k == 0 then n else 256 * Shl(n, k - 1) }

  /** The two words, low one first, are the eight bytes of the 64-bit count. */
  lemma {:induction false} LeWords(c0: nat, c1: nat, k: nat)
    requires c0 < Pow256(k)
    ensures Le(Shl(c1, k) + c0, k + 4) == Le(c0, k) + Le(c1, 4)
  {
    if k > 0 {
      var q, r := c0 / 256, c0 % 256;
      LeWords(q, c1, k - 1);
      assert Shl(c1, k) + c0 == 256 * (Shl(c1, k - 1) + q) + r;
      LeStep(Shl(c1, k - 1) + q, r, k - 1 + 4);
      LeStep(q, r, k - 1);
    }
  }

  lemma {:induction false} Quotient64(x: nat, q: nat, r: nat)
    requires x == W64 * q + r && r < W64
    ensures x % W64 == r
  {
  }

  lemma {:induction false} CountBytes(c0: nat, c1: nat, len: nat)
    requires CountOk(c0, c1, len)
    ensures Le(c0, 4) + Le(c1, 4) == Le(8 * len % W64, 8)
  {
    var n, q := 8 * len, 8 * len / W;
    assert n == W * q + c0 && q == W * (q / W) + c1;
    assert n == W64 * (q / W) + (W * c1 + c0);
    Quotient64(n, q / W, W * c1 + c0);
    assert Pow256(4) == W;
    assert Shl(c1, 1) == 256 * c1 && Shl(c1, 2) == 65536 * c1 && Shl(c1, 3) == 16777216 * c1 && Shl(c1, 4) == W * c1;
    LeWords(c0, c1, 4);
  }

  // ----- the guard of the block loop -----

  /** The 32-bit `i + 63 < n` says that a block is left exactly while i + 63 does not wrap. */
  lemma {:induction false} GuardIff(i: nat, n: nat)
    requires i <= n < W
    ensures ((i + 63) % W < n <==> i + 64 <= n) <==> i <= W - 64
  {
  }

  /** Where a loop over blocks from `from` on stops if it counts right. */
  function StopAt(from: nat, n: nat): (i: nat)
    requires from <= n
    ensures from <= i <= n < i + 64
  {
    from + (n - from) / 64 * 64
  }

  /** Where MD5Update's does. */
  function LastIndex(index: nat, n: nat): nat
    requires index < 64
  {
    if n < 64 - index then 0 else StopAt(64 - index, n)
  }

  /** An MD5Update whose loop runs past its input: part of a block is buffered, and with it the
      input makes 2^32 bytes or more. */
  predicate RunsOn(index: nat, n: nat) { index > 0 && index + n >= W }

  /** That is when the loop comes to an index at which its guard is wrong. */
  lemma {:induction false} RunsOnIff(index: nat, n: nat)
    requires index < 64 && n < W
    ensures RunsOn(index, n) <==> LastIndex(index, n) > W - 64
  {
    if n >= 64 - index {
      var q := (n - (64 - index)) / 64;
      assert LastIndex(index, n) + index == 64 * (q + 1) <= index + n < 64 * (q + 2);
    }
  }

  lemma {:induction false} WholeBlocks(n: nat)
    ensures (n + 1 + Zeroes(n) + 8) % 64 == 0
  {
    var q, k := n / 64, n % 64;
    assert Zeroes(n) == if k <= 55 then 55 - k else 119 - k;
    assert n + 1 + Zeroes(n) + 8 == 64 * (if k <= 55 then q + 1 else q + 2);
  }

  lemma {:induction false} PaddedWhole(m: seq<byte>)
    ensures |Padded(m)| % 64 == 0
  {
    WholeBlocks(|m|);
  }

  /** MD5Pad's length is the RFC's, and the two appended pieces make up the padding. */
  lemma {:induction false} PadIs(m: seq<byte>, padLen: nat, bits: seq<byte>)
    requires padLen == if |m| % 64 < 56 then 56 - |m| % 64 else 120 - |m| % 64
    requires bits == Le(8 * |m| % W64, 8)
    ensures padLen - 1 == Zeroes(|m|) && m + ([0x80] + Zeros(padLen - 1)) + bits == Padded(m)
  {
    var a, z: seq<byte> := [0x80], Zeros(padLen - 1);
    assert m + (a + z) + bits == m + a + z + bits;
  }

  lemma {:induction false} FoldOne<S>(f: (S, seq<byte>) -> S, s: S, a: seq<byte>, b: seq<byte>)
    requires |a| % 64 == 0 && |b| == 64
    ensures Fold(f, s, a + b) == f(Fold(f, s, a), b)
  {
    FoldAppend(f, s, a, b);
    FoldBlock(f, Fold(f, s, a), b);
  }

  /** The block loop of MD5Update, with its 32-bit guard; `past` is a block past the input. */
  method Absorb<S>(f: (S, seq<byte>) -> S, s: S, input: seq<byte>, from: nat) returns (r: S, i: nat, past: bool)
    requires from <= |input| < W
    ensures past <==> StopAt(from, |input|) > W - 64
    ensures !past ==> i == StopAt(from, |input|) && r == Fold(f, s, input[from..i])
  {
    var n := |input|;
    i, r, past := from, s, false;
    ghost var k := 0;
    while (i + 63) % W < n
      invariant i == from + 64 * k <= n && k <= (n - from) / 64 && r == Fold(f, s, input[from..i])
      decreases n - i
    {
      GuardIff(i, n);
      if i + 64 > n { return r, i, true; }
      FoldOne(f, s, input[from..i], input[i..i + 64]);
      assert input[from..i] + input[i..i + 64] == input[from..i + 64];
      r := f(r, input[i..i + 64]);
      i, k := i + 64, k + 1;
    }
    GuardIff(i, n);
  }

  /** The state has seen the whole blocks of msg, and the buffer holds the rest. */
  ghost predicate Hashed<S>(f: (S, seq<byte>) -> S, s: S, msg: seq<byte>, state: S, buffer: seq<byte>) {
    var k := |msg| % 64;
    |buffer| == 64 && state == Fold(f, s, msg[..|msg| - k]) && buffer[..k] == msg[|msg| - k..]
  }

  lemma {:induction false} HashedWhole<S>(f: (S, seq<byte>) -> S, s: S, msg: seq<byte>, state: S, buf: seq<byte>)
    requires Hashed(f, s, msg, state, buf) && |msg| % 64 == 0
    ensures state == Fold(f, s, msg)
  {
    assert msg[..|msg|] == msg;
  }

  lemma {:induction false} HashedShort<S>(f: (S, seq<byte>) -> S, s: S, msg: seq<byte>, state: S, buf: seq<byte>,
                                          input: seq<byte>, buf': seq<byte>)
    requires Hashed(f, s, msg, state, buf) && |msg| % 64 + |input| < 64
    requires |buf'| == 64 && buf'[..|msg| % 64 + |input|] == buf[..|msg| % 64] + input
    ensures Hashed(f, s, msg + input, state, buf')
  {
    var k, m := |msg| % 64, msg + input;
    WholeTurns(k + |input|, |msg| / 64);
    assert |m| == k + |input| + 64 * (|msg| / 64);
    assert m[..|m| - (k + |input|)] == msg[..|msg| - k];
    assert m[|m| - (k + |input|)..] == msg[|msg| - k..] + input;
  }

  lemma {:induction false} HashedLong<S>(f: (S, seq<byte>) -> S, s: S, msg: seq<byte>, state: S, buf: seq<byte>,
                                         input: seq<byte>, k: nat, p: nat, i: nat, state': S, buf': seq<byte>)
    requires Hashed(f, s, msg, state, buf) && k == |msg| % 64 && p == 64 - k
    requires p <= |input| && i == StopAt(p, |input|)
    requires state' == Fold(f, f(state, buf[..k] + input[..p]), input[p..i])
    requires |buf'| == 64 && buf'[..|input| - i] == input[i..]
    ensures Hashed(f, s, msg + input, state', buf')
  {
    var m := msg + input;
    Lengths(|msg|, |input|, k, p, i);
    var done, block := msg[..|msg| - k], buf[..k] + input[..p];
    FoldOne(f, s, done, block);
    FoldAppend(f, s, done + block, input[p..i]);
    Pieces(msg, input, k, p, i);
  }

  lemma {:induction false} Lengths(len: nat, n: nat, k: nat, p: nat, i: nat)
    requires k == len % 64 && p == 64 - k <= n && i == StopAt(p, n)
    ensures i <= n < i + 64 && (len + i) % 64 == 0 && (len + n) % 64 == n - i
  {
    var a, q := len / 64, (n - p) / 64;
    assert len + i == 64 * (a + 1 + q);
    assert len + n == 64 * (a + 1 + q) + (n - i);
  }

  lemma {:induction false} Pieces(msg: seq<byte>, input: seq<byte>, k: nat, p: nat, i: nat)
    requires k <= |msg| && p <= i <= |input|
    ensures var m := msg + input;
      && msg[..|msg| - k] + (msg[|msg| - k..] + input[..p]) + input[p..i] == m[..|msg| + i]
      && m[|msg| + i..] == input[i..]
  {
  }

  class Context<S(!new)> {
    const transform: (S, seq<byte>) -> S
    const init: S
    var state: S
    var count0: nat
    var count1: nat
    const buffer: array<byte>
    ghost var msg: seq<byte> // all input so far

    ghost predicate Valid()
      reads this, buffer
    {
      && buffer.Length == 64 && CountOk(count0, count1, |msg|)
      && Hashed(transform, init, msg, state, buffer[..])
    }

    /** MD5Init. */
    constructor (f: (S, seq<byte>) -> S, s: S)
      ensures Valid() && msg == [] && transform == f && init == s && fresh(buffer)
    {
      transform, init, state := f, s, s;
      count0, count1 := 0, 0;
      buffer := new byte[64](_ => 0);
      msg := [];
    }

    /** The part of MD5Update that moves bytes. */
    method Feed(index: nat, input: seq<byte>) returns (past: bool)
      requires buffer.Length == 64 && index == |msg| % 64 && |input| < W
      requires Hashed(transform, init, msg, state, buffer[..])
      modifies this`state, buffer
      ensures past <==> RunsOn(index, |input|)
      ensures !past ==> Hashed(transform, init, msg + input, state, buffer[..])
    {
      RunsOnIff(index, |input|);
      if |input| >= 64 - index {
        past := FeedBlocks(index, input);
      } else {
        ghost var was := buffer[..];
        forall j | 0 <= j < |input| { buffer[index + j] := input[j]; }
        assert buffer[..index + |input|] == was[..index] + input;
        HashedShort(transform, init, msg, state, was, input, buffer[..]);
        past := false;
      }
    }

    /** Fill up the buffered block, go through the blocks of the input, keep the rest. */
    method FeedBlocks(index: nat, input: seq<byte>) returns (past: bool)
      requires buffer.Length == 64 && index == |msg| % 64 && 64 - index <= |input| < W
      requires Hashed(transform, init, msg, state, buffer[..])
      modifies this`state, buffer
      ensures past <==> LastIndex(index, |input|) > W - 64
      ensures !past ==> Hashed(transform, init, msg + input, state, buffer[..])
    {
      var n, partLen := |input|, 64 - index;
      ghost var was, st := buffer[..], state;
      forall j | 0 <= j < partLen { buffer[index + j] := input[j]; }
      assert buffer[..] == was[..index] + input[..partLen];
      var s := transform(state, buffer[..]);
      var i;
      s, i, past := Absorb(transform, s, input, partLen);
      if past { return; }
      state := s;
      KeepRest(input, i);
      HashedLong(transform, init, msg, st, was, input, index, partLen, i, s, buffer[..]);
    }

    method KeepRest(input: seq<byte>, i: nat)
      requires buffer.Length == 64 && i <= |input| <= i + 64
      modifies buffer
      ensures buffer[..|input| - i] == input[i..]
    {
      forall j | 0 <= j < |input| - i { buffer[j] := input[i + j]; }
    }

    /** MD5Update; once its loop has run past the input nothing is promised. */
    method Update(input: seq<byte>) returns (past: bool)
      requires Valid() && |input| < W
      modifies this, buffer
      ensures past <==> RunsOn(|old(msg)| % 64, |input|)
      ensures !past ==> Valid() && msg == old(msg) + input
    {
      var n := |input|;
      IndexOf(count0, |msg|);
      var index := count0 / 8 % 64;
      CountAdds(count0, count1, |msg|, n);
      count0, count1 := Low(count0, n), High(count0, count1, n);
      past := Feed(index, input);
      if !past { msg := msg + input; }
    }

    /** MD5Pad. */
    method Pad()
      requires Valid()
      modifies this, buffer
      ensures Valid() && msg == Padded(old(msg))
    {
      ghost var m := msg;
      CountBytes(count0, count1, |msg|);
      var bits := Le(count0, 4) + Le(count1, 4);
      IndexOf(count0, |msg|);
      var index := count0 / 8 % 64;
      var padLen := if index < 56 then 56 - index else 120 - index;
      PadIs(m, padLen, bits);
      var past := Update([0x80] + Zeros(padLen - 1));
      past := Update(bits);
    }

    /** MD5Final; the digest is the state. */
    method Final() returns (digest: S)
      requires Valid()
      modifies this, buffer
      ensures digest == Fold(transform, init, Padded(old(msg)))
    {
      PaddedWhole(msg);
      Pad();
      HashedWhole(transform, init, msg, state, buffer[..]);
      digest := state;
      count0, count1, state := 0, 0, init;
    }
  }

  function Concat(chunks: seq<seq<byte>>): seq<byte> {
    if chunks == [] then [] else Concat(chunks[..|chunks| - 1]) + chunks[|chunks| - 1]
  }

  /** The update with chunk i, after the message `before` and the chunks so far, runs on. */
  predicate RunsOnAt(before: nat, chunks: seq<seq<byte>>, i: nat)
    requires i < |chunks|
  {
    RunsOn((before + |Concat(chunks[..i])|) % 64, |chunks[i]|)
  }

  /** One byte and then 2^32 - 1 bytes are enough. */
  lemma {:induction false} TwoUpdatesRunOn(a: seq<byte>, b: seq<byte>)
    requires |a| == 1 && |b| == W - 1
    ensures RunsOnAt(0, [a, b], 1)
  {
    assert [a, b][..1] == [a] && [a][..0] == [] && Concat([a]) == [] + a;
  }

  method UpdateNext<S(!new)>(c: Context<S>, ghost before: seq<byte>, chunks: seq<seq<byte>>, i: nat) returns (past: bool)
    requires c.Valid() && i < |chunks| && |chunks[i]| < W && c.msg == before + Concat(chunks[..i])
    modifies c, c.buffer
    ensures past <==> RunsOnAt(|before|, chunks, i)
    ensures !past ==> c.Valid() && c.msg == before + Concat(chunks[..i + 1])
  {
    past := c.Update(chunks[i]);
    ConcatSnoc(chunks, i);
  }

  /** One MD5Update after the other. */
  method UpdateAll<S(!new)>(c: Context<S>, chunks: seq<seq<byte>>) returns (past: bool)
    requires c.Valid() && forall i :: 0 <= i < |chunks| ==> |chunks[i]| < W
    modifies c, c.buffer
    ensures past <==> exists i :: 0 <= i < |chunks| && RunsOnAt(|old(c.msg)|, chunks, i)
    ensures !past ==> c.Valid() && c.msg == old(c.msg) + Concat(chunks)
  {
    ghost var before := c.msg;
    var i := 0;
    past := false;
    assert chunks[..0] == [];
    while i < |chunks| && !past
      invariant 0 <= i <= |chunks| && (!past ==> c.Valid() && c.msg == before + Concat(chunks[..i]))
      invariant past <==> exists j :: 0 <= j < i && RunsOnAt(|before|, chunks, j)
    {
      past := UpdateNext(c, before, chunks, i);
      i := i + 1;
    }
    assert !past ==> chunks[..i] == chunks;
  }

  lemma {:induction false} ConcatSnoc(chunks: seq<seq<byte>>, i: nat)
    requires i < |chunks|
    ensures Concat(chunks[..i + 1]) == Concat(chunks[..i]) + chunks[i]
  {
    assert chunks[..i + 1][..i] == chunks[..i];
  }

  /** However a message is cut up, its digest is that of the padded whole, unless one of the
      updates runs on. */
  method Digest<S(!new)>(f: (S, seq<byte>) -> S, init: S, chunks: seq<seq<byte>>) returns (digest: S, past: bool)
    requires forall i :: 0 <= i < |chunks| ==> |chunks[i]| < W
    ensures past <==> exists i :: 0 <= i < |chunks| && RunsOnAt(0, chunks, i)
    ensures !past ==> digest == Fold(f, init, Padded(Concat(chunks)))
  {
    var c := new Context(f, init);
    past := UpdateAll(c, chunks);
    digest := init;
    if !past {
      assert c.msg == Concat(chunks);
      digest := c.Final();
    }
  }
}
