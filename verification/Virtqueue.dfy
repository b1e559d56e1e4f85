/** Descriptor chains of a virtqueue: vq_getchain (src/lib/virtio.c).

    A chain is given by a relation that knows no bound and no loop; the walk is proved to find
    exactly the chains of at most VQ_MAX_DESCRIPTORS descriptors, whatever the guest wrote.
    Guest memory holds still during one walk. */
module Virtqueue {
  const MAX_DESCRIPTORS := 512 // VQ_MAX_DESCRIPTORS

  /** struct virtio_desc with the flags NEXT, WRITE and INDIRECT. */
  datatype Desc = Desc(addr: nat, len: nat, next: bool, write: bool, indirect: bool, link: nat)

  /** The guest's tables: the queue's own, and those at other guest addresses. */
  datatype Mem = Mem(table: seq<Desc>, at: (nat, nat) -> Desc, indirectCap: bool)

  // ----- what a chain is -----

  /** es follows the links of the indirect table of d from entry i to an entry without NEXT. */
  ghost predicate InTable(m: Mem, d: Desc, i: nat, es: seq<Desc>)
    decreases |es|
  {
    && es != [] && i < d.len / 16 && es[0] == m.at(d.addr, i) && !es[0].indirect
    && if es[0].next then InTable(m, d, es[0].link, es[1..]) else |es| == 1
  }

  /** es is what the descriptor d of the queue's table stands for. */
  ghost predicate Expands(m: Mem, d: Desc, es: seq<Desc>) {
    if d.indirect then m.indirectCap && d.len % 16 == 0 && InTable(m, d, 0, es) else es == [d]
  }

  /** ds are the real descriptors of the chain that starts at index i. */
  ghost predicate Chain(m: Mem, i: nat, ds: seq<Desc>)
    decreases |ds|
  {
    && i < |m.table|
    && exists k :: 0 < k <= |ds| && Expands(m, m.table[i], ds[..k]) && Follows(m, m.table[i], ds, k)
  }

  ghost predicate Follows(m: Mem, d: Desc, ds: seq<Desc>, k: int)
    requires 0 < k <= |ds|
    decreases |ds|, 0
  {
    if d.next then Chain(m, d.link, ds[k..]) else k == |ds|
  }

  // ----- a descriptor stands for one list at most -----

  lemma {:induction false} InTableUnique(m: Mem, d: Desc, i: nat, es: seq<Desc>, fs: seq<Desc>)
    requires InTable(m, d, i, es) && InTable(m, d, i, fs)
    ensures es == fs
    decreases |es|
  {
    if es[0].next { InTableUnique(m, d, es[0].link, es[1..], fs[1..]); }
    assert es == [es[0]] + es[1..] && fs == [fs[0]] + fs[1..];
  }

  lemma ExpandsUnique(m: Mem, d: Desc, es: seq<Desc>, fs: seq<Desc>)
    requires Expands(m, d, es) && Expands(m, d, fs)
    ensures es == fs
  {
    if d.indirect { InTableUnique(m, d, 0, es, fs); }
  }

  /** Where a chain goes after a descriptor that stands for es. */
  lemma {:induction false} ChainStep(m: Mem, i: nat, es: seq<Desc>, ds: seq<Desc>)
    requires i < |m.table| && Expands(m, m.table[i], es)
    ensures Chain(m, i, ds) <==> es <= ds && if m.table[i].next then Chain(m, m.table[i].link, ds[|es|..]) else ds == es
  {
    var d := m.table[i];
    if Chain(m, i, ds) {
      var k :| 0 < k <= |ds| && Expands(m, d, ds[..k]) && Follows(m, d, ds, k);
      ExpandsUnique(m, d, ds[..k], es);
      assert k == |es|;
    }
    if es <= ds && if d.next then Chain(m, d.link, ds[|es|..]) else ds == es {
      assert ds[..|es|] == es && Follows(m, d, ds, |es|);
    }
  }

  /** The chains from head are those that begin with acc and go on with a chain from i. */
  ghost predicate Walked(m: Mem, head: nat, acc: seq<Desc>, i: nat) {
    forall ds :: Chain(m, head, ds) <==> acc <= ds && Chain(m, i, ds[|acc|..])
  }

  /** The same inside an indirect table. */
  ghost predicate TableWalked(m: Mem, d: Desc, acc: seq<Desc>, i: nat) {
    forall es :: InTable(m, d, 0, es) <==> acc <= es && InTable(m, d, i, es[|acc|..])
  }

  lemma {:induction false} PrefixOn(acc: seq<Desc>, es: seq<Desc>, ds: seq<Desc>)
    ensures acc + es <= ds <==> acc <= ds && es <= ds[|acc|..]
    ensures acc + es <= ds ==> ds[|acc|..][|es|..] == ds[|acc + es|..]
  {
    if acc <= ds && es <= ds[|acc|..] { assert ds[..|acc + es|] == acc + es; }
    if acc + es <= ds { assert ds[|acc|..][..|es|] == es; }
  }

  lemma {:induction false} WalkOn(m: Mem, head: nat, acc: seq<Desc>, i: nat, es: seq<Desc>)
    requires Walked(m, head, acc, i) && i < |m.table| && Expands(m, m.table[i], es)
    ensures m.table[i].next ==> Walked(m, head, acc + es, m.table[i].link)
    ensures !m.table[i].next ==> forall ds :: Chain(m, head, ds) <==> ds == acc + es
  {
    var d := m.table[i];
    forall ds
      ensures Chain(m, head, ds) <==>
              (acc + es <= ds && if d.next then Chain(m, d.link, ds[|acc + es|..]) else ds == acc + es)
    {
      PrefixOn(acc, es, ds);
      if acc <= ds {
        ChainStep(m, i, es, ds[|acc|..]);
        assert ds == acc + ds[|acc|..];
      }
    }
  }

  lemma {:induction false} TableWalkOn(m: Mem, d: Desc, acc: seq<Desc>, i: nat)
    requires TableWalked(m, d, acc, i) && i < d.len / 16 && !m.at(d.addr, i).indirect
    ensures var e := m.at(d.addr, i);
      if e.next then TableWalked(m, d, acc + [e], e.link)
      else forall es :: InTable(m, d, 0, es) <==> es == acc + [e]
  {
    var e := m.at(d.addr, i);
    forall es
      ensures InTable(m, d, 0, es) <==>
              (acc + [e] <= es && if e.next then InTable(m, d, e.link, es[|acc + [e]|..]) else es == acc + [e])
    {
      PrefixOn(acc, [e], es);
      if acc <= es {
        var rest := es[|acc|..];
        assert es == acc + rest;
        assert [e] <= rest <==> rest != [] && rest[0] == e;
      }
    }
  }

  // ----- the walk -----

  function Min(a: nat, b: nat): nat { if a < b then a else b }

  /** _vq_record: descriptors beyond the caller's n are counted but not stored. */
  function Record(iov: seq<Desc>, count: nat, n: nat, d: Desc): seq<Desc> {
    if count >= n then iov else iov + [d]
  }

  /** The inner loop; `count` descriptors came before. */
  method WalkTable(m: Mem, d: Desc, count: nat, n: nat, was: seq<Desc>)
    returns (ok: bool, iov: seq<Desc>, i: nat, ghost es: seq<Desc>)
    requires d.len / 16 > 0 && count < MAX_DESCRIPTORS && |was| == Min(n, count)
    ensures ok ==> InTable(m, d, 0, es) && i == count + |es| <= MAX_DESCRIPTORS
    ensures !ok ==> forall fs :: InTable(m, d, 0, fs) ==> count + |fs| > MAX_DESCRIPTORS
    ensures ok ==> iov == was + es[..Min(n, i) - |was|]
  {
    ok, iov, i, es := false, was, count, [];
    var next := 0;
    while true
      invariant i == count + |es| <= MAX_DESCRIPTORS && 0 <= next < d.len / 16
      invariant TableWalked(m, d, es, next)
      invariant iov == was + es[..Min(n, i) - |was|]
      decreases MAX_DESCRIPTORS - i
    {
      var e := m.at(d.addr, next);
      if e.indirect { return; }
      TableWalkOn(m, d, es, next);
      iov := Record(iov, i, n, e);
      es := es + [e];
      i := i + 1;
      if i > MAX_DESCRIPTORS { return; }
      if !e.next {
        ok := true;
        return;
      }
      next := e.link;
      if next >= d.len / 16 { return; }
    }
  }

  /** vq_getchain from the head on.  It returns the number of real descriptors exactly if the
      head starts a chain of at most MAX_DESCRIPTORS, and stores the first n of them. */
  method Walk(m: Mem, head: nat, n: nat) returns (r: int, iov: seq<Desc>, ghost all: seq<Desc>)
    ensures r == -1 ==> forall ds :: Chain(m, head, ds) ==> |ds| > MAX_DESCRIPTORS
    ensures r != -1 ==> 0 < r == |all| <= MAX_DESCRIPTORS && iov == all[..Min(n, |all|)]
    ensures r != -1 ==> forall ds :: Chain(m, head, ds) <==> ds == all
  {
    iov, all := [], [];
    var i, next := 0, head;
    while i < MAX_DESCRIPTORS
      invariant i == |all| <= MAX_DESCRIPTORS && 0 <= next
      invariant Walked(m, head, all, next)
      invariant iov == all[..Min(n, i)]
      decreases MAX_DESCRIPTORS - i
    {
      if next >= |m.table| { return -1, iov, all; }
      var d := m.table[next];
      ghost var es := [d];
      var count := i + 1;
      if !d.indirect {
        iov := Record(iov, i, n, d);
      } else if !m.indirectCap || d.len % 16 != 0 || d.len / 16 == 0 {
        NoShortChain(m, head, all, next);
        return -1, iov, all;
      } else {
        var ok;
        ok, iov, count, es := WalkTable(m, d, i, n, iov);
        if !ok {
          NoShortChain(m, head, all, next);
          return -1, iov, all;
        }
      }
      WalkOn(m, head, all, next, es);
      all := all + es;
      i := count;
      if !d.next { return i, iov, all; }
      next := d.link;
    }
    return -1, iov, all;
  }

  /** If the next descriptor stands for nothing that fits, neither does the chain. */
  lemma {:induction false} NoShortChain(m: Mem, head: nat, acc: seq<Desc>, i: nat)
    requires Walked(m, head, acc, i) && i < |m.table|
    requires forall es :: Expands(m, m.table[i], es) ==> |acc| + |es| > MAX_DESCRIPTORS
    ensures forall ds :: Chain(m, head, ds) ==> |ds| > MAX_DESCRIPTORS
  {
    forall ds | Chain(m, head, ds) ensures |ds| > MAX_DESCRIPTORS {
      var rest := ds[|acc|..];
      var k :| 0 < k <= |rest| && Expands(m, m.table[i], rest[..k]) && Follows(m, m.table[i], rest, k);
    }
  }
}
