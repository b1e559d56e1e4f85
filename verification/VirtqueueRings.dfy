/** The avail and used rings of a virtqueue across the wrap of their 16-bit counters:
    vq_getchain's head, vq_retchain, vq_relchain, vq_endchains, vi_vq_init (src/lib/virtio.c,
    src/include/xhyve/virtio.h).  `i & (qsize - 1)` of the C code is written `i % qsize`. */
module VirtqueueRings {
  import opened Remainder
  import V = Virtqueue

  const U16 := 0x1_0000

  datatype Used = Used(id: nat, len: nat)

  /** The rings shared with the guest and the device's own counters. */
  datatype Rings = Rings(availIdx: nat, avail: seq<nat>, usedIdx: nat, used: seq<Used>, lastAvail: nat, saveUsed: nat)

  /** "size of this queue (a power of 2)" */
  predicate PowerOfTwo(n: nat) { n == 1 || (n > 1 && n % 2 == 0 && PowerOfTwo(n / 2)) }

  predicate QSize(q: nat) { 0 < q < U16 && PowerOfTwo(q) }

  predicate Shape(v: Rings, q: nat) {
    QSize(q) && |v.avail| == q && |v.used| == q && v.availIdx < U16 && v.usedIdx < U16 && v.lastAvail < U16
  }

  /** Entry of a ring of q for a running count. */
  function Slot(j: nat, q: nat): (r: nat)
    requires q > 0
    ensures r < q
  {
    if j < q then j else Slot(j - q, q)
  }

  /** ndesc of vq_getchain. */
  function NDesc(v: Rings): nat { (v.availIdx - v.lastAvail) % U16 }

  function Head(v: Rings, q: nat): nat
    requires Shape(v, q)
  {
    v.avail[Slot(v.lastAvail, q)]
  }

  function Take(v: Rings): Rings { v.(lastAvail := (v.lastAvail + 1) % U16) }

  function Untake(v: Rings): Rings { v.(lastAvail := (v.lastAvail - 1) % U16) }

  function Release(v: Rings, q: nat, u: Used): Rings
    requires Shape(v, q)
  {
    v.(used := v.used[Slot(v.usedIdx, q) := u], usedIdx := (v.usedIdx + 1) % U16)
  }

  /** Whether vq_endchains interrupts the guest. */
  function Interrupts(v: Rings, usedAll: bool, notifyOnEmpty: bool, eventIdx: bool, event: nat, noInterrupt: bool): bool {
    if usedAll && notifyOnEmpty then true
    else if eventIdx then (v.usedIdx - event - 1) % U16 < (v.usedIdx - v.saveUsed) % U16
    else v.usedIdx != v.saveUsed && !noInterrupt
  }

  class Vqueue {
    const qsize: nat
    var availIdx: nat
    const avail: array<nat>
    var usedIdx: nat
    const used: array<Used>
    var lastAvail: nat
    var saveUsed: nat

    ghost predicate Valid()
      reads this
    {
      QSize(qsize) && avail.Length == qsize && used.Length == qsize && availIdx < U16 && usedIdx < U16 && lastAvail < U16
    }

    ghost function Value(): Rings
      reads this, avail, used
    {
      Rings(availIdx, avail[..], usedIdx, used[..], lastAvail, saveUsed)
    }

    /** vi_vq_init: the rings lie in guest memory as the guest left them, and the device starts
        at 0. */
    constructor (avail: array<nat>, availIdx: nat, used: array<Used>, usedIdx: nat)
      requires QSize(avail.Length) && used.Length == avail.Length && availIdx < U16 && usedIdx < U16
      ensures Valid() && this.avail == avail && this.used == used
      ensures Value() == Rings(availIdx, avail[..], usedIdx, used[..], 0, 0)
    {
      qsize, this.avail, this.availIdx, this.used, this.usedIdx := avail.Length, avail, availIdx, used, usedIdx;
      lastAvail, saveUsed := 0, 0;
    }

    /** vq_getchain: 0 with nothing to do, -1 for a confused driver, or a chain's length. */
    method GetChain(m: V.Mem, n: nat) returns (r: int, head: nat, iov: seq<V.Desc>)
      requires Valid() && |m.table| == qsize
      modifies this
      ensures Valid()
      ensures var v := old(Value());
        if NDesc(v) == 0 then r == 0 && Value() == v
        else if NDesc(v) > qsize then r == -1 && Value() == v
        else Value() == Take(v) && head == Head(v, qsize)
      ensures 0 < NDesc(old(Value())) <= qsize ==>
                (r != -1 <==> exists ds :: V.Chain(m, head, ds) && |ds| <= V.MAX_DESCRIPTORS)
      ensures r > 0 ==> exists ds :: V.Chain(m, head, ds) && |ds| == r && iov == ds[..V.Min(n, r)]
    {
      head, iov := 0, [];
      var ndesc := (availIdx - lastAvail) % U16;
      if ndesc == 0 { return 0, head, iov; }
      if ndesc > qsize { return -1, head, iov; }
      SlotIsMod(lastAvail, qsize);
      head := avail[lastAvail % qsize];
      lastAvail := (lastAvail + 1) % U16;
      ghost var all;
      r, iov, all := V.Walk(m, head, n);
      assert r != -1 ==> V.Chain(m, head, all);
    }

    /** vq_retchain. */
    method RetChain()
      requires Valid()
      modifies this
      ensures Valid() && Value() == Untake(old(Value()))
    {
      lastAvail := (lastAvail - 1) % U16;
    }

    /** vq_relchain. */
    method RelChain(id: nat, len: nat)
      requires Valid()
      modifies this, used
      ensures Valid() && Value() == Release(old(Value()), qsize, Used(id, len))
    {
      var uidx := usedIdx;
      SlotIsMod(uidx, qsize);
      used[uidx % qsize] := Used(id, len);
      usedIdx := (uidx + 1) % U16;
    }

    /** vq_endchains. */
    method EndChains(usedAll: bool, notifyOnEmpty: bool, eventIdx: bool, event: nat, noInterrupt: bool) returns (intr: bool)
      requires Valid()
      modifies this
      ensures Valid() && Value() == old(Value()).(saveUsed := old(usedIdx))
      ensures intr == Interrupts(old(Value()), usedAll, notifyOnEmpty, eventIdx, event, noInterrupt)
    {
      var oldIdx, newIdx := saveUsed, usedIdx;
      saveUsed := newIdx;
      if usedAll && notifyOnEmpty {
        intr := true;
      } else if eventIdx {
        intr := (newIdx - event - 1) % U16 < (newIdx - oldIdx) % U16;
      } else {
        intr := newIdx != oldIdx && !noInterrupt;
      }
    }
  }

  // ----- runs of a guest and the device -----

  /** Everything that ever went through the queue: the heads the guest published, how many
      the device holds or has released, the entries it released, and how many of those the
      guest has read back. */
  datatype State = State(v: Rings, heads: seq<nat>, taken: nat, done: seq<Used>, reaped: nat)

  datatype Event = Publish(head: nat) | Get | Ret | Rel(u: Used) | Reap

  /** The guest has qsize descriptors to hand out; the device releases what it has taken. */
  predicate Enabled(s: State, q: nat, e: Event) {
    match e
    case Publish(_) => |s.heads| < s.reaped + q
    case Get => 0 < NDesc(s.v) <= q
    case Ret => |s.done| < s.taken
    case Rel(_) => |s.done| < s.taken
    case Reap => s.reaped < |s.done|
  }

  function Step(s: State, q: nat, e: Event): State
    requires Shape(s.v, q)
  {
    if !Enabled(s, q, e) then s
    else
      match e
      case Publish(h) =>
        s.(v := s.v.(avail := s.v.avail[Slot(s.v.availIdx, q) := h], availIdx := (s.v.availIdx + 1) % U16),
           heads := s.heads + [h])
      case Get => s.(v := Take(s.v), taken := s.taken + 1)
      case Ret => s.(v := Untake(s.v), taken := s.taken - 1)
      case Rel(u) => s.(v := Release(s.v, q, u), done := s.done + [u])
      case Reap => s.(reaped := s.reaped + 1)
  }

  /** The counters are the totals modulo 2^16, in order and at most a queue apart. */
  ghost predicate CountersOk(s: State, q: nat) {
    && Shape(s.v, q)
    && s.v.availIdx == |s.heads| % U16 && s.v.lastAvail == s.taken % U16 && s.v.usedIdx == |s.done| % U16
    && s.reaped <= |s.done| <= s.taken <= |s.heads| <= s.reaped + q
  }

  /** What was published and not yet reaped is still in its slot, and so is what was released. */
  ghost predicate SlotsOk(s: State, q: nat)
    requires CountersOk(s, q)
  {
    && (forall j: nat :: s.reaped <= j < |s.heads| ==> s.v.avail[Slot(j, q)] == s.heads[j])
    && (forall j: nat :: s.reaped <= j < |s.done| ==> s.v.used[Slot(j, q)] == s.done[j])
  }

  ghost predicate Inv(s: State, q: nat) { CountersOk(s, q) && SlotsOk(s, q) }

  lemma {:induction false} SlotIsMod(j: nat, q: nat)
    requires q > 0
    ensures Slot(j, q) == j % q
  {
    if j >= q {
      SlotIsMod(j - q, q);
      var c, r := (j - q) / q, (j - q) % q;
      assert j - q == q * c + r && j == q * (c + 1) + r;
      ModUnique(j, q, c + 1, r);
    } else {
      ModUnique(j, q, 0, j);
    }
  }

  lemma {:induction false} SlotShift(j: nat, q: nat, c: nat)
    requires q > 0
    ensures Slot(j + q * c, q) == Slot(j, q)
  {
    if c > 0 {
      SlotShift(j, q, c - 1);
      assert j + q * c - q == j + q * (c - 1) && q * c >= q;
    }
  }

  lemma {:induction false} PowersDivide(q: nat, n: nat) returns (c: nat)
    requires PowerOfTwo(q) && PowerOfTwo(n) && q <= n
    ensures q * c == n
  {
    if q == 1 {
      c := n;
    } else {
      c := PowersDivide(q / 2, n / 2);
      assert 2 * (q / 2 * c) == q * c;
    }
  }

  /** A 16-bit counter picks the same slot as the total it stands for. */
  lemma {:induction false} SameSlot(j: nat, q: nat)
    requires QSize(q)
    ensures Slot(j % U16, q) == Slot(j, q)
  {
    assert PowerOfTwo(65536);
    var c := PowersDivide(q, 65536);
    SlotShift(j % U16, q, c * (j / U16));
    assert q * (c * (j / U16)) == U16 * (j / U16);
  }

  /** Totals less than a queue apart have different slots. */
  lemma {:induction false} OtherSlot(i: nat, j: nat, q: nat)
    requires 0 < q && i < j < i + q
    ensures Slot(i, q) != Slot(j, q)
  {
    if i >= q { OtherSlot(i - q, j - q, q); }
  }

  /** Writing slot n of a ring leaves the entries of the totals up to a queue below it. */
  lemma {:induction false} WriteKeepsSlots<T>(ring: seq<T>, log: seq<T>, lo: nat, q: nat, x: T)
    requires 0 < q == |ring| && lo <= |log| < lo + q
    requires forall j: nat :: lo <= j < |log| ==> ring[Slot(j, q)] == log[j]
    ensures var r := ring[Slot(|log|, q) := x];
      forall j: nat :: lo <= j < |log| + 1 ==> r[Slot(j, q)] == (log + [x])[j]
  {
    forall j: nat | lo <= j < |log| ensures Slot(j, q) != Slot(|log|, q) { OtherSlot(j, |log|, q); }
  }

  lemma {:induction false} WrapUnique(x: int, a: int, r: int)
    requires x == U16 * a + r && 0 <= r < U16
    ensures x % U16 == r
  {
  }

  lemma {:induction false} CountU16(n: nat)
    ensures (n % U16 + 1) % U16 == (n + 1) % U16
    ensures n > 0 ==> (n % U16 - 1) % U16 == (n - 1) % U16
  {
    var a, r := n / U16, n % U16;
    if r + 1 < U16 { WrapUnique(n + 1, a, r + 1); } else { WrapUnique(n + 1, a + 1, 0); }
    if r > 0 { WrapUnique(n - 1, a, r - 1); } else { WrapUnique(n - 1, a - 1, U16 - 1); }
  }

  lemma {:induction false} PublishKeepsInv(s: State, q: nat, h: nat)
    requires Inv(s, q) && Enabled(s, q, Publish(h))
    ensures Inv(Step(s, q, Publish(h)), q)
  {
    SameSlot(|s.heads|, q);
    CountU16(|s.heads|);
    WriteKeepsSlots(s.v.avail, s.heads, s.reaped, q, h);
  }

  lemma {:induction false} RelKeepsInv(s: State, q: nat, u: Used)
    requires Inv(s, q) && Enabled(s, q, Rel(u))
    ensures Inv(Step(s, q, Rel(u)), q)
  {
    SameSlot(|s.done|, q);
    CountU16(|s.done|);
    WriteKeepsSlots(s.v.used, s.done, s.reaped, q, u);
  }

  /** The 16-bit difference is the number of published heads not yet taken. */
  lemma {:induction false} NDescExact(s: State, q: nat)
    requires CountersOk(s, q)
    ensures NDesc(s.v) == |s.heads| - s.taken <= q
  {
    var a, b := |s.heads|, s.taken;
    assert a == U16 * (a / U16) + a % U16 && b == U16 * (b / U16) + b % U16;
  }

  lemma {:induction false} StepKeepsInv(s: State, q: nat, e: Event)
    requires Inv(s, q)
    ensures Inv(Step(s, q, e), q)
  {
    if Enabled(s, q, e) {
      NDescExact(s, q);
      CountU16(s.taken);
      if e.Publish? { PublishKeepsInv(s, q, e.head); } else if e.Rel? { RelKeepsInv(s, q, e.u); }
    }
  }

  ghost function Run(s: State, q: nat, es: seq<Event>): (r: State)
    requires Inv(s, q)
    ensures Inv(r, q)
  {
    if es == [] then s
    else
      var p := Run(s, q, es[..|es| - 1]);
      StepKeepsInv(p, q, es[|es| - 1]);
      Step(p, q, es[|es| - 1])
  }

  /** A queue just set up by vi_vq_init over zeroed rings. */
  ghost function Initial(q: nat): (s: State)
    requires QSize(q)
    ensures Inv(s, q)
  {
    State(Rings(0, seq(q, i => 0), 0, seq(q, i => Used(0, 0)), 0, 0), [], 0, [], 0)
  }

  /** In every reachable state vq_getchain sees work exactly if there is some, never finds
      the driver confused, and takes the heads in the order they were published. */
  lemma TakesInOrder(s: State, q: nat)
    requires Inv(s, q)
    ensures NDesc(s.v) == 0 <==> s.taken == |s.heads|
    ensures NDesc(s.v) <= q
    ensures s.taken < |s.heads| ==> Head(s.v, q) == s.heads[s.taken]
  {
    NDescExact(s, q);
    SameSlot(s.taken, q);
  }

  /** The guest reads back every released entry, in the order of release. */
  lemma ReapsInOrder(s: State, q: nat)
    requires Inv(s, q) && s.reaped < |s.done|
    ensures s.v.used[Slot(s.reaped % U16, q)] == s.done[s.reaped]
  {
    SameSlot(s.reaped, q);
  }

  /** vq_retchain undoes vq_getchain. */
  lemma {:induction false} RetUndoesGet(v: Rings)
    requires v.lastAvail < U16
    ensures Untake(Take(v)) == v
  {
  }

  // ----- when to interrupt -----

  /** With EVENT_IDX the guest is interrupted exactly if the used index moved past the entry
      it named, for any totals less than 2^16 apart and whatever the counters wrapped to. */
  lemma {:induction false} EventIdxExact(v: Rings, old_: nat, new_: nat, event: nat)
    requires old_ <= new_ < old_ + U16 && v.saveUsed == old_ % U16 && v.usedIdx == new_ % U16 && event < U16
    ensures Interrupts(v, false, false, true, event, false) <==> exists e: nat :: old_ <= e < new_ && e % U16 == event
  {
    Difference(new_, old_);
    var k := (v.usedIdx - event - 1) % U16;
    if k < new_ - old_ {
      EventAt(new_, event, k);
      assert old_ <= new_ - 1 - k < new_;
    }
    if e: nat :| old_ <= e < new_ && e % U16 == event { EventBefore(new_, e); }
  }

  lemma {:induction false} EventAt(n: nat, event: nat, k: nat)
    requires event < U16 && k == (n % U16 - event - 1) % U16 && k < n
    ensures (n - 1 - k) % U16 == event
  {
    var d := n % U16 - event - 1;
    assert k == d || k == d + U16;
    WrapUnique(n - 1 - k, n / U16 - (if k == d then 0 else 1), event);
  }

  lemma {:induction false} EventBefore(n: nat, e: nat)
    requires e < n <= e + U16
    ensures (n % U16 - e % U16 - 1) % U16 == n - 1 - e
  {
    WrapUnique(n % U16 - e % U16 - 1, e / U16 - n / U16, n - 1 - e);
  }

  lemma {:induction false} Difference(a: nat, b: nat)
    requires b <= a < b + U16
    ensures (a % U16 - b % U16) % U16 == a - b
  {
    assert a == U16 * (a / U16) + a % U16 && b == U16 * (b / U16) + b % U16;
  }

  // ----- the layout of the rings in guest memory -----

  const DESC_SIZE := 16
  const USED_SIZE := 8
  const VRING_ALIGN := 4096

  function RoundUp(n: nat): nat { (n + VRING_ALIGN - 1) / VRING_ALIGN * VRING_ALIGN }

  /** vring_size. */
  function VringSize(q: nat): nat { RoundUp(RoundUp(DESC_SIZE * q + 2 * (3 + q)) + 2 * 3 + USED_SIZE * q) }

  /** vi_vq_init's three addresses, from a page-aligned base. */
  function AvailAt(base: nat, q: nat): nat { base + q * DESC_SIZE }
  function UsedAt(base: nat, q: nat): nat { RoundUp(AvailAt(base, q) + (2 + q + 1) * 2) }

  /** The three areas do not overlap, and together fit what was mapped for them. */
  lemma {:induction false} LayoutFits(base: nat, q: nat)
    requires base % VRING_ALIGN == 0
    ensures base + DESC_SIZE * q <= AvailAt(base, q)
    ensures AvailAt(base, q) + 2 * (3 + q) <= UsedAt(base, q)
    ensures UsedAt(base, q) + 2 * 3 + USED_SIZE * q <= base + VringSize(q)
  {
    var n := DESC_SIZE * q + 2 * (3 + q);
    assert RoundUp(base + n) == base + RoundUp(n);
  }
}
