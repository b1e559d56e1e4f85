/** Shared level-triggered PCI interrupts: the INTx state of each device
    (src/lib/pci_emul.c) and the 8-pin PIRQ router (src/lib/pci_irq.c).

    A device asserts its line at most once; several devices share a PIRQ pin and an I/O APIC
    pin, and the guest reprograms the router and masks devices at any time.  `atpic` and
    `ioapic` count the assertions minus deassertions issued to each input of the two
    interrupt controllers. */
module Intx {
  datatype LintrState = IDLE | ASSERTED | PENDING

  /** struct pci_devinst: the routing and the masks of one device.  `owed` counts config
      writes that have changed a mask and have yet to call pci_lintr_update. */
  datatype Dev = Dev(pin: nat, ioapicIrq: nat, state: LintrState,
                     msi: bool, msix: bool, intxDis: bool, owed: nat)

  datatype Pirq = Pirq(reg: nat, active: int)

  datatype State = State(devs: seq<Dev>, pirqs: seq<Pirq>, atpic: seq<int>, ioapic: seq<int>)

  const NPIRQ := 8
  const NIRQ := 16
  const NIOAPIC := 24
  const PIRQ_DIS := 0x80

  /** 0xdef8: only IRQs 3-7, 9-12, and 14-15. */
  predicate IrqPermitted(irq: nat) { 3 <= irq <= 7 || 9 <= irq <= 12 || 14 <= irq <= 15 }

  /** pirq_valid_irq. */
  predicate ValidIrq(reg: nat) { reg < PIRQ_DIS && IrqPermitted(reg % 16) }

  /** val & (PIRQ_DIS | PIRQ_IRQ), for an 8-bit val. */
  function Masked(val: nat): nat { (if val % 256 >= PIRQ_DIS then PIRQ_DIS else 0) + val % 16 }

  /** pci_lintr_permitted. */
  predicate Permitted(d: Dev) { !(d.msi || d.msix || d.intxDis) }

  // ----- the operations on values -----

  predicate DevShape(d: Dev) { d.pin <= NPIRQ && d.ioapicIrq < NIOAPIC }

  predicate Shape(s: State) {
    && |s.pirqs| == NPIRQ && |s.atpic| == NIRQ && |s.ioapic| == NIOAPIC
    && forall i | 0 <= i < |s.devs| :: DevShape(s.devs[i])
  }

  function Bump(counts: seq<int>, irq: nat, n: int): seq<int> requires irq < |counts| {
    counts[irq := counts[irq] + n]
  }

  /** pci_irq_assert. */
  function IrqAssert(s: State, d: Dev): State
    requires Shape(s) && DevShape(d)
  {
    var s1 := s.(ioapic := Bump(s.ioapic, d.ioapicIrq, 1));
    if d.pin == 0 then s1
    else
      var p := s.pirqs[d.pin - 1];
      s1.(pirqs := s.pirqs[d.pin - 1 := p.(active := p.active + 1)],
          atpic := if p.active + 1 == 1 && ValidIrq(p.reg) then Bump(s.atpic, p.reg % 16, 1) else s.atpic)
  }

  /** pci_irq_deassert. */
  function IrqDeassert(s: State, d: Dev): State
    requires Shape(s) && DevShape(d)
  {
    var s1 := s.(ioapic := Bump(s.ioapic, d.ioapicIrq, -1));
    if d.pin == 0 then s1
    else
      var p := s.pirqs[d.pin - 1];
      s1.(pirqs := s.pirqs[d.pin - 1 := p.(active := p.active - 1)],
          atpic := if p.active - 1 == 0 && ValidIrq(p.reg) then Bump(s.atpic, p.reg % 16, -1) else s.atpic)
  }

  /** pirq_write, for pin 1..8. */
  function PirqWrite(s: State, pin: nat, val: nat): State
    requires Shape(s) && 1 <= pin <= NPIRQ
  {
    var p := s.pirqs[pin - 1];
    if p.reg == Masked(val) then s
    else
      var a1 := if p.active != 0 && ValidIrq(p.reg) then Bump(s.atpic, p.reg % 16, -1) else s.atpic;
      var a2 := if p.active != 0 && ValidIrq(Masked(val)) then Bump(a1, Masked(val) % 16, 1) else a1;
      s.(pirqs := s.pirqs[pin - 1 := p.(reg := Masked(val))], atpic := a2)
  }

  function SetState(s: State, i: nat, st: LintrState): State requires i < |s.devs| {
    s.(devs := s.devs[i := s.devs[i].(state := st)])
  }

  function LintrAssert(s: State, i: nat): State
    requires Shape(s) && i < |s.devs|
  {
    if s.devs[i].state != IDLE then s
    else if Permitted(s.devs[i]) then IrqAssert(SetState(s, i, ASSERTED), s.devs[i])
    else SetState(s, i, PENDING)
  }

  function LintrDeassert(s: State, i: nat): State
    requires Shape(s) && i < |s.devs|
  {
    match s.devs[i].state
    case IDLE => s
    case ASSERTED => IrqDeassert(SetState(s, i, IDLE), s.devs[i])
    case PENDING => SetState(s, i, IDLE)
  }

  /** pci_lintr_update. */
  function LintrUpdate(s: State, i: nat): State
    requires Shape(s) && i < |s.devs|
  {
    if s.devs[i].state == ASSERTED && !Permitted(s.devs[i]) then
      SetState(IrqDeassert(s, s.devs[i]), i, PENDING)
    else if s.devs[i].state == PENDING && Permitted(s.devs[i]) then
      IrqAssert(SetState(s, i, ASSERTED), s.devs[i])
    else s
  }

  // ----- the same operations in place -----

  class Router {
    const devs: array<Dev>
    const pirqs: array<Pirq>
    const atpic: array<int>
    const ioapic: array<int>

    ghost predicate Valid() reads this, devs, pirqs, atpic, ioapic {
      atpic != ioapic && Shape(Value())
    }

    function Value(): State reads this, devs, pirqs, atpic, ioapic {
      State(devs[..], pirqs[..], atpic[..], ioapic[..])
    }

    /** pci_irq_init, for devices whose lines are idle. */
    constructor (ds: seq<Dev>)
      requires forall i | 0 <= i < |ds| :: DevShape(ds[i]) && ds[i].state == IDLE
      ensures Valid() && Initial(Value()) && Value().devs == ds
      ensures fresh(devs) && fresh(pirqs) && fresh(atpic) && fresh(ioapic)
    {
      devs := new Dev[|ds|](i requires 0 <= i < |ds| => ds[i]);
      pirqs := new Pirq[NPIRQ](_ => Pirq(PIRQ_DIS, 0));
      atpic := new int[NIRQ](_ => 0);
      ioapic := new int[NIOAPIC](_ => 0);
      new;
      assert devs[..] == ds;
    }

    method PciIrqAssert(d: Dev)
      requires Valid() && DevShape(d)
      modifies pirqs, atpic, ioapic
      ensures Value() == IrqAssert(old(Value()), d)
    {
      if d.pin > 0 {
        var k := d.pin - 1;
        pirqs[k] := pirqs[k].(active := pirqs[k].active + 1);
        if pirqs[k].active == 1 && ValidIrq(pirqs[k].reg) {
          atpic[pirqs[k].reg % 16] := atpic[pirqs[k].reg % 16] + 1;
          ioapic[d.ioapicIrq] := ioapic[d.ioapicIrq] + 1;
          return;
        }
      }
      ioapic[d.ioapicIrq] := ioapic[d.ioapicIrq] + 1;
    }

    method PciIrqDeassert(d: Dev)
      requires Valid() && DevShape(d)
      modifies pirqs, atpic, ioapic
      ensures Value() == IrqDeassert(old(Value()), d)
    {
      if d.pin > 0 {
        var k := d.pin - 1;
        pirqs[k] := pirqs[k].(active := pirqs[k].active - 1);
        if pirqs[k].active == 0 && ValidIrq(pirqs[k].reg) {
          atpic[pirqs[k].reg % 16] := atpic[pirqs[k].reg % 16] - 1;
          ioapic[d.ioapicIrq] := ioapic[d.ioapicIrq] - 1;
          return;
        }
      }
      ioapic[d.ioapicIrq] := ioapic[d.ioapicIrq] - 1;
    }

    method WritePirq(pin: nat, val: nat)
      requires Valid() && 1 <= pin <= NPIRQ
      modifies pirqs, atpic
      ensures Value() == PirqWrite(old(Value()), pin, val)
    {
      var k := pin - 1;
      if pirqs[k].reg != Masked(val) {
        if pirqs[k].active != 0 && ValidIrq(pirqs[k].reg) {
          atpic[pirqs[k].reg % 16] := atpic[pirqs[k].reg % 16] - 1;
        }
        pirqs[k] := pirqs[k].(reg := Masked(val));
        if pirqs[k].active != 0 && ValidIrq(pirqs[k].reg) {
          atpic[pirqs[k].reg % 16] := atpic[pirqs[k].reg % 16] + 1;
        }
      }
    }

    method Assert(i: nat)
      requires Valid() && i < devs.Length
      modifies devs, pirqs, atpic, ioapic
      ensures Value() == LintrAssert(old(Value()), i)
    {
      if devs[i].state == IDLE {
        if Permitted(devs[i]) {
          devs[i] := devs[i].(state := ASSERTED);
          assert Value() == SetState(old(Value()), i, ASSERTED);
          PciIrqAssert(devs[i]);
        } else {
          devs[i] := devs[i].(state := PENDING);
          assert Value() == SetState(old(Value()), i, PENDING);
        }
      }
    }

    method Deassert(i: nat)
      requires Valid() && i < devs.Length
      modifies devs, pirqs, atpic, ioapic
      ensures Value() == LintrDeassert(old(Value()), i)
    {
      if devs[i].state == ASSERTED {
        devs[i] := devs[i].(state := IDLE);
        assert Value() == SetState(old(Value()), i, IDLE);
        PciIrqDeassert(devs[i]);
      } else if devs[i].state == PENDING {
        devs[i] := devs[i].(state := IDLE);
        assert Value() == SetState(old(Value()), i, IDLE);
      }
    }

    method Update(i: nat)
      requires Valid() && i < devs.Length
      modifies devs, pirqs, atpic, ioapic
      ensures Value() == LintrUpdate(old(Value()), i)
    {
      if devs[i].state == ASSERTED && !Permitted(devs[i]) {
        PciIrqDeassert(devs[i]);
        ghost var mid := Value();
        devs[i] := devs[i].(state := PENDING);
        assert Value() == SetState(mid, i, PENDING);
      } else if devs[i].state == PENDING && Permitted(devs[i]) {
        devs[i] := devs[i].(state := ASSERTED);
        assert Value() == SetState(old(Value()), i, ASSERTED);
        PciIrqAssert(devs[i]);
      }
    }
  }

  // ----- choosing pins and interrupts -----

  const IRQ_DISABLED := 0xff

  /** Use counts that differ by at most one. */
  ghost predicate Even(uses: seq<nat>) { forall i, j | 0 <= i < |uses| && 0 <= j < |uses| :: uses[i] <= uses[j] + 1 }

  predicate Unrouted(reg: nat) { reg == PIRQ_DIS }

  /** Some count stays below IRQ_DISABLED for n more uses. */
  ghost predicate HasRoom(counts: seq<nat>, n: nat) { exists q :: 0 <= q < |counts| && counts[q] + n < IRQ_DISABLED }

  ghost predicate SomeEnabled(counts: seq<nat>) { exists q :: 0 <= q < |counts| && counts[q] != IRQ_DISABLED }

  lemma RoomForSome(counts: seq<nat>, n: nat)
    requires HasRoom(counts, n)
    ensures SomeEnabled(counts)
  {
    var j :| 0 <= j < |counts| && counts[j] + n < IRQ_DISABLED;
    assert counts[j] != IRQ_DISABLED;
  }

  /** A route takes one unrouted pin and one use. */
  lemma RouteKeepsRoom(counts: seq<nat>, n: nat, q: nat)
    requires HasRoom(counts, n) && n > 0 && q < |counts| && counts[q] != IRQ_DISABLED
    ensures HasRoom(counts[q := (counts[q] + 1) % 256], n - 1)
  {
    var j :| 0 <= j < |counts| && counts[j] + n < IRQ_DISABLED;
    assert counts[q := (counts[q] + 1) % 256][j] + (n - 1) < IRQ_DISABLED;
  }

  lemma {:induction false} CountAtMost<T>(xs: seq<T>, p: T -> bool)
    ensures Count(xs, p) <= |xs|
  {
    if xs != [] { CountAtMost(xs[..|xs| - 1], p); }
  }

  class PinAllocator {
    const useCount: array<nat>
    const reg: array<nat>
    const irqCount: array<nat>

    /** Interrupts in use are permitted ones, and some 8-bit count has room for a route to
        every pin that has none. */
    ghost predicate Valid() reads this, irqCount, reg {
      && useCount.Length == NPIRQ && reg.Length == NPIRQ && irqCount.Length == NIRQ
      && useCount != reg && useCount != irqCount && reg != irqCount
      && (forall q: nat | q < NIRQ && irqCount[q] != IRQ_DISABLED :: IrqPermitted(q))
      && HasRoom(irqCount[..], Count(reg[..], Unrouted))
    }

    /** pci_irq_init. */
    constructor ()
      ensures Valid() && Even(useCount[..]) && fresh(useCount) && fresh(reg) && fresh(irqCount)
    {
      useCount := new nat[NPIRQ](_ => 0);
      reg := new nat[NPIRQ](_ => PIRQ_DIS);
      irqCount := new nat[NIRQ](q requires 0 <= q < NIRQ => if IrqPermitted(q) then 0 else IRQ_DISABLED);
      new;
      CountAtMost(reg[..], Unrouted);
      assert irqCount[..][3] + Count(reg[..], Unrouted) < IRQ_DISABLED;
    }

    /** pirq_alloc_pin: the least-used pin; a pin without a route gets the least-used
        interrupt.  Pins stay evenly used however often this is called. */
    method AllocPin() returns (pin: nat)
      requires Valid()
      modifies useCount, reg, irqCount
      ensures Valid() && 1 <= pin <= NPIRQ
      ensures forall k | 0 <= k < NPIRQ :: old(useCount[pin - 1]) <= old(useCount[k])
      ensures useCount[..] == old(useCount[..])[pin - 1 := old(useCount[pin - 1]) + 1]
      ensures Even(old(useCount[..])) ==> Even(useCount[..])
      ensures reg[..] == old(reg[..])[pin - 1 := reg[pin - 1]]
      ensures old(reg[pin - 1]) != PIRQ_DIS ==> reg[pin - 1] == old(reg[pin - 1]) && irqCount[..] == old(irqCount[..])
      ensures old(reg[pin - 1]) == PIRQ_DIS ==>
                var q := reg[pin - 1];
                && q < NIRQ && ValidIrq(q) && old(irqCount[q]) != IRQ_DISABLED
                && (forall j | 0 <= j < NIRQ && old(irqCount[j]) != IRQ_DISABLED :: old(irqCount[q]) <= old(irqCount[j]))
                && irqCount[..] == old(irqCount[..])[q := (old(irqCount[q]) + 1) % 256]
    {
      var best := LeastPin();
      useCount[best] := useCount[best] + 1;
      pin := best + 1;
      if reg[best] == PIRQ_DIS { Route(best); }
    }

    /** The first use of a pin: give it a least used interrupt. */
    method Route(best: nat)
      requires Valid() && best < NPIRQ && reg[best] == PIRQ_DIS
      modifies reg, irqCount
      ensures Valid() && reg[..] == old(reg[..])[best := reg[best]]
      ensures var q := reg[best];
        && q < NIRQ && ValidIrq(q) && old(irqCount[q]) != IRQ_DISABLED
        && (forall j | 0 <= j < NIRQ && old(irqCount[j]) != IRQ_DISABLED :: old(irqCount[q]) <= old(irqCount[j]))
        && irqCount[..] == old(irqCount[..])[q := (old(irqCount[q]) + 1) % 256]
    {
      ghost var counts, regs := irqCount[..], reg[..];
      RoomForSome(counts, Count(regs, Unrouted));
      var irq := LeastIrq();
      CountUpdate<nat>(regs, Unrouted, best, irq);
      RouteKeepsRoom(counts, Count(regs, Unrouted), irq);
      irqCount[irq] := (irqCount[irq] + 1) % 256;
      reg[best] := irq;
      assert reg[..] == regs[best := irq];
      assert irqCount[..] == counts[irq := (counts[irq] + 1) % 256];
    }

    method LeastPin() returns (best: nat)
      requires useCount.Length == NPIRQ
      ensures best < NPIRQ && forall j | 0 <= j < NPIRQ :: useCount[best] <= useCount[j]
    {
      best := 0;
      for k := 1 to NPIRQ
        invariant best < NPIRQ && forall j | 0 <= j < k :: useCount[best] <= useCount[j]
      {
        if useCount[k] < useCount[best] { best := k; }
      }
    }

    method LeastIrq() returns (irq: nat)
      requires irqCount.Length == NIRQ && SomeEnabled(irqCount[..])
      ensures irq < NIRQ && irqCount[irq] != IRQ_DISABLED
      ensures forall j | 0 <= j < NIRQ && irqCount[j] != IRQ_DISABLED :: irqCount[irq] <= irqCount[j]
    {
      var best := -1;
      for q := 0 to NIRQ
        invariant -1 <= best < q
        invariant best == -1 ==> forall j | 0 <= j < q :: irqCount[j] == IRQ_DISABLED
        invariant best >= 0 ==> irqCount[best] != IRQ_DISABLED
        invariant best >= 0 ==> forall j | 0 <= j < q && irqCount[j] != IRQ_DISABLED :: irqCount[best] <= irqCount[j]
      {
        if irqCount[q] != IRQ_DISABLED && (best == -1 || irqCount[q] < irqCount[best]) { best := q; }
      }
      irq := best;
    }
  }

  // ----- counting -----

  function Count<T>(xs: seq<T>, p: T -> bool): nat {
    if xs == [] then 0 else Count(xs[..|xs| - 1], p) + if p(xs[|xs| - 1]) then 1 else 0
  }

  lemma {:induction false} CountUpdate<T>(xs: seq<T>, p: T -> bool, i: nat, y: T)
    requires i < |xs|
    ensures Count(xs[i := y], p) == Count(xs, p) - (if p(xs[i]) then 1 else 0) + (if p(y) then 1 else 0)
    ensures p(xs[i]) ==> Count(xs, p) >= 1
  {
    var n := |xs| - 1;
    if i == n {
      assert xs[i := y][..n] == xs[..n];
    } else {
      assert xs[i := y][..n] == xs[..n][i := y];
      CountUpdate(xs[..n], p, i, y);
    }
  }

  lemma {:induction false} CountNone<T>(xs: seq<T>, p: T -> bool)
    requires forall i | 0 <= i < |xs| :: !p(xs[i])
    ensures Count(xs, p) == 0
  {
    if xs != [] { CountNone(xs[..|xs| - 1], p); }
  }

  function OnPin(pin: nat): Dev -> bool { (d: Dev) => d.pin == pin && d.state == ASSERTED }
  function OnIoapic(irq: nat): Dev -> bool { (d: Dev) => d.ioapicIrq == irq && d.state == ASSERTED }
  function Drives(irq: nat): Pirq -> bool {
    (p: Pirq) => p.active != 0 && ValidIrq(p.reg) && p.reg % 16 == irq
  }

  // ----- the invariant -----

  ghost predicate PinsOk(s: State) requires Shape(s) {
    forall p: nat | 1 <= p <= NPIRQ :: s.pirqs[p - 1].active == Count(s.devs, OnPin(p))
  }

  ghost predicate AtpicOk(s: State) requires Shape(s) {
    forall q: nat | q < NIRQ :: s.atpic[q] == Count(s.pirqs, Drives(q))
  }

  ghost predicate IoapicOk(s: State) requires Shape(s) {
    forall n: nat | n < NIOAPIC :: s.ioapic[n] == Count(s.devs, OnIoapic(n))
  }

  ghost predicate Balanced(s: State) { Shape(s) && PinsOk(s) && AtpicOk(s) && IoapicOk(s) }

  /** A device that owes no update has its line asserted only when permitted, and pending
      only when not. */
  predicate Settled(d: Dev) {
    d.owed == 0 ==> (d.state == ASSERTED ==> Permitted(d)) && (d.state == PENDING ==> !Permitted(d))
  }

  ghost predicate Inv(s: State) {
    Balanced(s) && forall i | 0 <= i < |s.devs| :: Settled(s.devs[i])
  }

  /** Replacing a device by one on the same pins changes the two device counts only there. */
  lemma DevCounts(s: State, i: nat, d: Dev, p: nat, n: nat)
    requires i < |s.devs| && d.pin == s.devs[i].pin && d.ioapicIrq == s.devs[i].ioapicIrq
    ensures var change := (if d.state == ASSERTED then 1 else 0) - (if s.devs[i].state == ASSERTED then 1 else 0);
            && Count(s.devs[i := d], OnPin(p)) == Count(s.devs, OnPin(p)) + (if d.pin == p then change else 0)
            && Count(s.devs[i := d], OnIoapic(n)) == Count(s.devs, OnIoapic(n)) + (if d.ioapicIrq == n then change else 0)
            && (s.devs[i].state == ASSERTED ==> Count(s.devs, OnPin(d.pin)) >= 1)
  {
    CountUpdate(s.devs, OnPin(p), i, d);
    CountUpdate(s.devs, OnIoapic(n), i, d);
    CountUpdate(s.devs, OnPin(d.pin), i, d);
  }

  /** A device change that leaves the asserted state alone keeps the balance. */
  lemma OtherChangeBalances(s: State, i: nat, d: Dev)
    requires Balanced(s) && i < |s.devs| && d.pin == s.devs[i].pin && d.ioapicIrq == s.devs[i].ioapicIrq
    requires (d.state == ASSERTED) == (s.devs[i].state == ASSERTED)
    ensures Balanced(s.(devs := s.devs[i := d]))
  {
    var s' := s.(devs := s.devs[i := d]);
    forall p: nat | 1 <= p <= NPIRQ ensures s'.pirqs[p - 1].active == Count(s'.devs, OnPin(p)) { DevCounts(s, i, d, p, 0); }
    forall n: nat | n < NIOAPIC ensures s'.ioapic[n] == Count(s'.devs, OnIoapic(n)) { DevCounts(s, i, d, 0, n); }
  }

  /** One more or one less active device on a pin moves the count of driving pins when the
      pin begins or ceases to be active. */
  lemma PinCounts(pirqs: seq<Pirq>, k: nat, n: int, q: nat)
    requires k < |pirqs| && pirqs[k].active >= 0 && pirqs[k].active + n >= 0
    ensures var p := pirqs[k]; var p' := p.(active := p.active + n);
      Count(pirqs[k := p'], Drives(q)) == Count(pirqs, Drives(q)) +
        if ValidIrq(p.reg) && p.reg % 16 == q then (if p'.active > 0 then 1 else 0) - (if p.active > 0 then 1 else 0) else 0
  {
    CountUpdate(pirqs, Drives(q), k, pirqs[k].(active := pirqs[k].active + n));
  }

  lemma AssertBalances(s: State, i: nat)
    requires Balanced(s) && i < |s.devs| && s.devs[i].state != ASSERTED
    ensures Balanced(IrqAssert(SetState(s, i, ASSERTED), s.devs[i]))
  {
    var d := s.devs[i].(state := ASSERTED);
    var s' := IrqAssert(SetState(s, i, ASSERTED), s.devs[i]);
    forall p: nat | 1 <= p <= NPIRQ ensures s'.pirqs[p - 1].active == Count(s'.devs, OnPin(p)) { DevCounts(s, i, d, p, 0); }
    forall n: nat | n < NIOAPIC ensures s'.ioapic[n] == Count(s'.devs, OnIoapic(n)) { DevCounts(s, i, d, 0, n); }
    if d.pin > 0 {
      var k := d.pin - 1;
      assert s.pirqs[k].active == Count(s.devs, OnPin(k + 1));
      forall q: nat | q < NIRQ ensures s'.atpic[q] == Count(s'.pirqs, Drives(q)) { PinCounts(s.pirqs, k, 1, q); }
    }
  }

  lemma DeassertBalances(s: State, i: nat, st: LintrState)
    requires Balanced(s) && i < |s.devs| && s.devs[i].state == ASSERTED && st != ASSERTED
    ensures Balanced(IrqDeassert(SetState(s, i, st), s.devs[i]))
  {
    var d := s.devs[i].(state := st);
    var s' := IrqDeassert(SetState(s, i, st), s.devs[i]);
    forall p: nat | 1 <= p <= NPIRQ ensures s'.pirqs[p - 1].active == Count(s'.devs, OnPin(p)) { DevCounts(s, i, d, p, 0); }
    forall n: nat | n < NIOAPIC ensures s'.ioapic[n] == Count(s'.devs, OnIoapic(n)) { DevCounts(s, i, d, 0, n); }
    forall q: nat | q < NIRQ ensures s'.atpic[q] == Count(s'.pirqs, Drives(q)) { DeassertAtpic(s, i, st, q); }
  }

  lemma DeassertAtpic(s: State, i: nat, st: LintrState, q: nat)
    requires Balanced(s) && i < |s.devs| && s.devs[i].state == ASSERTED && st != ASSERTED && q < NIRQ
    ensures var s' := IrqDeassert(SetState(s, i, st), s.devs[i]); s'.atpic[q] == Count(s'.pirqs, Drives(q))
  {
    var d := s.devs[i];
    if d.pin > 0 {
      DevCounts(s, i, d.(state := st), d.pin, 0);
      assert s.pirqs[d.pin - 1].active == Count(s.devs, OnPin(d.pin));
      PinCounts(s.pirqs, d.pin - 1, -1, q);
    }
  }

  lemma PirqWriteBalances(s: State, pin: nat, val: nat)
    requires Balanced(s) && 1 <= pin <= NPIRQ
    ensures Balanced(PirqWrite(s, pin, val))
  {
    var s' := PirqWrite(s, pin, val);
    var k := pin - 1;
    forall q: nat | q < NIRQ ensures s'.atpic[q] == Count(s'.pirqs, Drives(q)) {
      CountUpdate(s.pirqs, Drives(q), k, s'.pirqs[k]);
      assert s'.pirqs == s.pirqs[k := s'.pirqs[k]];
    }
    assert forall j | 0 <= j < NPIRQ :: s'.pirqs[j].active == s.pirqs[j].active;
  }

  // ----- runs -----

  /** Device i raises or lowers its line, a config write changes masks and later updates
      the line, or the guest writes a PIRQ register. */
  datatype Event =
    | Raise(i: nat)
    | Lower(i: nat)
    | SetMasks(i: nat, msi: bool, msix: bool, intxDis: bool)
    | Update(i: nat)
    | WritePirq(pin: nat, val: nat)

  predicate Fits(s: State, e: Event) {
    if e.WritePirq? then 1 <= e.pin <= NPIRQ
    else e.i < |s.devs| && (e.Update? ==> s.devs[e.i].owed > 0)
  }

  function Paid(s: State, i: nat): State requires i < |s.devs| && s.devs[i].owed > 0 {
    s.(devs := s.devs[i := s.devs[i].(owed := s.devs[i].owed - 1)])
  }

  function Step(s: State, e: Event): State
    requires Shape(s) && Fits(s, e)
  {
    match e
    case Raise(i) => LintrAssert(s, i)
    case Lower(i) => LintrDeassert(s, i)
    case SetMasks(i, msi, msix, dis) =>
      s.(devs := s.devs[i := s.devs[i].(msi := msi, msix := msix, intxDis := dis, owed := s.devs[i].owed + 1)])
    case Update(i) => Paid(LintrUpdate(s, i), i)
    case WritePirq(pin, val) => PirqWrite(s, pin, val)
  }

  /** pci_lintr_update makes a device's line match its masks, and keeps the balance. */
  lemma UpdateSettles(s: State, i: nat)
    requires Balanced(s) && i < |s.devs|
    ensures Balanced(LintrUpdate(s, i))
    ensures var d := LintrUpdate(s, i).devs[i];
            d == s.devs[i].(state := d.state)
            && (d.state == ASSERTED ==> Permitted(d)) && (d.state == PENDING ==> !Permitted(d))
            && (d.state == IDLE <==> s.devs[i].state == IDLE)
    ensures forall j | 0 <= j < |s.devs| && j != i :: LintrUpdate(s, i).devs[j] == s.devs[j]
    ensures |LintrUpdate(s, i).devs| == |s.devs|
  {
    if s.devs[i].state == ASSERTED && !Permitted(s.devs[i]) {
      DeassertBalances(s, i, PENDING);
      assert LintrUpdate(s, i) == IrqDeassert(SetState(s, i, PENDING), s.devs[i]);
    } else if s.devs[i].state == PENDING && Permitted(s.devs[i]) {
      AssertBalances(s, i);
    }
  }

  lemma StepKeepsInv(s: State, e: Event)
    requires Inv(s) && Fits(s, e)
    ensures Inv(Step(s, e))
  {
    match e
    case Raise(i) =>
      if s.devs[i].state == IDLE {
        if Permitted(s.devs[i]) { AssertBalances(s, i); }
        else { OtherChangeBalances(s, i, s.devs[i].(state := PENDING)); }
      }
    case Lower(i) =>
      if s.devs[i].state == ASSERTED { DeassertBalances(s, i, IDLE); }
      else if s.devs[i].state == PENDING { OtherChangeBalances(s, i, s.devs[i].(state := IDLE)); }
    case SetMasks(i, msi, msix, dis) => OtherChangeBalances(s, i, Step(s, e).devs[i]);
    case Update(i) =>
      UpdateSettles(s, i);
      OtherChangeBalances(LintrUpdate(s, i), i, Step(s, e).devs[i]);
    case WritePirq(pin, val) => PirqWriteBalances(s, pin, val);
  }

  /** Power-on: every line idle, every pin disabled, nothing asserted. */
  predicate Initial(s: State) {
    && Shape(s)
    && (forall i | 0 <= i < |s.devs| :: s.devs[i].state == IDLE)
    && (forall k | 0 <= k < NPIRQ :: s.pirqs[k].active == 0)
    && (forall q | 0 <= q < NIRQ :: s.atpic[q] == 0)
    && (forall n | 0 <= n < NIOAPIC :: s.ioapic[n] == 0)
  }

  lemma InitialOk(s: State)
    requires Initial(s)
    ensures Inv(s)
  {
    forall p: nat ensures Count(s.devs, OnPin(p)) == 0 && Count(s.devs, OnIoapic(p)) == 0 {
      CountNone(s.devs, OnPin(p));
      CountNone(s.devs, OnIoapic(p));
    }
    forall q: nat ensures Count(s.pirqs, Drives(q)) == 0 { CountNone(s.pirqs, Drives(q)); }
  }

  /** The state after the events es; events that do not fit are ignored. */
  function Run(s: State, es: seq<Event>): State
    requires Inv(s)
    ensures Inv(Run(s, es))
  {
    if es == [] then s
    else
      var s0 := Run(s, es[..|es| - 1]);
      var e := es[|es| - 1];
      if Fits(s0, e) then StepKeepsInv(s0, e); Step(s0, e) else s0
  }

  // ----- what the invariant means -----

  /** Device d is asserting and its pin is routed to ISA interrupt q. */
  predicate DrivesIrq(s: State, d: Dev, q: nat)
    requires |s.pirqs| == NPIRQ && DevShape(d)
  {
    d.state == ASSERTED && d.pin > 0 && ValidIrq(s.pirqs[d.pin - 1].reg) && s.pirqs[d.pin - 1].reg % 16 == q
  }

  /** A line of either controller is driven exactly when some device that may drive it is
      asserting: no interrupt is lost and none stays stuck, whatever the guest wrote. */
  lemma LinesFollowDevices(s: State, n: nat, q: nat)
    requires Inv(s) && n < NIOAPIC && q < NIRQ
    ensures s.ioapic[n] > 0 <==> exists i :: 0 <= i < |s.devs| && OnIoapic(n)(s.devs[i])
    ensures s.atpic[q] > 0 <==> exists i :: 0 <= i < |s.devs| && DrivesIrq(s, s.devs[i], q)
  {
    CountPositive(s.devs, OnIoapic(n));
    CountPositive(s.pirqs, Drives(q));
    if k: nat :| k < NPIRQ && Drives(q)(s.pirqs[k]) {
      CountPositive(s.devs, OnPin(k + 1));
      var i :| 0 <= i < |s.devs| && OnPin(k + 1)(s.devs[i]);
      assert DrivesIrq(s, s.devs[i], q);
    }
    forall i | 0 <= i < |s.devs| && DrivesIrq(s, s.devs[i], q) ensures Drives(q)(s.pirqs[s.devs[i].pin - 1]) {
      CountPositive(s.devs, OnPin(s.devs[i].pin));
      assert OnPin(s.devs[i].pin)(s.devs[i]);
    }
  }

  /** From power-on, after any events. */
  lemma LinesFollowFromPowerOn(s: State, es: seq<Event>, n: nat, q: nat)
    requires Initial(s) && n < NIOAPIC && q < NIRQ
    ensures Inv(s)
    ensures var t := Run(s, es);
      && (t.ioapic[n] > 0 <==> exists i :: 0 <= i < |t.devs| && OnIoapic(n)(t.devs[i]))
      && (t.atpic[q] > 0 <==> exists i :: 0 <= i < |t.devs| && DrivesIrq(t, t.devs[i], q))
  {
    InitialOk(s);
    LinesFollowDevices(Run(s, es), n, q);
  }

  lemma {:induction false} CountPositive<T>(xs: seq<T>, p: T -> bool)
    ensures Count(xs, p) > 0 <==> exists i :: 0 <= i < |xs| && p(xs[i])
  {
    if xs != [] {
      var ys := xs[..|xs| - 1];
      CountPositive(ys, p);
      if i :| 0 <= i < |ys| && p(ys[i]) { assert p(xs[i]); }
      if i :| 0 <= i < |xs| && p(xs[i]) { assert i < |ys| ==> p(ys[i]); }
    }
  }
}
