/** Hardware task switching: vmexit_task_switch with tss32_save and tss32_restore
    (src/lib/task_switch.c).  Segment descriptors of the new task are not part of this model;
    guest memory holds the descriptor table and the task state segments. */
module TaskSwitch {
  const U32 := 0x1_0000_0000
  const U16 := 0x1_0000
  const MIN_LIMIT32 := 103
  const MIN_LIMIT16 := 43

  datatype Reason = CALL | IRET | JMP | IDT_GATE

  /** EFLAGS with the nested-task bit apart. */
  datatype Flags = Flags(nt: bool, rest: nat)

  /** eax to edi, es to gs, eflags and eip. */
  datatype Regs = Regs(gpr: seq<nat>, seg: seq<nat>, flags: Flags, eip: nat)

  datatype Tss = Tss(link: nat, regs: Regs, ldt: nat, cr3: nat)

  datatype Kind = Tss32 | Tss16 | OtherKind
  datatype Desc = Desc(kind: Kind, busy: bool, present: bool, limit: nat, base: nat)

  /** The descriptor table by selector, TSS memory by address, the task register with its
      hidden base, the other registers, and CR0.TS. */
  datatype State = State(
    gdt: map<nat, Desc>, mem: map<nat, Tss>, tr: nat, trBase: nat, regs: Regs, ldtr: nat, cr3: nat, paging: bool, ts: bool)

  datatype Vector = TS | NP | GP | PF
  datatype Outcome = Fault(v: Vector) | Abort | Passed | Switched(s: State)

  /** The vcpu registers cut to the fields of the TSS. */
  function Truncated(r: Regs): Regs {
    Regs(seq(|r.gpr|, i requires 0 <= i < |r.gpr| => r.gpr[i] % U32),
         seq(|r.seg|, i requires 0 <= i < |r.seg| => r.seg[i] % U16), r.flags, r.eip % U32)
  }

  /** tss32_save: link, ldt and cr3 stay as they are in memory. */
  function Save(t: Tss, r: Regs, eip: nat, reason: Reason): Tss {
    var flags := if reason == IRET then r.flags.(nt := false) else r.flags;
    t.(regs := Truncated(r).(flags := flags, eip := eip % U32))
  }

  /** Link, LDT and CR3 stay as they are in memory, each register is cut to its field, and
      only IRET changes the flags: it clears the nested-task bit. */
  lemma SaveMeans(t: Tss, r: Regs, eip: nat, reason: Reason)
    ensures var u := Save(t, r, eip, reason);
      && u.link == t.link && u.ldt == t.ldt && u.cr3 == t.cr3 && u.regs.eip == eip % U32
      && |u.regs.gpr| == |r.gpr| && |u.regs.seg| == |r.seg|
      && (forall i :: 0 <= i < |r.gpr| ==> u.regs.gpr[i] == r.gpr[i] % U32)
      && (forall i :: 0 <= i < |r.seg| ==> u.regs.seg[i] == r.seg[i] % U16)
      && u.regs.flags.rest == r.flags.rest && (u.regs.flags.nt <==> r.flags.nt && reason != IRET)
  {
  }

  predicate Nested(reason: Reason) { reason != IRET && reason != JMP }

  /** tss32_restore: the registers, and the TSS as written back for a nested task. */
  function Loaded(t: Tss, reason: Reason): Regs {
    if Nested(reason) then t.regs.(flags := t.regs.flags.(nt := true)) else t.regs
  }

  /** The checks before anything is changed. */
  function Check(s: State, reason: Reason, sel: nat): Outcome {
    if sel !in s.gdt then Abort
    else
      var d := s.gdt[sel];
      if d.kind == OtherKind then Fault(TS)
      else if !d.present then Fault(NP)
      else if d.limit < (if d.kind == Tss32 then MIN_LIMIT32 else MIN_LIMIT16) then Fault(TS)
      else if reason == IRET && !d.busy then Fault(TS)
      else if reason != IRET && d.busy then Fault(GP)
      else if d.base !in s.mem then Fault(PF)
      else if s.tr == 0 then Fault(TS)
      else if s.tr !in s.gdt then Abort
      else if s.trBase !in s.mem then Fault(PF)
      else Passed
  }

  /** The checks pass exactly if the new TSS is present, large enough, mapped, and busy just
      for IRET, and the old one is named by the task register and mapped. */
  lemma CheckPassesIff(s: State, reason: Reason, sel: nat)
    ensures Check(s, reason, sel).Passed? <==>
      (&& sel in s.gdt && s.gdt[sel].kind != OtherKind && s.gdt[sel].present && s.gdt[sel].base in s.mem
       && (if s.gdt[sel].kind == Tss32 then 104 else 44) <= s.gdt[sel].limit + 1
       && (s.gdt[sel].busy <==> reason == IRET)
       && s.tr != 0 && s.tr in s.gdt && s.trBase in s.mem)
  {
  }

  /** The switch itself; `eip` is the return address for the old task. */
  function Committed(s: State, reason: Reason, sel: nat, eip: nat): State
    requires Check(s, reason, sel).Passed?
  {
    var nt, new_, old_ := s.gdt[sel], s.mem[s.gdt[sel].base], s.mem[s.trBase];
    var gdt1 := if reason == IRET || reason == JMP then s.gdt[s.tr := s.gdt[s.tr].(busy := false)] else s.gdt;
    var mem1 := s.mem[s.trBase := Save(old_, s.regs, eip, reason)];
    var gdt2 := if reason != IRET then gdt1[sel := nt.(busy := true)] else gdt1;
    var mem2 := if Nested(reason) then mem1[nt.base := new_.(link := s.tr)] else mem1;
    s.(gdt := gdt2, mem := mem2, tr := sel, trBase := nt.base, regs := Loaded(new_, reason),
       ldtr := new_.ldt, cr3 := if s.paging then new_.cr3 else s.cr3, ts := true)
  }

  /** vmexit_task_switch to the TSS of `sel`. */
  function Switch(s: State, reason: Reason, sel: nat, eip: nat): Outcome {
    var o := Check(s, reason, sel);
    if !o.Passed? then o
    else if s.gdt[sel].kind == Tss16 then Abort
    else Switched(Committed(s, reason, sel, eip))
  }

  datatype Exit = Continue | Stop

  /** The same in place.  A fault leaves the machine as it was, with the exception to deliver. */
  class Vcpu {
    var gdt: map<nat, Desc>
    var mem: map<nat, Tss>
    var tr: nat
    var trBase: nat
    var regs: Regs
    var ldtr: nat
    var cr3: nat
    var paging: bool
    var ts: bool
    var pending: seq<Vector>

    ghost function Value(): State
      reads this
    {
      State(gdt, mem, tr, trBase, regs, ldtr, cr3, paging, ts)
    }

    constructor (s: State)
      ensures Value() == s && pending == []
    {
      gdt, mem, tr, trBase, regs := s.gdt, s.mem, s.tr, s.trBase, s.regs;
      ldtr, cr3, paging, ts, pending := s.ldtr, s.cr3, s.paging, s.ts, [];
    }

    method TssSave(t: Tss, eip: nat, reason: Reason) returns (r: Tss)
      ensures r == Save(t, regs, eip, reason)
    {
      var flags := regs.flags;
      if reason == IRET { flags := flags.(nt := false); }
      r := t.(regs := Truncated(regs).(flags := flags, eip := eip % U32));
    }

    /** The checks, in the source's order. */
    method Checks(reason: Reason, sel: nat) returns (o: Outcome)
      ensures o == Check(Value(), reason, sel)
    {
      if sel !in gdt { return Abort; }
      var nt := gdt[sel];
      if nt.kind == OtherKind { return Fault(TS); }
      if !nt.present { return Fault(NP); }
      var minlimit := if nt.kind == Tss32 then MIN_LIMIT32 else MIN_LIMIT16;
      if nt.limit < minlimit { return Fault(TS); }
      if reason == IRET && !nt.busy { return Fault(TS); }
      if reason != IRET && nt.busy { return Fault(GP); }
      if nt.base !in mem { return Fault(PF); }
      if tr == 0 { return Fault(TS); }
      if tr !in gdt { return Abort; }
      if trBase !in mem { return Fault(PF); }
      return Passed;
    }

    /** tss32_restore: the registers, and for a nested task the link in memory. */
    method TssRestore(newtss: Tss, base: nat, otSel: nat, reason: Reason)
      modifies `ldtr, `cr3, `regs, `mem
      ensures ldtr == newtss.ldt && cr3 == (if paging then newtss.cr3 else old(cr3)) && regs == Loaded(newtss, reason)
      ensures mem == if Nested(reason) then old(mem)[base := newtss.(link := otSel)] else old(mem)
    {
      ldtr := newtss.ldt;
      if paging { cr3 := newtss.cr3; }
      regs := newtss.regs;
      if reason != IRET && reason != JMP {
        regs := regs.(flags := regs.flags.(nt := true));
        mem := mem[base := newtss.(link := otSel)];
      }
    }

    /** From the old task's busy bit to the new task's registers. */
    method Commit(reason: Reason, sel: nat, eip: nat)
      requires Check(Value(), reason, sel).Passed?
      modifies this
      ensures Value() == Committed(old(Value()), reason, sel, eip) && pending == old(pending)
    {
      var nt, otSel := gdt[sel], tr;
      var newtss, oldtss := mem[nt.base], mem[trBase];
      if reason == IRET || reason == JMP { gdt := gdt[otSel := gdt[otSel].(busy := false)]; }
      oldtss := TssSave(oldtss, eip, reason);
      mem := mem[trBase := oldtss];
      if reason != IRET { gdt := gdt[sel := nt.(busy := true)]; }
      tr, trBase, ts := sel, nt.base, true;
      TssRestore(newtss, nt.base, otSel, reason);
    }

    /** vmexit_task_switch. */
    method VmexitTaskSwitch(reason: Reason, sel: nat, eip: nat) returns (e: Exit)
      modifies this
      ensures match Switch(old(Value()), reason, sel, eip)
              case Switched(s) => e == Continue && Value() == s && pending == old(pending)
              case Fault(v) => e == Continue && Value() == old(Value()) && pending == old(pending) + [v]
              case _ => e == Stop
    {
      var o := Checks(reason, sel);
      if o.Fault? {
        pending := pending + [o.v];
        return Continue;
      }
      if o.Abort? || gdt[sel].kind == Tss16 { return Stop; }
      Commit(reason, sel, eip);
      return Continue;
    }
  }

  // ----- the chain of nested tasks -----

  predicate IsTss(s: State, sel: nat) { sel in s.gdt && s.gdt[sel].kind != OtherKind }

  predicate Usable(s: State, sel: nat) {
    && sel in s.gdt && s.gdt[sel].kind == Tss32 && s.gdt[sel].present && s.gdt[sel].limit >= MIN_LIMIT32
    && s.gdt[sel].base in s.mem
  }

  /** Tasks have their own memory. */
  ghost predicate Separate(s: State) {
    forall a, b :: IsTss(s, a) && IsTss(s, b) && s.gdt[a].base == s.gdt[b].base ==> a == b
  }

  function Link(s: State, sel: nat): nat
    requires Usable(s, sel)
  {
    s.mem[s.gdt[sel].base].link
  }

  predicate Distinct(c: seq<nat>) { forall i, j :: 0 <= i < j < |c| ==> c[i] != c[j] }

  /** c lists the running task and, by way of the previous-task links, those it interrupted;
      they are the busy ones. */
  ghost predicate Chain(s: State, c: seq<nat>) {
    && c != [] && Distinct(c) && 0 !in s.gdt && Separate(s)
    && s.tr == c[0] && (forall i :: 0 <= i < |c| ==> Usable(s, c[i]))
    && s.trBase == s.gdt[s.tr].base
    && (forall i :: 0 <= i < |c| - 1 ==> Link(s, c[i]) == c[i + 1])
    && (forall sel :: IsTss(s, sel) ==> (s.gdt[sel].busy <==> sel in c))
  }

  /** A CALL or a gate puts the new task on top of the chain. */
  lemma {:induction false} NestKeepsChain(s: State, c: seq<nat>, reason: Reason, sel: nat, eip: nat)
    requires Chain(s, c) && Nested(reason) && Switch(s, reason, sel, eip).Switched?
    ensures Chain(Switch(s, reason, sel, eip).s, [sel] + c)
  {
    var s', d := Switch(s, reason, sel, eip).s, [sel] + c;
    assert sel !in c;
    assert s.gdt[sel].base != s.trBase;
    assert forall x :: IsTss(s', x) <==> IsTss(s, x);
    forall i | 0 <= i < |d| ensures Usable(s', d[i]) { assert i > 0 ==> Usable(s, c[i - 1]); }
    forall i | 0 <= i < |d| - 1 ensures Link(s', d[i]) == d[i + 1] {
      if i > 0 {
        assert d[i] == c[i - 1] && s'.gdt[d[i]].base == s.gdt[c[i - 1]].base;
        if i < |c| { assert Link(s, c[i - 1]) == c[i]; }
      }
    }
  }

  /** What switching away leaves alone: descriptors but for the busy bit, and the memory of
      all tasks but the old and the new one, of which the old one keeps its link. */
  lemma {:induction false} SwitchKeeps(s: State, reason: Reason, sel: nat, eip: nat, x: nat)
    requires Separate(s) && Switch(s, reason, sel, eip).Switched? && s.trBase == s.gdt[s.tr].base
    requires IsTss(s, x) && IsTss(s, s.tr) && s.gdt[x].base in s.mem
    ensures var s' := Switch(s, reason, sel, eip).s;
      && (forall y :: y in s'.gdt <==> y in s.gdt)
      && s'.gdt[x] == s.gdt[x].(busy := s'.gdt[x].busy) && s.gdt[x].base in s'.mem
      && (x != sel || !Nested(reason) ==> s'.mem[s.gdt[x].base].link == s.mem[s.gdt[x].base].link)
      && (x != s.tr && (x != sel || !Nested(reason)) ==> s'.mem[s.gdt[x].base] == s.mem[s.gdt[x].base])
  {
  }

  /** IRET to the linked task takes the running one off the chain. */
  lemma {:induction false} IretKeepsChain(s: State, c: seq<nat>, eip: nat)
    requires Chain(s, c) && |c| > 1
    ensures Switch(s, IRET, c[1], eip).Switched? && Chain(Switch(s, IRET, c[1], eip).s, c[1..])
  {
    var d := c[1..];
    assert Usable(s, c[1]) && Usable(s, c[0]);
    var s' := Switch(s, IRET, c[1], eip).s;
    assert forall x :: IsTss(s', x) <==> IsTss(s, x);
    forall i | 0 <= i < |d| ensures Usable(s', d[i]) { assert Usable(s, c[i + 1]); }
    forall i | 0 <= i < |d| - 1 ensures Link(s', d[i]) == d[i + 1] {
      assert Link(s, c[i + 1]) == c[i + 2];
      assert d[i] != s.tr;
    }
    assert c == [c[0]] + d;
  }

  /** With a single task on the chain, IRET to another one faults and changes nothing; IRET
      by a link to itself goes through and leaves the running task marked available. */
  lemma {:induction false} IretAtRoot(s: State, c: seq<nat>, sel: nat, eip: nat)
    requires Chain(s, c) && |c| == 1
    ensures sel != c[0] <==> !Switch(s, IRET, sel, eip).Switched?
    ensures sel == c[0] ==> var s' := Switch(s, IRET, sel, eip).s; s'.tr == sel && sel in s'.gdt && !s'.gdt[sel].busy
  {
    assert Usable(s, c[0]);
  }

  /** The tasks below keep their TSS and their links. */
  lemma {:induction false} JmpKeepsLinks(s: State, c: seq<nat>, sel: nat, eip: nat, i: nat)
    requires Chain(s, c) && Switch(s, JMP, sel, eip).Switched? && 1 <= i < |c|
    ensures var s' := Switch(s, JMP, sel, eip).s; Usable(s', c[i]) && (i < |c| - 1 ==> Link(s', c[i]) == c[i + 1])
  {
    assert Usable(s, c[0]) && Usable(s, c[i]) && c[i] != s.tr && sel !in c;
    SwitchKeeps(s, JMP, sel, eip, c[i]);
    if i < |c| - 1 { assert Link(s, c[i]) == c[i + 1]; }
  }

  lemma {:induction false} JmpKeepsBusy(s: State, c: seq<nat>, sel: nat, eip: nat, x: nat)
    requires Chain(s, c) && Switch(s, JMP, sel, eip).Switched?
    requires IsTss(Switch(s, JMP, sel, eip).s, x)
    ensures Switch(s, JMP, sel, eip).s.gdt[x].busy <==> x in [sel] + c[1..]
  {
    assert Usable(s, c[0]) && sel !in c && c == [c[0]] + c[1..];
    assert IsTss(s, x);
  }

  /** What a chain is made of, for a machine with the same tasks at the same places. */
  lemma {:induction false} Assemble(s: State, t: State, d: seq<nat>)
    requires Separate(s) && 0 !in t.gdt && d != [] && Distinct(d) && t.tr == d[0]
    requires forall x :: IsTss(t, x) ==> IsTss(s, x) && t.gdt[x].base == s.gdt[x].base
    requires forall i :: 0 <= i < |d| ==> Usable(t, d[i]) && (i < |d| - 1 ==> Link(t, d[i]) == d[i + 1])
    requires t.tr in t.gdt && t.trBase == t.gdt[t.tr].base
    requires forall x :: IsTss(t, x) ==> (t.gdt[x].busy <==> x in d)
    ensures Chain(t, d)
  {
  }

  lemma {:induction false} JmpPlaces(s: State, sel: nat, eip: nat, x: nat)
    requires Switch(s, JMP, sel, eip).Switched?
    ensures var t := Switch(s, JMP, sel, eip).s;
      (x in t.gdt <==> x in s.gdt) && (x in s.gdt ==> t.gdt[x] == s.gdt[x].(busy := t.gdt[x].busy))
  {
  }

  lemma {:induction false} JmpKeepsChain(s: State, c: seq<nat>, sel: nat, eip: nat)
    requires Chain(s, c) && Switch(s, JMP, sel, eip).Switched? && Usable(s, sel)
    requires |c| == 1 || Link(s, sel) == c[1]
    ensures Chain(Switch(s, JMP, sel, eip).s, [sel] + c[1..])
  {
    var t, d := Switch(s, JMP, sel, eip).s, [sel] + c[1..];
    assert Usable(s, c[0]) && sel !in c;
    SwitchKeeps(s, JMP, sel, eip, sel);
    forall x ensures IsTss(t, x) ==> IsTss(s, x) && t.gdt[x].base == s.gdt[x].base { JmpPlaces(s, sel, eip, x); }
    JmpPlaces(s, sel, eip, 0);
    forall i | 0 <= i < |d| ensures Usable(t, d[i]) && (i < |d| - 1 ==> Link(t, d[i]) == d[i + 1]) {
      if i > 0 { JmpKeepsLinks(s, c, sel, eip, i); }
    }
    forall x | IsTss(t, x) ensures t.gdt[x].busy <==> x in d { JmpKeepsBusy(s, c, sel, eip, x); }
    Assemble(s, t, d);
  }

  /** JMP replaces the running task: the chain is kept exactly if nothing was interrupted or
      the new task already links to what was. */
  lemma {:induction false} JmpIff(s: State, c: seq<nat>, sel: nat, eip: nat)
    requires Chain(s, c) && Switch(s, JMP, sel, eip).Switched?
    ensures Usable(s, sel)
    ensures Chain(Switch(s, JMP, sel, eip).s, [sel] + c[1..]) <==> |c| == 1 || Link(s, sel) == c[1]
  {
    if |c| == 1 || Link(s, sel) == c[1] {
      JmpKeepsChain(s, c, sel, eip);
    } else {
      assert Usable(s, c[0]);
      SwitchKeeps(s, JMP, sel, eip, sel);
      var s', d := Switch(s, JMP, sel, eip).s, [sel] + c[1..];
      assert d[1] == c[1];
    }
  }

  // ----- runs: every task is resumed as it was interrupted -----

  /** A machine, its chain, and the registers each interrupted task expects back. */
  datatype Sys = Sys(s: State, c: seq<nat>, frames: seq<Regs>)

  ghost predicate Inv(y: Sys) {
    && Chain(y.s, y.c) && |y.frames| == |y.c| - 1
    && forall i :: 0 <= i < |y.frames| ==> Frame(y, i) == y.frames[i]
  }

  function Frame(y: Sys, i: nat): Regs
    requires i + 1 < |y.c| && Usable(y.s, y.c[i + 1])
  {
    y.s.mem[y.s.gdt[y.c[i + 1]].base].regs
  }

  datatype Event =
    | Work(s: State)                             // the running task computes
    | Nest(reason: Reason, sel: nat, eip: nat)   // CALL, exception or interrupt through a task gate
    | Back(eip: nat)                             // IRET in a nested task

  /** What the running task may do: change its registers, LDTR, CR3, any memory and any
      descriptor, but not the task register, the descriptors on the chain, the TSS of an
      interrupted task or its own previous-task link; it marks no other task busy and gives no
      two tasks one TSS. */
  ghost predicate MayWork(y: Sys, s: State)
    requires Inv(y)
  {
    && s.tr == y.s.tr && s.trBase == y.s.trBase && 0 !in s.gdt && Separate(s)
    && (forall x :: x in y.c ==> x in s.gdt && s.gdt[x] == y.s.gdt[x])
    && (forall x :: IsTss(s, x) && x !in y.c ==> !s.gdt[x].busy)
    && (forall b :: b in y.s.mem ==> b in s.mem)
    && s.mem[s.trBase].link == y.s.mem[s.trBase].link
    && forall i :: 1 <= i < |y.c| ==> s.mem[s.gdt[y.c[i]].base] == y.s.mem[s.gdt[y.c[i]].base]
  }

  ghost function Step(y: Sys, e: Event): Sys
    requires Inv(y)
  {
    match e
    case Work(s) => if MayWork(y, s) then y.(s := s) else y
    case Nest(reason, sel, eip) =>
      var o := Switch(y.s, reason, sel, eip);
      if !Nested(reason) || !o.Switched? then y
      else Sys(o.s, [sel] + y.c, [Truncated(y.s.regs).(eip := eip % U32)] + y.frames)
    case Back(eip) =>
      if |y.c| == 1 then y
      else
        IretKeepsChain(y.s, y.c, eip);
        Sys(Switch(y.s, IRET, y.c[1], eip).s, y.c[1..], y.frames[1..])
  }

  lemma {:induction false} NestKeepsFrames(y: Sys, reason: Reason, sel: nat, eip: nat)
    requires Inv(y) && Nested(reason) && Switch(y.s, reason, sel, eip).Switched?
    ensures Inv(Step(y, Nest(reason, sel, eip)))
  {
    NestKeepsChain(y.s, y.c, reason, sel, eip);
    var y' := Step(y, Nest(reason, sel, eip));
    assert Usable(y.s, y.c[0]);
    forall i | 0 <= i < |y'.frames| ensures Frame(y', i) == y'.frames[i] {
      assert y'.c[i + 1] == y.c[i] && Usable(y.s, y.c[i]);
      SwitchKeeps(y.s, reason, sel, eip, y.c[i]);
      if i > 0 { assert Frame(y, i - 1) == y.frames[i - 1]; }
    }
  }

  lemma {:induction false} BackKeepsFrames(y: Sys, eip: nat)
    requires Inv(y) && |y.c| > 1
    ensures Inv(Step(y, Back(eip)))
  {
    IretKeepsChain(y.s, y.c, eip);
    var y' := Step(y, Back(eip));
    assert Usable(y.s, y.c[0]);
    forall i | 0 <= i < |y'.frames| ensures Frame(y', i) == y'.frames[i] {
      assert y'.c[i + 1] == y.c[i + 2] && Usable(y.s, y.c[i + 2]);
      SwitchKeeps(y.s, IRET, y.c[1], eip, y.c[i + 2]);
      assert Frame(y, i + 1) == y.frames[i + 1];
    }
  }

  lemma {:induction false} WorkKeepsInv(y: Sys, s: State)
    requires Inv(y) && MayWork(y, s)
    ensures Inv(y.(s := s))
  {
    forall i | 0 <= i < |y.c| ensures Usable(s, y.c[i]) { assert Usable(y.s, y.c[i]) && y.c[i] in y.c; }
    forall i | 0 <= i < |y.c| - 1 ensures Link(s, y.c[i]) == y.c[i + 1] { assert Link(y.s, y.c[i]) == y.c[i + 1]; }
    forall x | IsTss(s, x) && x in y.c ensures s.gdt[x].busy { assert IsTss(y.s, x); }
    var y' := y.(s := s);
    forall i | 0 <= i < |y.frames| ensures Frame(y', i) == y.frames[i] { assert Frame(y, i) == y.frames[i]; }
  }

  lemma {:induction false} StepKeepsInv(y: Sys, e: Event)
    requires Inv(y)
    ensures Inv(Step(y, e))
  {
    match e
    case Work(s) => if MayWork(y, s) { WorkKeepsInv(y, s); }
    case Nest(reason, sel, eip) =>
      if Nested(reason) && Switch(y.s, reason, sel, eip).Switched? { NestKeepsFrames(y, reason, sel, eip); }
    case Back(eip) => if |y.c| > 1 { BackKeepsFrames(y, eip); }
  }

  ghost function Run(y: Sys, es: seq<Event>): (z: Sys)
    requires Inv(y)
    ensures Inv(z)
  {
    if es == [] then y
    else
      var p := Run(y, es[..|es| - 1]);
      StepKeepsInv(p, es[|es| - 1]);
      Step(p, es[|es| - 1])
  }

  /** In every reachable state, IRET resumes the interrupted task with the registers it had
      when it was interrupted, whatever ran above it since; the task that ends is available
      again with its nested-task flag clear in memory. */
  lemma {:induction false} IretResumes(y: Sys, eip: nat)
    requires Inv(y) && |y.c| > 1
    ensures var o := Switch(y.s, IRET, y.c[1], eip);
      && o.Switched? && o.s.tr == y.c[1] && o.s.regs == y.frames[0]
      && y.c[0] in o.s.gdt && !o.s.gdt[y.c[0]].busy
      && o.s.gdt[y.c[0]].base in o.s.mem && !o.s.mem[o.s.gdt[y.c[0]].base].regs.flags.nt
  {
    IretKeepsChain(y.s, y.c, eip);
    assert Usable(y.s, y.c[0]) && Usable(y.s, y.c[1]);
    assert Frame(y, 0) == y.frames[0];
  }

  /** Descriptors are as they were, but for busy bits of tasks. */
  ghost predicate SameDescs(g: map<nat, Desc>, h: map<nat, Desc>) {
    && g.Keys == h.Keys
    && forall x :: x in g ==> h[x] == if g[x].kind == OtherKind then g[x] else g[x].(busy := h[x].busy)
  }

  /** The running task leaves the table alone. */
  predicate Tame(y: Sys, e: Event) { e.Work? ==> e.s.gdt == y.s.gdt }

  lemma {:induction false} StepKeepsDescs(y: Sys, e: Event)
    requires Inv(y) && Tame(y, e)
    ensures SameDescs(y.s.gdt, Step(y, e).s.gdt)
  {
    match e
    case Work(_) =>
    case Nest(reason, sel, eip) =>
      if Nested(reason) && Switch(y.s, reason, sel, eip).Switched? { SwitchDescs(y.s, y.c, reason, sel, eip); }
    case Back(eip) => if |y.c| > 1 { IretDescs(y.s, y.c, eip); }
  }

  lemma {:induction false} SwitchDescs(s: State, c: seq<nat>, reason: Reason, sel: nat, eip: nat)
    requires Chain(s, c) && Switch(s, reason, sel, eip).Switched?
    ensures SameDescs(s.gdt, Switch(s, reason, sel, eip).s.gdt)
  {
    assert Usable(s, c[0]);
  }

  lemma {:induction false} IretDescs(s: State, c: seq<nat>, eip: nat)
    requires Chain(s, c) && |c| > 1
    ensures Switch(s, IRET, c[1], eip).Switched? && SameDescs(s.gdt, Switch(s, IRET, c[1], eip).s.gdt)
  {
    IretKeepsChain(s, c, eip);
    SwitchDescs(s, c, IRET, c[1], eip);
  }

  /** Both have more than k tasks on the chain, the lowest k of them the same, with the same
      descriptors and the same registers saved. */
  ghost predicate Agree(y: Sys, z: Sys, k: nat) {
    && k < |y.c| == |y.frames| + 1 && k < |z.c| == |z.frames| + 1
    && y.c[|y.c| - k..] == z.c[|z.c| - k..] && y.frames[|y.frames| - k..] == z.frames[|z.frames| - k..]
    && SameOn(y.s.gdt, z.s.gdt, y.c[|y.c| - k..])
  }

  ghost predicate SameOn(g: map<nat, Desc>, h: map<nat, Desc>, c: seq<nat>) {
    forall x :: x in c ==> x in g && x in h && h[x] == g[x]
  }

  lemma {:induction false} AgreeTrans(x: Sys, y: Sys, z: Sys, k: nat)
    requires Agree(x, y, k) && Agree(y, z, k)
    ensures Agree(x, z, k)
  {
  }

  /** Descriptors of tasks on both chains differ in nothing, not even the busy bit. */
  lemma {:induction false} StepKeepsOn(y: Sys, e: Event, c: seq<nat>)
    requires Inv(y) && Inv(Step(y, e)) && forall x :: x in c ==> x in y.c && x in Step(y, e).c
    ensures SameOn(y.s.gdt, Step(y, e).s.gdt, c)
  {
    var z := Step(y, e);
    forall x | x in c ensures x in y.s.gdt && x in z.s.gdt && z.s.gdt[x] == y.s.gdt[x] {
      OnChain(y.s, y.c, x);
      OnChain(z.s, z.c, x);
      if !e.Work? { StepKeepsDescs(y, e); }
    }
  }

  lemma {:induction false} OnChain(s: State, c: seq<nat>, x: nat)
    requires Chain(s, c) && x in c
    ensures x in s.gdt && s.gdt[x].kind == Tss32 && s.gdt[x].busy
  {
    var i :| 0 <= i < |c| && c[i] == x;
    assert Usable(s, c[i]);
    assert IsTss(s, x);
  }

  /** A step leaves the chain alone, adds to its front or takes from it. */
  ghost predicate Moved(y: Sys, z: Sys) {
    || (z.c == y.c && z.frames == y.frames)
    || (z.c != [] && z.frames != [] && z.c == [z.c[0]] + y.c && z.frames == [z.frames[0]] + y.frames)
    || (|y.c| > 1 && |y.frames| > 0 && z.c == y.c[1..] && z.frames == y.frames[1..])
  }

  lemma {:induction false} StepMoves(y: Sys, e: Event)
    requires Inv(y)
    ensures Moved(y, Step(y, e))
  {
  }

  lemma {:induction false} MovedSuffix<T>(a: seq<T>, b: seq<T>, k: nat)
    requires b == a || (b != [] && b == [b[0]] + a) || (a != [] && b == a[1..])
    requires k <= |a| && k <= |b|
    ensures a[|a| - k..] == b[|b| - k..]
  {
  }

  /** A step that leaves more than k tasks on the chain leaves the lowest k as they are. */
  lemma {:induction false} StepAgrees(y: Sys, e: Event, k: nat)
    requires Inv(y) && |y.c| > k && |Step(y, e).c| > k
    ensures Agree(y, Step(y, e), k)
  {
    StepMoves(y, e);
    StepKeepsInv(y, e);
    StepSame(y, e, k);
    MovedAgrees(y, Step(y, e), k);
  }

  lemma {:induction false} StepSame(y: Sys, e: Event, k: nat)
    requires Inv(y) && Inv(Step(y, e)) && Moved(y, Step(y, e)) && |y.c| > k && |Step(y, e).c| > k
    ensures SameOn(y.s.gdt, Step(y, e).s.gdt, y.c[|y.c| - k..])
  {
    MovedSuffixes(y, Step(y, e), k);
    StepKeepsOn(y, e, y.c[|y.c| - k..]);
  }

  lemma {:induction false} MovedAgrees(y: Sys, z: Sys, k: nat)
    requires Moved(y, z) && k < |y.c| == |y.frames| + 1 && k < |z.c| == |z.frames| + 1
    requires SameOn(y.s.gdt, z.s.gdt, y.c[|y.c| - k..])
    ensures Agree(y, z, k)
  {
    MovedSuffixes(y, z, k);
  }

  lemma {:induction false} MovedSuffixes(y: Sys, z: Sys, k: nat)
    requires Moved(y, z) && k < |y.c| == |y.frames| + 1 && k < |z.c| == |z.frames| + 1
    ensures y.c[|y.c| - k..] == z.c[|z.c| - k..] && y.frames[|y.frames| - k..] == z.frames[|z.frames| - k..]
    ensures forall x :: x in y.c[|y.c| - k..] ==> x in y.c && x in z.c
  {
    MovedSuffix(y.c, z.c, k);
    MovedSuffix(y.frames, z.frames, k);
  }

  /** More than k tasks are on the chain all along the run. */
  ghost predicate Above(y: Sys, es: seq<Event>, k: nat)
    requires Inv(y)
    decreases |es|
  {
    |Run(y, es).c| > k && (es == [] || Above(y, es[..|es| - 1], k))
  }

  lemma {:induction false} RunAgrees(y: Sys, es: seq<Event>, k: nat)
    requires Inv(y) && Above(y, es, k)
    ensures Agree(y, Run(y, es), k)
  {
    if es != [] {
      var p := Run(y, es[..|es| - 1]);
      RunAgrees(y, es[..|es| - 1], k);
      StepAgrees(p, es[|es| - 1], k);
      AgreeTrans(y, p, Run(y, es), k);
    }
  }

  /** No task of the run changes the table. */
  ghost predicate AllTame(y: Sys, es: seq<Event>)
    requires Inv(y)
    decreases |es|
  {
    es == [] || (AllTame(y, es[..|es| - 1]) && Tame(Run(y, es[..|es| - 1]), es[|es| - 1]))
  }

  lemma {:induction false} TameKeepsDescs(y: Sys, es: seq<Event>)
    requires Inv(y) && AllTame(y, es)
    ensures SameDescs(y.s.gdt, Run(y, es).s.gdt)
  {
    if es != [] {
      var p := Run(y, es[..|es| - 1]);
      TameKeepsDescs(y, es[..|es| - 1]);
      StepKeepsDescs(p, es[|es| - 1]);
      DescsTrans(y.s.gdt, p.s.gdt, Run(y, es).s.gdt);
    }
  }

  lemma {:induction false} DescsTrans(f: map<nat, Desc>, g: map<nat, Desc>, h: map<nat, Desc>)
    requires SameDescs(f, g) && SameDescs(g, h)
    ensures SameDescs(f, h)
  {
  }

  /** CALL or a gate, any run of the tasks above that comes back to this depth, IRET: the
      caller with its registers, and the descriptors of its chain as before; all descriptors,
      unless some task changed the table. */
  lemma {:induction false} RoundTrip(y: Sys, reason: Reason, sel: nat, eip: nat, es: seq<Event>, eip2: nat)
    requires Inv(y) && Nested(reason) && Switch(y.s, reason, sel, eip).Switched?
    requires var z := Step(y, Nest(reason, sel, eip));
      Inv(z) && Above(z, es, |y.c|) && |Run(z, es).c| == |z.c|
    ensures var u := Run(Step(y, Nest(reason, sel, eip)), es);
      var back := Switch(u.s, IRET, y.s.tr, eip2);
      && back.Switched? && back.s.tr == y.s.tr && back.s.regs == Truncated(y.s.regs).(eip := eip % U32)
      && SameOn(y.s.gdt, back.s.gdt, y.c)
      && (AllTame(Step(y, Nest(reason, sel, eip)), es) ==> back.s.gdt == y.s.gdt)
  {
    var z := Step(y, Nest(reason, sel, eip));
    RunAgrees(z, es, |y.c|);
    NestDescs(y, reason, sel, eip);
    ComesBack(y, z, Run(z, es), eip2);
    if AllTame(z, es) {
      TameKeepsDescs(z, es);
      ComesBackTame(y, z, Run(z, es), eip2);
    }
  }

  lemma {:induction false} NestDescs(y: Sys, reason: Reason, sel: nat, eip: nat)
    requires Inv(y) && Nested(reason) && Switch(y.s, reason, sel, eip).Switched?
    ensures var z := Step(y, Nest(reason, sel, eip));
      && z.c[1..] == y.c && z.frames == [Truncated(y.s.regs).(eip := eip % U32)] + y.frames
      && SameDescs(y.s.gdt, z.s.gdt) && SameOn(y.s.gdt, z.s.gdt, y.c)
  {
    StepKeepsDescs(y, Nest(reason, sel, eip));
    StepKeepsInv(y, Nest(reason, sel, eip));
    StepKeepsOn(y, Nest(reason, sel, eip), y.c);
  }

  lemma {:induction false} ComesBack(y: Sys, z: Sys, u: Sys, eip: nat)
    requires Inv(y) && Inv(u) && Agree(z, u, |y.c|) && |u.c| == |z.c| && z.c[1..] == y.c && SameOn(y.s.gdt, z.s.gdt, y.c)
    ensures var back := Switch(u.s, IRET, y.s.tr, eip);
      && back.Switched? && back.s.tr == y.s.tr && z.frames != [] && back.s.regs == z.frames[0]
      && SameOn(y.s.gdt, back.s.gdt, y.c)
  {
    assert u.c[1..] == y.c && u.frames[0..] == z.frames[0..];
    IretResumes(u, eip);
    BackDescs(u, eip);
    BackOn(u, eip);
  }

  lemma {:induction false} BackOn(u: Sys, eip: nat)
    requires Inv(u) && |u.c| > 1
    ensures Switch(u.s, IRET, u.c[1], eip).Switched? && SameOn(u.s.gdt, Switch(u.s, IRET, u.c[1], eip).s.gdt, u.c[1..])
  {
    BackDescs(u, eip);
    var t := Switch(u.s, IRET, u.c[1], eip).s;
    forall x | x in u.c[1..] ensures x in u.s.gdt && x in t.gdt && t.gdt[x] == u.s.gdt[x] {
      OnChain(u.s, u.c, x);
      OnChain(t, u.c[1..], x);
    }
  }

  lemma {:induction false} ComesBackTame(y: Sys, z: Sys, u: Sys, eip: nat)
    requires Inv(y) && Inv(u) && |u.c| > 1 && u.c[1..] == y.c && SameDescs(y.s.gdt, z.s.gdt) && SameDescs(z.s.gdt, u.s.gdt)
    ensures Switch(u.s, IRET, y.s.tr, eip).Switched? && Switch(u.s, IRET, y.s.tr, eip).s.gdt == y.s.gdt
  {
    BackDescs(u, eip);
    SameChainSameTable(y.s, Switch(u.s, IRET, u.c[1], eip).s, y.c, z.s.gdt, u.s.gdt);
  }

  lemma {:induction false} BackDescs(y: Sys, eip: nat)
    requires Inv(y) && |y.c| > 1
    ensures var o := Switch(y.s, IRET, y.c[1], eip);
      o.Switched? && Chain(o.s, y.c[1..]) && SameDescs(y.s.gdt, o.s.gdt)
  {
    IretKeepsChain(y.s, y.c, eip);
    IretDescs(y.s, y.c, eip);
  }

  /** Busy bits follow the chain, so two machines with one chain have one table. */
  lemma {:induction false} SameChainSameTable(s: State, t: State, c: seq<nat>, g: map<nat, Desc>, h: map<nat, Desc>)
    requires Chain(s, c) && Chain(t, c)
    requires SameDescs(s.gdt, g) && SameDescs(g, h) && SameDescs(h, t.gdt)
    ensures t.gdt == s.gdt
  {
    forall x | x in s.gdt ensures t.gdt[x] == s.gdt[x] {
      assert x in g && x in h;
      assert IsTss(s, x) <==> IsTss(t, x);
    }
  }
}
