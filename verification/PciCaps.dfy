/** A PCI function's configuration space: building the capability list and guest writes to
    any register (src/lib/pci_emul.c).  A write is its offset and its bytes, lowest first; an
    aligned access of 1, 2 or 4 bytes.  Masks of words are given byte by byte, and bits of a
    byte by division. */
module PciCaps {
  const REGS := 256
  const CAP_START := 0x40
  const COMMAND := 0x04
  const STATUS := 0x06
  const REVID := 0x08
  const BAR0 := 0x10
  const BAR_END := 0x28
  const CAP_PTR := 0x34
  const MSI := 0x05
  const MSIX := 0x11
  const EXPRESS := 0x10

  type byte = b: nat | b < 256
  type Cfg = seq<byte>

  /** Where a capability was put, its rounded length and its id. */
  datatype Cap = Cap(off: nat, len: nat, id: byte)

  /** Configuration space, pi_prevcap and pi_capend, the MSI and MSI-X enable flags; and the
      history of added capabilities. */
  datatype Dev = Dev(cfg: Cfg, prevcap: nat, capend: nat, msi: bool, msix: bool, caps: seq<Cap>)

  /** PCIM_STATUS_CAPPRESENT. */
  predicate Present(cfg: Cfg)
    requires |cfg| == REGS
  {
    cfg[STATUS] / 16 % 2 == 1
  }

  function Put(cfg: Cfg, off: nat, data: seq<byte>): (r: Cfg)
    requires off + |data| <= |cfg|
    ensures |r| == |cfg|
    ensures forall i :: 0 <= i < |cfg| ==> r[i] == if off <= i < off + |data| then data[i - off] else cfg[i]
  {
    cfg[..off] + data + cfg[off + |data|..]
  }

  function RoundUp4(n: nat): nat { (n + 3) / 4 * 4 }

  // ----- building the list -----

  function NextOff(d: Dev): nat
    requires |d.cfg| == REGS
  {
    if Present(d.cfg) then d.capend + 1 else CAP_START
  }

  predicate Fits(d: Dev, n: nat)
    requires |d.cfg| == REGS
  {
    NextOff(d) + RoundUp4(n) <= REGS
  }

  /** The new capability's offset goes into the pointer before it. */
  function Linked(d: Dev): (r: Cfg)
    requires |d.cfg| == REGS && NextOff(d) < REGS && d.prevcap + 1 < REGS
    ensures |r| == REGS
  {
    if Present(d.cfg) then d.cfg[d.prevcap + 1 := NextOff(d)]
    else d.cfg[CAP_PTR := NextOff(d)][STATUS := d.cfg[STATUS] + 16]
  }

  /** pci_emul_add_capability, when there is room. */
  function AddCapability(d: Dev, data: seq<byte>): Dev
    requires |d.cfg| == REGS && data != [] && Fits(d, |data|) && d.prevcap + 1 < REGS
  {
    var off := NextOff(d);
    d.(cfg := Put(Linked(d), off, data)[off + 1 := 0], prevcap := off, capend := off + RoundUp4(|data|) - 1,
       caps := d.caps + [Cap(off, RoundUp4(|data|), data[0])])
  }

  /** The list in configuration space is the history: dword-aligned capabilities side by side
      from CAP_START to capend, each with its id and a pointer to the next. */
  ghost predicate ListOk(d: Dev) {
    && |d.cfg| == REGS && d.prevcap + 1 < REGS
    && (Present(d.cfg) <==> d.caps != [])
    && (forall i :: 0 <= i < |d.caps| ==> CapOk(d, i))
    && (d.caps != [] ==> d.prevcap == d.caps[|d.caps| - 1].off && d.capend + 1 == End(d.caps[|d.caps| - 1]))
  }

  function End(c: Cap): nat { c.off + c.len }

  ghost predicate CapOk(d: Dev, i: nat)
    requires i < |d.caps| && |d.cfg| == REGS
  {
    var c := d.caps[i];
    && CAP_START <= c.off && c.off % 4 == 0 && c.len % 4 == 0 && 0 < c.len && End(c) <= REGS
    && (if i == 0 then c.off == CAP_START else c.off == End(d.caps[i - 1]))
    && d.cfg[c.off] == c.id && d.cfg[c.off + 1] == (if i + 1 < |d.caps| then d.caps[i + 1].off else 0)
  }

  lemma {:induction false} LinkedBytes(d: Dev, k: nat)
    requires ListOk(d) && NextOff(d) < REGS && k < REGS
    ensures Present(Linked(d))
    ensures d.caps != [] ==> if k == d.prevcap + 1 then Linked(d)[k] == NextOff(d) else Linked(d)[k] == d.cfg[k]
  {
    if d.caps != [] { assert CapOk(d, |d.caps| - 1); }
  }

  /** Below the new capability the configuration space is as linked. */
  lemma {:induction false} AddBytes(d: Dev, data: seq<byte>, k: nat)
    requires ListOk(d) && data != [] && Fits(d, |data|) && k < REGS
    ensures var off := NextOff(d); var new_ := AddCapability(d, data).cfg;
      && |new_| == REGS && (k < off ==> new_[k] == Linked(d)[k]) && new_[off] == data[0] && new_[off + 1] == 0
  {
  }

  lemma {:induction false} AddKeepsOld(d: Dev, data: seq<byte>, i: nat)
    requires ListOk(d) && data != [] && Fits(d, |data|) && i < |d.caps|
    ensures |AddCapability(d, data).cfg| == REGS && CapOk(AddCapability(d, data), i)
  {
    var c := d.caps[i];
    assert CapOk(d, i);
    EndsBefore(d, i);
    OldBytes(d, data, c.off);
    OldBytes(d, data, c.off + 1);
    CapStays(d, AddCapability(d, data), i);
  }

  lemma {:induction false} CapStays(d: Dev, e: Dev, i: nat)
    requires ListOk(d) && i < |d.caps| && |e.cfg| == REGS && |e.caps| == |d.caps| + 1 && e.caps[..|d.caps|] == d.caps
    requires e.caps[|d.caps|].off == NextOff(d) && CapOk(d, i)
    requires forall k | d.caps[i].off <= k <= d.caps[i].off + 1 ::
               e.cfg[k] == if k == d.prevcap + 1 then NextOff(d) else d.cfg[k]
    requires forall j | i < j < |d.caps| :: End(d.caps[i]) <= d.caps[j].off
    ensures CapOk(e, i)
  {
    assert e.caps[i] == d.caps[i] && (i > 0 ==> e.caps[i - 1] == d.caps[i - 1]);
    if i + 1 < |d.caps| { assert e.caps[i + 1] == d.caps[i + 1]; }
  }

  /** The only old byte of a list to change is the last pointer. */
  lemma {:induction false} OldBytes(d: Dev, data: seq<byte>, k: nat)
    requires ListOk(d) && data != [] && Fits(d, |data|) && k < NextOff(d) && d.caps != []
    ensures var new_ := AddCapability(d, data).cfg;
      |new_| == REGS && new_[k] == if k == d.prevcap + 1 then NextOff(d) else d.cfg[k]
  {
    AddBytes(d, data, k);
    LinkedBytes(d, k);
  }

  lemma {:induction false} AddKeepsList(d: Dev, data: seq<byte>)
    requires ListOk(d) && data != [] && Fits(d, |data|)
    ensures ListOk(AddCapability(d, data))
  {
    var d' := AddCapability(d, data);
    forall i | 0 <= i < |d.caps| ensures CapOk(d', i) { AddKeepsOld(d, data, i); }
    AddBytes(d, data, STATUS);
    LinkedBytes(d, STATUS);
    AddPlacesNew(d, data);
  }

  lemma {:induction false} AddPlacesNew(d: Dev, data: seq<byte>)
    requires ListOk(d) && data != [] && Fits(d, |data|)
    ensures var d' := AddCapability(d, data); |d'.cfg| == REGS && d'.prevcap + 1 < REGS && CapOk(d', |d.caps|)
  {
    AddBytes(d, data, STATUS);
    if d.caps != [] { assert CapOk(d, |d.caps| - 1); }
  }

  /** Capabilities end in order. */
  lemma {:induction false} EndsBefore(d: Dev, i: nat)
    requires ListOk(d) && i < |d.caps|
    ensures End(d.caps[i]) <= d.capend + 1
    ensures forall j :: i < j < |d.caps| ==> End(d.caps[i]) <= d.caps[j].off
    decreases |d.caps| - i
  {
    if i + 1 < |d.caps| {
      EndsBefore(d, i + 1);
      assert CapOk(d, i + 1);
    }
  }

  // ----- guest writes -----

  /** A byte of the command and status registers; 0xFFFFF880 is read-only. */
  function CmdSts(off: nat, was: byte, new_: byte): byte {
    if off == 4 then was / 128 * 128 + new_ % 128 else if off == 5 then was / 8 * 8 + new_ % 8 else was
  }

  /** pci_emul_cmdsts_write. */
  function CmdStsBytes(cfg: Cfg, off: nat, data: seq<byte>): (r: seq<byte>)
    requires off + |data| <= |cfg|
    ensures |r| == |data|
  {
    seq(|data|, i requires 0 <= i < |data| => CmdSts(off + i, cfg[off + i], data[i]))
  }

  /** The low byte of MSI message control; MME and the enable bit, 0x0071, are writable. */
  function MsiLo(was: byte, new_: byte): byte {
    was / 128 * 128 + new_ / 16 % 8 * 16 + was / 2 % 8 * 2 + new_ % 2
  }

  /** The high byte of MSI-X message control; the enable and mask bits, 0xC000, are writable. */
  function MsixHi(was: byte, new_: byte): byte { new_ / 64 * 64 + was % 64 }

  /** msicap_cfgwrite, msixcap_cfgwrite and pciecap_cfgwrite. */
  function CapBody(d: Dev, c: Cap, off: nat, data: seq<byte>): Dev
    requires |d.cfg| == REGS && off + |data| <= REGS && c.off < REGS
  {
    var id := d.cfg[c.off];
    if id == MSI then
      if off == c.off + 2 && |data| == 2 then
        var lo := MsiLo(d.cfg[off], data[0]);
        d.(cfg := Put(d.cfg, off, [lo, d.cfg[off + 1]]), msi := lo % 2 == 1)
      else d.(cfg := Put(d.cfg, off, data))
    else if id == MSIX then
      if off == c.off + 2 && |data| == 2 then
        var hi := MsixHi(d.cfg[off + 1], data[1]);
        d.(cfg := Put(d.cfg, off, [d.cfg[off], hi]), msix := hi / 128 == 1)
      else d.(cfg := Put(d.cfg, off, data))
    else if id == EXPRESS then d.(cfg := Put(d.cfg, off, data))
    else d
  }

  /** pci_emul_capwrite, once the capability is found. */
  function CapWriteAt(d: Dev, c: Cap, off: nat, data: seq<byte>): Dev
    requires |d.cfg| == REGS && off + |data| <= REGS && c.off < REGS
  {
    if off == c.off || off == c.off + 1 then
      if off == c.off && |data| == 4 then CapBody(d, c, off + 2, data[2..]) else d
    else CapBody(d, c, off, data)
  }

  /** The capability that holds an offset of the list's range. */
  function CapAt(caps: seq<Cap>, off: nat): Cap
    requires caps != []
  {
    if |caps| == 1 || off < End(caps[0]) then caps[0] else CapAt(caps[1..], off)
  }

  predicate Aligned(off: nat, n: nat) { (n == 1 || n == 2 || n == 4) && off % n == 0 && off < REGS }

  predicate IsCap(d: Dev, off: nat)
    requires |d.cfg| == REGS
  {
    Present(d.cfg) && CAP_START <= off <= d.capend
  }

  lemma AlignedFits(off: nat, n: nat)
    requires Aligned(off, n)
    ensures off + n <= REGS
  {
  }

  /** pci_emul_capwrite. */
  ghost function CapWritten(d: Dev, off: nat, data: seq<byte>): Dev
    requires ListOk(d) && IsCap(d, off) && off + |data| <= REGS
  {
    CapAtOff(d, off);
    CapWriteAt(d, CapAt(d.caps, off), off, data)
  }

  /** pci_cfgrw for a write; `bar` is what a BAR write stores. */
  ghost function Write(d: Dev, off: nat, data: seq<byte>, bar: seq<byte>): Dev
    requires ListOk(d) && |bar| == 4
  {
    if !Aligned(off, |data|) then d
    else
      AlignedFits(off, |data|);
      if BAR0 <= off < BAR_END then if |data| == 4 then d.(cfg := Put(d.cfg, off, bar)) else d
      else if IsCap(d, off) then CapWritten(d, off, data)
      else if COMMAND <= off < REVID then d.(cfg := Put(d.cfg, off, CmdStsBytes(d.cfg, off, data)))
      else d.(cfg := Put(d.cfg, off, data))
  }

  lemma {:induction false} CapAtIs(caps: seq<Cap>, off: nat, i: nat)
    requires i < |caps| && caps[i].off <= off < End(caps[i])
    requires forall k :: 0 < k < |caps| ==> caps[k].off == End(caps[k - 1])
    requires forall k :: 0 <= k < |caps| ==> caps[k].len > 0
    ensures CapAt(caps, off) == caps[i]
    decreases i
  {
    if i > 0 {
      OffAfter(caps, i);
      forall k | 0 < k < |caps| - 1 ensures caps[1..][k].off == End(caps[1..][k - 1]) { assert caps[k + 1].off == End(caps[k]); }
      CapAtIs(caps[1..], off, i - 1);
    }
  }

  lemma {:induction false} OffAfter(caps: seq<Cap>, i: nat)
    requires 0 < i < |caps|
    requires forall k :: 0 < k < |caps| ==> caps[k].off == End(caps[k - 1])
    requires forall k :: 0 <= k < |caps| ==> caps[k].len > 0
    ensures End(caps[0]) <= caps[i].off
  {
    if i > 1 { OffAfter(caps, i - 1); }
  }

  /** Every offset of the range lies in one capability, and CapAt finds it. */
  lemma {:induction false} CapAtOff(d: Dev, off: nat)
    requires ListOk(d) && IsCap(d, off)
    ensures var c := CapAt(d.caps, off); c in d.caps && c.off <= off < End(c) <= REGS
  {
    var i := |d.caps| - 1;
    assert CapOk(d, i);
    while off < d.caps[i].off
      invariant 0 <= i < |d.caps| && off < End(d.caps[i])
      decreases i
    {
      assert CapOk(d, i) && CapOk(d, i - 1);
      i := i - 1;
    }
    assert CapOk(d, i);
    forall k | 0 <= k < |d.caps| ensures d.caps[k].len > 0 && (k > 0 ==> d.caps[k].off == End(d.caps[k - 1])) {
      assert CapOk(d, k);
    }
    CapAtIs(d.caps, off, i);
  }

  // ----- no guest write changes the list -----

  /** Offsets the list depends on: the status byte, and each capability's id and pointer. */
  ghost predicate Header(d: Dev, k: nat) {
    k == STATUS || exists c :: c in d.caps && (k == c.off || k == c.off + 1)
  }

  /** Equal there, the list is the same. */
  lemma {:induction false} SameHeaders(d: Dev, e: Dev)
    requires ListOk(d) && |e.cfg| == REGS && e == d.(cfg := e.cfg, msi := e.msi, msix := e.msix)
    requires forall k: nat :: k < REGS && Header(d, k) ==> e.cfg[k] == d.cfg[k]
    ensures ListOk(e)
  {
    assert Header(d, STATUS);
    forall i | 0 <= i < |d.caps| ensures CapOk(e, i) {
      assert CapOk(d, i);
      var c := d.caps[i];
      assert c in d.caps;
      assert Header(d, c.off) && Header(d, c.off + 1);
    }
  }

  /** A header byte inside an aligned dword of capability c is one of c's own two. */
  lemma {:induction false} HeaderIn(d: Dev, c: Cap, k: nat)
    requires ListOk(d) && c in d.caps && c.off + 2 <= k < End(c)
    ensures !Header(d, k)
  {
    var i :| 0 <= i < |d.caps| && d.caps[i] == c;
    assert CapOk(d, i);
    forall e | e in d.caps ensures k != e.off && k != e.off + 1 {
      var j :| 0 <= j < |d.caps| && d.caps[j] == e;
      assert CapOk(d, j);
      if i < j { EndsBefore(d, i); } else if j < i { EndsBefore(d, j); }
    }
  }

  lemma {:induction false} CapBodyChanges(d: Dev, c: Cap, off: nat, data: seq<byte>, k: nat)
    requires |d.cfg| == REGS && off + |data| <= REGS && c.off < REGS && k < REGS
    ensures var e := CapBody(d, c, off, data);
      |e.cfg| == REGS && e == d.(cfg := e.cfg, msi := e.msi, msix := e.msix) && (e.cfg[k] != d.cfg[k] ==> off <= k < off + |data|)
  {
  }

  lemma {:induction false} CapWriteKeepsList(d: Dev, c: Cap, off: nat, data: seq<byte>)
    requires ListOk(d) && c in d.caps && c.off <= off && End(c) <= REGS && off + |data| <= End(c) && data != []
    ensures ListOk(CapWriteAt(d, c, off, data))
  {
    if off == c.off || off == c.off + 1 {
      if off == c.off && |data| == 4 { BodyKeepsList(d, c, off + 2, data[2..]); }
    } else {
      BodyKeepsList(d, c, off, data);
    }
  }

  lemma {:induction false} BodyKeepsList(d: Dev, c: Cap, off: nat, data: seq<byte>)
    requires ListOk(d) && c in d.caps && c.off + 2 <= off && End(c) <= REGS && off + |data| <= End(c) && data != []
    ensures ListOk(CapBody(d, c, off, data))
  {
    var e := CapBody(d, c, off, data);
    CapBodyChanges(d, c, off, data, 0);
    forall k: nat | k < REGS && Header(d, k) ensures e.cfg[k] == d.cfg[k] {
      CapBodyChanges(d, c, off, data, k);
      if off <= k < off + |data| { HeaderIn(d, c, k); }
    }
    SameHeaders(d, e);
  }

  /** An aligned write that begins in a capability ends in it. */
  lemma {:induction false} StaysInside(d: Dev, c: Cap, off: nat, n: nat)
    requires ListOk(d) && c in d.caps && Aligned(off, n) && c.off <= off < End(c)
    ensures off + n <= End(c)
  {
    var i :| 0 <= i < |d.caps| && d.caps[i] == c;
    assert CapOk(d, i);
    AlignedBelow(off, n, End(c));
  }

  lemma {:induction false} AlignedBelow(off: nat, n: nat, end: nat)
    requires Aligned(off, n) && end % 4 == 0 && off < end
    ensures off + n <= end
  {
  }

  /** A write outside the capabilities, off the status byte. */
  lemma {:induction false} PlainKeepsList(d: Dev, off: nat, data: seq<byte>)
    requires ListOk(d) && off + |data| <= REGS
    requires off + |data| <= CAP_START || d.caps == [] || off > d.capend
    requires off <= STATUS < off + |data| ==> data[STATUS - off] == d.cfg[STATUS]
    ensures ListOk(d.(cfg := Put(d.cfg, off, data)))
  {
    var e := d.(cfg := Put(d.cfg, off, data));
    forall k: nat | k < REGS && Header(d, k) ensures e.cfg[k] == d.cfg[k] {
      if k != STATUS {
        var c :| c in d.caps && (k == c.off || k == c.off + 1);
        var i :| 0 <= i < |d.caps| && d.caps[i] == c;
        assert CapOk(d, i);
        EndsBefore(d, i);
      }
    }
    SameHeaders(d, e);
  }

  lemma {:induction false} CapWrittenKeepsList(d: Dev, off: nat, data: seq<byte>)
    requires ListOk(d) && IsCap(d, off) && Aligned(off, |data|) && off + |data| <= REGS
    ensures ListOk(CapWritten(d, off, data)) && CapWritten(d, off, data).caps == d.caps
  {
    CapAtOff(d, off);
    var c := CapAt(d.caps, off);
    StaysInside(d, c, off, |data|);
    CapWriteKeepsList(d, c, off, data);
  }

  /** Whatever the guest writes, wherever: ids, pointers and the capability bit stay. */
  lemma {:induction false} WriteKeepsList(d: Dev, off: nat, data: seq<byte>, bar: seq<byte>)
    requires ListOk(d) && |bar| == 4
    ensures ListOk(Write(d, off, data, bar)) && Write(d, off, data, bar).caps == d.caps
  {
    if Aligned(off, |data|) {
      AlignedFits(off, |data|);
      if BAR0 <= off < BAR_END {
        if |data| == 4 { PlainKeepsList(d, off, bar); }
      } else if IsCap(d, off) {
        CapWrittenKeepsList(d, off, data);
      } else {
        OutsideStays(d, off, |data|);
        if COMMAND <= off < REVID {
          PlainKeepsList(d, off, CmdStsBytes(d.cfg, off, data));
        } else {
          PlainKeepsList(d, off, data);
        }
      }
    }
  }

  /** An aligned write that begins outside the capabilities stays outside. */
  lemma {:induction false} OutsideStays(d: Dev, off: nat, n: nat)
    requires ListOk(d) && Aligned(off, n) && !IsCap(d, off)
    ensures off + n <= CAP_START || d.caps == [] || off > d.capend
    ensures !(COMMAND <= off < REVID) ==> !(off <= STATUS < off + n)
  {
    if d.caps != [] { assert CapOk(d, |d.caps| - 1); }
  }

  ghost function Run(d: Dev, ws: seq<(nat, seq<byte>, seq<byte>)>): (e: Dev)
    requires ListOk(d) && forall i :: 0 <= i < |ws| ==> |ws[i].2| == 4
    ensures ListOk(e) && e.caps == d.caps
  {
    if ws == [] then d
    else
      var p := Run(d, ws[..|ws| - 1]);
      var w := ws[|ws| - 1];
      WriteKeepsList(p, w.0, w.1, w.2);
      Write(p, w.0, w.1, w.2)
  }

  // ----- read-only bits of MSI message control -----

  /** The multiple-message, 64-bit and per-vector capable bits, and the reserved ones. */
  predicate SameReadOnly(cfg: Cfg, new_: Cfg, c: Cap)
    requires c.off + 3 < |cfg| && |cfg| == |new_|
  {
    var a, b := cfg[c.off + 2], new_[c.off + 2];
    a / 128 == b / 128 && a / 2 % 8 == b / 2 % 8 && cfg[c.off + 3] == new_[c.off + 3]
  }

  lemma {:induction false} MsiLoBits(was: byte, new_: byte)
    ensures var r := MsiLo(was, new_); r / 128 == was / 128 && r / 2 % 8 == was / 2 % 8 && r % 2 == new_ % 2
  {
    var a, b, c, e := was / 128, new_ / 16 % 8, was / 2 % 8, new_ % 2;
    var r := MsiLo(was, new_);
    assert r == 128 * a + (16 * b + 2 * c + e) && 16 * b + 2 * c + e < 128;
    assert r / 2 == 8 * (8 * a + b) + c && c < 8;
  }

  /** What a write does to the two bytes of message control. */
  function CtrlAfter(d: Dev, c: Cap, off: nat, data: seq<byte>): (byte, byte)
    requires |d.cfg| == REGS && c.off + 3 < REGS && Aligned(off, |data|)
  {
    var lo, hi := d.cfg[c.off + 2], d.cfg[c.off + 3];
    if off == c.off && |data| == 4 then (MsiLo(lo, data[2]), hi)
    else if off == c.off + 2 && |data| == 2 then (MsiLo(lo, data[0]), hi)
    else if off == c.off + 2 && |data| == 1 then (data[0], hi)
    else if off == c.off + 3 && |data| == 1 then (lo, data[0])
    else (lo, hi)
  }

  lemma {:induction false} BodyCtrl(d: Dev, c: Cap, off: nat, data: seq<byte>)
    requires |d.cfg| == REGS && c.off + 3 < REGS && d.cfg[c.off] == MSI && c.off + 2 <= off && off + |data| <= REGS
    requires off <= c.off + 3 ==> |data| == 1 || (off == c.off + 2 && |data| == 2)
    ensures var e := CapBody(d, c, off, data); var lo, hi := d.cfg[c.off + 2], d.cfg[c.off + 3];
      && |e.cfg| == REGS
      && e.cfg[c.off + 2] == (if off > c.off + 2 then lo else if |data| == 2 then MsiLo(lo, data[0]) else data[0])
      && e.cfg[c.off + 3] == (if off == c.off + 3 then data[0] else hi)
      && e.msi == if off == c.off + 2 && |data| == 2 then e.cfg[c.off + 2] % 2 == 1 else d.msi
  {
  }

  lemma {:induction false} AlignedInDword(c: nat, off: nat, n: nat)
    requires c % 4 == 0 && c <= off <= c + 3 && Aligned(off, n)
    ensures n == 4 ==> off == c
    ensures n == 2 ==> off == c || off == c + 2
  {
  }

  lemma {:induction false} CtrlAfterIs(d: Dev, c: Cap, off: nat, data: seq<byte>)
    requires |d.cfg| == REGS && c.off % 4 == 0 && c.off + 3 < REGS && d.cfg[c.off] == MSI
    requires Aligned(off, |data|) && c.off <= off && off + |data| <= REGS
    ensures var e := CapWriteAt(d, c, off, data);
      |e.cfg| == REGS && (e.cfg[c.off + 2], e.cfg[c.off + 3]) == CtrlAfter(d, c, off, data)
    ensures CapWriteAt(d, c, off, data).msi ==
            if (off == c.off && |data| == 4) || (off == c.off + 2 && |data| == 2) then CtrlAfter(d, c, off, data).0 % 2 == 1
            else d.msi
  {
    if off <= c.off + 3 { AlignedInDword(c.off, off, |data|); }
    if off == c.off && |data| == 4 {
      BodyCtrl(d, c, off + 2, data[2..]);
    } else if off >= c.off + 2 {
      BodyCtrl(d, c, off, data);
    }
  }

  /** They are masked in two-byte writes only, so a write keeps them exactly if it is not a
      one-byte write of other values there. */
  lemma {:induction false} MsiReadOnlyIff(d: Dev, c: Cap, off: nat, data: seq<byte>)
    requires |d.cfg| == REGS && c.off % 4 == 0 && c.off + 3 < REGS && d.cfg[c.off] == MSI
    requires Aligned(off, |data|) && c.off <= off && off + |data| <= REGS
    ensures var e := CapWriteAt(d, c, off, data);
      && |e.cfg| == REGS
      && (SameReadOnly(d.cfg, e.cfg, c) <==>
          (|data| == 1 && off == c.off + 2 ==> data[0] / 128 == d.cfg[off] / 128 && data[0] / 2 % 8 == d.cfg[off] / 2 % 8)
          && (|data| == 1 && off == c.off + 3 ==> data[0] == d.cfg[off]))
  {
    CtrlAfterIs(d, c, off, data);
    if |data| > 1 { MsiLoBits(d.cfg[c.off + 2], data[if |data| == 4 then 2 else 0]); }
  }

  /** The device's idea of whether MSI is enabled follows the enable bit, except through a
      one-byte write that flips it. */
  lemma {:induction false} MsiEnableIff(d: Dev, c: Cap, off: nat, data: seq<byte>)
    requires |d.cfg| == REGS && c.off % 4 == 0 && c.off + 3 < REGS && d.cfg[c.off] == MSI
    requires Aligned(off, |data|) && c.off <= off && off + |data| <= REGS
    requires d.msi <==> d.cfg[c.off + 2] % 2 == 1
    ensures var e := CapWriteAt(d, c, off, data);
      && |e.cfg| == REGS
      && ((e.msi <==> e.cfg[c.off + 2] % 2 == 1) <==> (|data| == 1 && off == c.off + 2 ==> data[0] % 2 == d.cfg[off] % 2))
  {
    CtrlAfterIs(d, c, off, data);
  }

  // ----- and of MSI-X -----

  /** The table size and the reserved bits. */
  predicate SameMsixReadOnly(cfg: Cfg, new_: Cfg, c: Cap)
    requires c.off + 3 < |cfg| && |cfg| == |new_|
  {
    cfg[c.off + 2] == new_[c.off + 2] && cfg[c.off + 3] % 64 == new_[c.off + 3] % 64
  }

  /** The two bytes of message control and the enable flag after a write. */
  function MsixAfter(d: Dev, c: Cap, off: nat, data: seq<byte>): (byte, byte, bool)
    requires |d.cfg| == REGS && c.off + 3 < REGS && Aligned(off, |data|)
  {
    var lo, hi := d.cfg[c.off + 2], d.cfg[c.off + 3];
    if off == c.off && |data| == 4 then (lo, MsixHi(hi, data[3]), MsixHi(hi, data[3]) / 128 == 1)
    else if off == c.off + 2 && |data| == 2 then (lo, MsixHi(hi, data[1]), MsixHi(hi, data[1]) / 128 == 1)
    else if off == c.off + 2 && |data| == 1 then (data[0], hi, d.msix)
    else if off == c.off + 3 && |data| == 1 then (lo, data[0], d.msix)
    else (lo, hi, d.msix)
  }

  lemma {:induction false} MsixBody(d: Dev, c: Cap, off: nat, data: seq<byte>)
    requires |d.cfg| == REGS && c.off + 3 < REGS && d.cfg[c.off] == MSIX && c.off + 2 <= off && off + |data| <= REGS
    requires off <= c.off + 3 ==> |data| == 1 || (off == c.off + 2 && |data| == 2)
    ensures var e := CapBody(d, c, off, data); var lo, hi := d.cfg[c.off + 2], d.cfg[c.off + 3];
      && |e.cfg| == REGS
      && e.cfg[c.off + 2] == (if off == c.off + 2 && |data| == 1 then data[0] else lo)
      && e.cfg[c.off + 3] == (if off > c.off + 3 then hi else if |data| == 2 then MsixHi(hi, data[1])
                              else if off == c.off + 3 then data[0] else hi)
      && e.msix == if off == c.off + 2 && |data| == 2 then e.cfg[c.off + 3] / 128 == 1 else d.msix
  {
  }

  lemma {:induction false} MsixAfterIs(d: Dev, c: Cap, off: nat, data: seq<byte>)
    requires |d.cfg| == REGS && c.off % 4 == 0 && c.off + 3 < REGS && d.cfg[c.off] == MSIX
    requires Aligned(off, |data|) && c.off <= off && off + |data| <= REGS
    ensures var e := CapWriteAt(d, c, off, data);
      |e.cfg| == REGS && (e.cfg[c.off + 2], e.cfg[c.off + 3], e.msix) == MsixAfter(d, c, off, data)
  {
    if off <= c.off + 3 { AlignedInDword(c.off, off, |data|); }
    if off == c.off && |data| == 4 {
      MsixBody(d, c, off + 2, data[2..]);
    } else if off >= c.off + 2 {
      MsixBody(d, c, off, data);
    }
  }

  lemma {:induction false} MsixHiBits(was: byte, new_: byte)
    ensures MsixHi(was, new_) % 64 == was % 64
  {
    assert MsixHi(was, new_) == 64 * (new_ / 64) + was % 64;
  }

  /** Exactly which writes keep the read-only bits. */
  lemma {:induction false} MsixReadOnlyIff(d: Dev, c: Cap, off: nat, data: seq<byte>)
    requires |d.cfg| == REGS && c.off % 4 == 0 && c.off + 3 < REGS && d.cfg[c.off] == MSIX
    requires Aligned(off, |data|) && c.off <= off && off + |data| <= REGS
    ensures var e := CapWriteAt(d, c, off, data);
      && |e.cfg| == REGS
      && (SameMsixReadOnly(d.cfg, e.cfg, c) <==>
          (|data| == 1 && off == c.off + 2 ==> data[0] == d.cfg[off])
          && (|data| == 1 && off == c.off + 3 ==> data[0] % 64 == d.cfg[off] % 64))
  {
    MsixAfterIs(d, c, off, data);
    if |data| > 1 { MsixHiBits(d.cfg[c.off + 3], data[if |data| == 4 then 3 else 1]); }
  }

  /** Exactly which writes keep the enable flag in step with the bit. */
  lemma {:induction false} MsixEnableIff(d: Dev, c: Cap, off: nat, data: seq<byte>)
    requires |d.cfg| == REGS && c.off % 4 == 0 && c.off + 3 < REGS && d.cfg[c.off] == MSIX
    requires Aligned(off, |data|) && c.off <= off && off + |data| <= REGS
    requires d.msix <==> d.cfg[c.off + 3] / 128 == 1
    ensures var e := CapWriteAt(d, c, off, data);
      && |e.cfg| == REGS
      && ((e.msix <==> e.cfg[c.off + 3] / 128 == 1) <==>
          (|data| == 1 && off == c.off + 3 ==> data[0] / 128 == d.cfg[off] / 128))
  {
    MsixAfterIs(d, c, off, data);
  }

  // ----- the pointer to the first capability -----

  /** The byte at 0x34 is not protected, so a write keeps it exactly if it does not put
      another value there; the search does not use it. */
  lemma {:induction false} CapPtrKeptIff(d: Dev, off: nat, data: seq<byte>, bar: seq<byte>)
    requires ListOk(d) && |bar| == 4
    ensures var e := Write(d, off, data, bar);
      && |e.cfg| == REGS
      && (e.cfg[CAP_PTR] == d.cfg[CAP_PTR] <==>
          (Aligned(off, |data|) && off <= CAP_PTR < off + |data| ==> data[CAP_PTR - off] == d.cfg[CAP_PTR]))
  {
    if Aligned(off, |data|) && !(BAR0 <= off < BAR_END) && IsCap(d, off) {
      AlignedFits(off, |data|);
      CapAtOff(d, off);
      var c := CapAt(d.caps, off);
      CapBodyChanges(d, c, off, data, CAP_PTR);
      if |data| == 4 { CapBodyChanges(d, c, off + 2, data[2..], CAP_PTR); }
    }
  }

  // ----- in place -----

  class PciDev {
    const regs: array<byte>
    var prevcap: nat
    var capend: nat
    var msi: bool
    var msix: bool
    ghost var caps: seq<Cap>

    ghost function Value(): Dev
      reads this, regs
    {
      Dev(regs[..], prevcap, capend, msi, msix, caps)
    }

    constructor ()
      ensures ListOk(Value()) && caps == [] && fresh(regs)
    {
      regs := new byte[REGS](_ => 0);
      prevcap, capend, msi, msix, caps := 0, 0, false, false, [];
    }

    /** The pointer to a new capability at `off`, and the capability bit for the first one. */
    method SetLink(off: nat)
      requires regs.Length == REGS && off == NextOff(Value()) < REGS && prevcap + 1 < REGS
      modifies regs
      ensures regs[..] == Linked(old(Value()))
    {
      if regs[STATUS] / 16 % 2 == 1 {
        regs[prevcap + 1] := off;
      } else {
        regs[CAP_PTR] := off;
        regs[STATUS] := regs[STATUS] + 16;
      }
    }

    /** pci_emul_add_capability. */
    method Add(data: seq<byte>) returns (ok: bool)
      requires ListOk(Value()) && data != []
      modifies this, regs
      ensures ok <==> Fits(old(Value()), |data|)
      ensures Value() == if ok then AddCapability(old(Value()), data) else old(Value())
    {
      var n := RoundUp4(|data|);
      var off := if regs[STATUS] / 16 % 2 == 1 then capend + 1 else CAP_START;
      ok := off + n <= REGS;
      if !ok { return; }
      SetLink(off);
      Store(off, data);
      regs[off + 1] := 0;
      prevcap, capend := off, off + n - 1;
      caps := caps + [Cap(off, n, data[0])];
    }

    /** The search of pci_emul_capwrite along the pointers: it ends, at the capability that
        holds the offset. */
    method FindCap(off: nat) returns (capoff: nat, ghost c: Cap)
      requires ListOk(Value()) && IsCap(Value(), off)
      ensures c in caps && c == CapAt(caps, off) && c.off == capoff && capoff <= off < End(c) <= REGS
    {
      ghost var d := Value();
      ghost var i := 0;
      capoff := CAP_START;
      assert CapOk(d, 0);
      while true
        invariant 0 <= i < |d.caps| && capoff == d.caps[i].off <= off
        decreases |d.caps| - i
      {
        assert CapOk(d, i);
        var nextoff := regs[capoff + 1];
        if nextoff == 0 { break; }
        assert i + 1 < |d.caps| && CapOk(d, i + 1);
        if capoff <= off < nextoff { break; }
        capoff := nextoff;
        i := i + 1;
      }
      assert CapOk(d, i);
      c := d.caps[i];
      forall k | 0 <= k < |d.caps| ensures d.caps[k].len > 0 && (k > 0 ==> d.caps[k].off == End(d.caps[k - 1])) {
        assert CapOk(d, k);
      }
      CapAtIs(d.caps, off, i);
    }

    /** CFGWRITE. */
    method Store(off: nat, data: seq<byte>)
      requires regs.Length == REGS && off + |data| <= REGS
      modifies regs
      ensures regs[..] == Put(old(regs[..]), off, data)
    {
      forall i | 0 <= i < |data| { regs[off + i] := data[i]; }
    }

    /** The cfgwrite of the capability at capoff. */
    method CapStore(capoff: nat, ghost c: Cap, off: nat, data: seq<byte>)
      requires regs.Length == REGS && off + |data| <= REGS && capoff == c.off < REGS
      modifies this, regs
      ensures Value() == CapBody(old(Value()), c, off, data)
    {
      var id := regs[capoff];
      if id == MSI && off == capoff + 2 && |data| == 2 {
        var lo := MsiLo(regs[off], data[0]);
        msi := lo % 2 == 1;
        Store(off, [lo, regs[off + 1]]);
      } else if id == MSIX && off == capoff + 2 && |data| == 2 {
        var hi := MsixHi(regs[off + 1], data[1]);
        msix := hi / 128 == 1;
        Store(off, [regs[off], hi]);
      } else if id == MSI || id == MSIX || id == EXPRESS {
        Store(off, data);
      }
    }

    /** pci_emul_capwrite. */
    method CapWrite(off: nat, data: seq<byte>)
      requires ListOk(Value()) && IsCap(Value(), off) && off + |data| <= REGS
      modifies this, regs
      ensures Value() == CapWritten(old(Value()), off, data)
    {
      var capoff;
      ghost var c;
      capoff, c := FindCap(off);
      if off == capoff || off == capoff + 1 {
        if off == capoff && |data| == 4 { CapStore(capoff, c, off + 2, data[2..]); }
      } else {
        CapStore(capoff, c, off, data);
      }
    }

    /** pci_cfgrw for a write the device itself does not take; `bar` is what update_bar_address
        and the masks make of a BAR write. */
    method CfgWrite(off: nat, data: seq<byte>, bar: seq<byte>)
      requires ListOk(Value()) && |bar| == 4
      modifies this, regs
      ensures Value() == Write(old(Value()), off, data, bar)
    {
      var n := |data|;
      if (n != 1 && n != 2 && n != 4) || off % n != 0 || off >= REGS { return; }
      AlignedFits(off, n);
      if BAR0 <= off < BAR_END {
        if n == 4 { Store(off, bar); }
      } else if regs[STATUS] / 16 % 2 == 1 && CAP_START <= off <= capend {
        CapWrite(off, data);
      } else if COMMAND <= off < REVID {
        Store(off, CmdStsBytes(regs[..], off, data));
      } else {
        Store(off, data);
      }
    }
  }
}
