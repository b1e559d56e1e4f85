/** Command slots and I/O requests of an AHCI port: issue, completion, continuation and the
    cancelling stop (src/lib/pci_ahci.c).  All of it happens under the controller's mutex. */
module AhciSlots {
  const SLOTS := 32
  const IOQSZ := 128 // blockif_queuesz: BLOCKIF_MAXREQ - 1
  const TRIM_ENTRIES := 64

  /** How far a trim command is in its list: aior->len and aior->done, in bytes. */
  datatype TrimAt = NotTrim | At(len: nat, done: nat)

  /** The fields of struct ahci_ioreq that outlive an issue; ncq and whether the command is a
      trim are read off the command. */
  datatype Req = Req(slot: nat, ncq: bool, more: bool, trim: TrimAt)

  /** iofhd and iobhd as lists of request numbers; bit sets as sets of slots.  The last two
      are history: how often each slot was issued and finished. */
  datatype Port = Port(
    reqs: seq<Req>, free: seq<nat>, busy: seq<nat>, pending: set<nat>, ci: set<nat>, sact: set<nat>,
    issued: seq<nat>, finished: seq<nat>)

  function Inc(s: seq<nat>, i: nat): seq<nat> { if i < |s| then s[i := s[i] + 1] else s }

  /** Take the first free request for the slot: ahci_handle_rw, _flush, _dsm_trim, atapi_read. */
  function Started(p: Port, r: Req): Port
    requires p.free != [] && p.free[0] < |p.reqs|
  {
    p.(reqs := p.reqs[p.free[0] := r], free := p.free[1..], busy := [p.free[0]] + p.busy, pending := p.pending + {r.slot})
  }

  /** A new command: ahci_handle_slot for a slot that is not in flight. */
  function Issue(p: Port, r: Req): Port
    requires p.free != [] && p.free[0] < |p.reqs|
  {
    var p1 := Started(p, r);
    p1.(issued := Inc(p.issued, r.slot), ci := if r.ncq then p.ci - {r.slot} else p.ci)
  }

  function Remove(s: seq<nat>, x: nat): seq<nat> {
    if s == [] then [] else if s[0] == x then s[1..] else [s[0]] + Remove(s[1..], x)
  }

  /** The request leaves the busy list and goes to the tail of the free list. */
  function Retired(p: Port, r: nat): Port { p.(busy := Remove(p.busy, r), free := p.free + [r]) }

  function Finished(p: Port, slot: nat): Port { p.(pending := p.pending - {slot}, finished := Inc(p.finished, slot)) }

  /** What a trim command or a completion that leaves more to do runs into: a request, or, for
      a trim list with empty entries only, the end by way of a device-to-host FIS, or an entry
      past the buffer. */
  datatype Cont = Again(done: nat, more: bool) | Nothing | Outside

  /** ahci_handle_dsm_trim's search from entry k on, for a list of len bytes.  `buf` holds the
      lengths of the TRIM_ENTRIES entries its 512-byte buffer has room for. */
  function Scan(buf: seq<nat>, len: nat, k: nat): Cont
    decreases |buf| - k
  {
    if k >= |buf| then Outside
    else if buf[k] > 0 then Again(8 * (k + 1), len != 8 * (k + 1))
    else if 8 * (k + 1) >= len then Nothing
    else Scan(buf, len, k + 1)
  }

  /** What follows request q: `more` is what ahci_build_iov leaves of a transfer, `buf` what
      read_prdt finds of a trim list. */
  function Next(q: Req, more: bool, buf: seq<nat>): Cont {
    if q.trim.NotTrim? then Again(0, more) else Scan(buf, q.trim.len, q.trim.done / 8)
  }

  /** The continuation's request. */
  function Resumed(q: Req, done: nat, more: bool): Req {
    q.(more := more, trim := if q.trim.NotTrim? then NotTrim else At(q.trim.len, done))
  }

  /** ata_ioreq_cb and atapi_ioreq_cb. */
  function Complete(p: Port, r: nat, err: bool, cont: Cont): Port
    requires r < |p.reqs| && (p.free == [] || p.free[0] < |p.reqs|)
  {
    var q := p.reqs[r];
    var p1 := Retired(p, r);
    if !err && q.more && cont.Again? then Started(p1, Resumed(q, cont.done, cont.more))
    else
      var p2 := if err then p1 else if BySdb(q) then p1.(sact := p.sact - {q.slot}) else p1.(ci := p.ci - {q.slot});
      Finished(p2, q.slot)
  }

  /** The command ends in a set-device-bits FIS, which clears sact; others clear ci. */
  predicate BySdb(q: Req) { q.ncq && !q.more }

  /** One turn of ahci_port_stop's loop for a request that could be cancelled.  The flag ncq
      stays set from one request to the next. */
  function Cancelled(p: Port, r: nat, ncq: bool): Port
    requires r < |p.reqs|
  {
    var slot := p.reqs[r].slot;
    var p1 := if ncq then p.(sact := p.sact - {slot}) else p.(ci := p.ci - {slot});
    Retired(Finished(p1, slot), r)
  }

  /** The loop over the busy list as it was at the start. */
  function Stopped(p: Port, todo: seq<nat>, cancel: set<nat>, ncq: bool): Port
    requires forall i :: 0 <= i < |todo| ==> todo[i] < |p.reqs|
    decreases |todo|
  {
    if todo == [] then p
    else if todo[0] !in cancel then Stopped(p, todo[1..], cancel, ncq)
    else
      var ncq' := ncq || p.reqs[todo[0]].ncq;
      Stopped(Cancelled(p, todo[0], ncq'), todo[1..], cancel, ncq')
  }

  // ----- the invariant -----

  predicate Distinct(s: seq<nat>) { forall i, j :: 0 <= i < j < |s| ==> s[i] != s[j] }

  /** Every request is on one of the two lists, once. */
  ghost predicate ListsOk(p: Port) {
    && |p.reqs| == IOQSZ && |p.free| + |p.busy| == IOQSZ && Distinct(p.free) && Distinct(p.busy)
    && (forall i :: 0 <= i < |p.free| ==> p.free[i] < IOQSZ && p.free[i] !in p.busy)
    && (forall i :: 0 <= i < |p.busy| ==> p.busy[i] < IOQSZ)
  }

  /** A slot is pending exactly if a busy request carries it, and one only. */
  ghost predicate SlotsOk(p: Port)
    requires ListsOk(p)
  {
    && (forall r :: r in p.busy ==> p.reqs[r].slot < SLOTS && p.reqs[r].slot in p.pending)
    && (forall s :: s in p.pending ==> exists r :: r in p.busy && p.reqs[r].slot == s)
    && (forall r, t :: r in p.busy && t in p.busy && p.reqs[r].slot == p.reqs[t].slot ==> r == t)
  }

  /** Every issue of a slot is finished once, unless it is pending. */
  ghost predicate CountsOk(p: Port) {
    && |p.issued| == SLOTS && |p.finished| == SLOTS
    && forall s :: 0 <= s < SLOTS ==> p.issued[s] == p.finished[s] + (if s in p.pending then 1 else 0)
  }

  ghost predicate Inv(p: Port) { ListsOk(p) && SlotsOk(p) && CountsOk(p) }

  // ----- lists -----

  lemma {:induction false} RemoveList(s: seq<nat>, x: nat)
    requires Distinct(s) && x in s
    ensures |Remove(s, x)| == |s| - 1 && Distinct(Remove(s, x))
    ensures forall y :: y in Remove(s, x) <==> y in s && y != x
  {
    if s[0] != x {
      RemoveList(s[1..], x);
      assert s == [s[0]] + s[1..];
      assert s[0] !in s[1..];
    } else {
      assert s == [s[0]] + s[1..];
    }
  }

  lemma RetireKeepsLists(p: Port, r: nat)
    requires ListsOk(p) && r in p.busy
    ensures ListsOk(Retired(p, r))
    ensures forall y :: y in Retired(p, r).busy <==> y in p.busy && y != r
  {
    RemoveList(p.busy, r);
    var b := Remove(p.busy, r);
    forall i | 0 <= i < |b| ensures b[i] < IOQSZ { assert b[i] in b; }
    assert r !in p.free;
  }

  lemma StartKeepsLists(p: Port, r: Req)
    requires ListsOk(p) && p.free != []
    ensures ListsOk(Started(p, r))
  {
  }

  /** Distinct numbers below n are at most n. */
  lemma {:induction false} Pigeonhole(s: seq<nat>, n: nat)
    requires Distinct(s) && forall i :: 0 <= i < |s| ==> s[i] < n
    ensures |s| <= n
    decreases n
  {
    assert |s| > 0 ==> s[0] < n;
    if n > 0 && n - 1 in s {
      RemoveList(s, n - 1);
      var t := Remove(s, n - 1);
      forall i | 0 <= i < |t| ensures t[i] < n - 1 { assert t[i] in t; }
      Pigeonhole(t, n - 1);
    } else if n > 0 {
      Pigeonhole(s, n - 1);
    }
  }

  /** There is always a free request: the assertions on the free list never fail, and no more
      than SLOTS requests are ever outstanding in the block layer. */
  lemma FreeNeverEmpty(p: Port)
    requires ListsOk(p) && SlotsOk(p)
    ensures |p.busy| <= SLOTS && |p.free| >= IOQSZ - SLOTS
  {
    var t := seq(|p.busy|, i requires 0 <= i < |p.busy| => p.reqs[p.busy[i]].slot);
    forall i | 0 <= i < |t| ensures t[i] < SLOTS { assert p.busy[i] in p.busy; }
    forall i, j | 0 <= i < j < |t| ensures t[i] != t[j] {
      assert p.busy[i] in p.busy && p.busy[j] in p.busy;
    }
    Pigeonhole(t, SLOTS);
  }

  // ----- every step keeps the invariant -----

  lemma {:induction false} IssueKeepsInv(p: Port, r: Req)
    requires Inv(p) && r.slot < SLOTS && r.slot !in p.pending
    ensures p.free != [] && p.free[0] < |p.reqs| && Inv(Issue(p, r))
  {
    FreeNeverEmpty(p);
    StartKeepsLists(p, r);
    StartKeepsSlots(p, r);
  }

  /** Starting a request for a slot no busy request carries. */
  lemma {:induction false} StartKeepsSlots(p: Port, r: Req)
    requires ListsOk(p) && p.free != [] && r.slot < SLOTS && ListsOk(Started(p, r))
    requires forall t :: t in p.busy ==> p.reqs[t].slot < SLOTS && p.reqs[t].slot in p.pending && p.reqs[t].slot != r.slot
    requires forall s :: s in p.pending ==> s == r.slot || exists t :: t in p.busy && p.reqs[t].slot == s
    requires forall t, u :: t in p.busy && u in p.busy && p.reqs[t].slot == p.reqs[u].slot ==> t == u
    ensures SlotsOk(Started(p, r))
  {
    var p' := Started(p, r);
    assert p.free[0] !in p.busy;
    assert forall t :: t in p.busy ==> p'.reqs[t] == p.reqs[t];
    assert forall t :: t in p'.busy <==> t == p.free[0] || t in p.busy;
    forall s | s in p'.pending ensures exists t :: t in p'.busy && p'.reqs[t].slot == s {
      if s == r.slot {
        assert p.free[0] in p'.busy;
      } else {
        var t :| t in p.busy && p.reqs[t].slot == s;
        assert t in p'.busy;
      }
    }
  }

  /** After retiring r nothing carries its slot. */
  lemma {:induction false} RetireSlots(p: Port, r: nat)
    requires ListsOk(p) && SlotsOk(p) && r in p.busy
    ensures ListsOk(Retired(p, r)) && r < |p.reqs|
    ensures forall t :: t in Retired(p, r).busy ==> t in p.busy && p.reqs[t].slot != p.reqs[r].slot
    ensures forall s :: s in p.pending && s != p.reqs[r].slot ==> exists t :: t in Retired(p, r).busy && p.reqs[t].slot == s
  {
    RetireKeepsLists(p, r);
    forall s | s in p.pending && s != p.reqs[r].slot ensures exists t :: t in Retired(p, r).busy && p.reqs[t].slot == s {
      var t :| t in p.busy && p.reqs[t].slot == s;
      assert t in Retired(p, r).busy;
    }
  }

  /** The slot's last request ends it, whatever happens to ci and sact. */
  lemma {:induction false} FinishKeepsInv(p: Port, r: nat, ci: set<nat>, sact: set<nat>)
    requires Inv(p) && r in p.busy
    ensures r < |p.reqs| && Inv(Finished(Retired(p.(ci := ci, sact := sact), r), p.reqs[r].slot))
  {
    RetireSlots(p, r);
    var p1 := Retired(p.(ci := ci, sact := sact), r);
    var p2 := Finished(p1, p.reqs[r].slot);
    assert p1.busy == Retired(p, r).busy && p1.free == Retired(p, r).free;
    assert ListsOk(p2);
    assert SlotsOk(p2);
  }

  /** A continuation takes another request for the same slot. */
  lemma {:induction false} AgainKeepsInv(p: Port, r: nat, done: nat, more: bool)
    requires Inv(p) && r in p.busy
    ensures r < |p.reqs| && Retired(p, r).free != [] && Retired(p, r).free[0] < |p.reqs|
    ensures Inv(Started(Retired(p, r), Resumed(p.reqs[r], done, more)))
  {
    RetireSlots(p, r);
    var p1, q := Retired(p, r), Resumed(p.reqs[r], done, more);
    StartKeepsLists(p1, q);
    StartKeepsSlots(p1, q);
    assert Started(p1, q).pending == p.pending;
  }

  lemma InRange(p: Port, r: nat)
    requires ListsOk(p) && r in p.busy
    ensures r < |p.reqs| && (p.free == [] || p.free[0] < |p.reqs|)
  {
  }

  lemma {:induction false} CompleteKeepsInv(p: Port, r: nat, err: bool, cont: Cont)
    requires Inv(p) && r in p.busy
    ensures r < |p.reqs| && (p.free == [] || p.free[0] < |p.reqs|) && Inv(Complete(p, r, err, cont))
  {
    assert r < |p.reqs|;
    var q := p.reqs[r];
    if !err && q.more && cont.Again? {
      AgainKeepsInv(p, r, cont.done, cont.more);
    } else {
      var ci := if err || BySdb(q) then p.ci else p.ci - {q.slot};
      var sact := if err || !BySdb(q) then p.sact else p.sact - {q.slot};
      FinishKeepsInv(p, r, ci, sact);
      assert Complete(p, r, err, cont) == Finished(Retired(p.(ci := ci, sact := sact), r), q.slot);
    }
  }

  lemma {:induction false} StopKeepsInv(p: Port, todo: seq<nat>, cancel: set<nat>, ncq: bool)
    requires Inv(p) && Distinct(todo) && forall i :: 0 <= i < |todo| ==> todo[i] in p.busy
    ensures (forall i :: 0 <= i < |todo| ==> todo[i] < |p.reqs|) && Inv(Stopped(p, todo, cancel, ncq))
    decreases |todo|
  {
    if todo != [] {
      var r := todo[0];
      assert r in p.busy;
      if r !in cancel {
        StopKeepsInv(p, todo[1..], cancel, ncq);
      } else {
        var n := ncq || p.reqs[r].ncq;
        var slot := p.reqs[r].slot;
        FinishKeepsInv(p, r, if n then p.ci else p.ci - {slot}, if n then p.sact - {slot} else p.sact);
        var p1 := Cancelled(p, r, n);
        assert p1 == Finished(Retired(p.(ci := if n then p.ci else p.ci - {slot},
                                         sact := if n then p.sact - {slot} else p.sact), r), slot);
        RetireKeepsLists(p, r);
        forall i | 0 <= i < |todo| - 1 ensures todo[1..][i] in p1.busy { assert todo[i + 1] != r; }
        StopKeepsInv(p1, todo[1..], cancel, n);
      }
    }
  }

  // ----- runs -----

  /** A command as ahci_handle_slot finds it. */
  datatype Cmd =
    | Immediate(slot: nat, error: bool)                 // ends at once, in error or not
    | Disk(slot: nat, ncq: bool, more: bool)            // a transfer or a flush
    | Trim(slot: nat, ncq: bool, len: nat, buf: seq<nat>)

  /** The checks of ahci_handle_cmd: a trim has one block, as an NCQ command up to 255 or none. */
  predicate TrimOk(ncq: bool, len: nat, buf: seq<nat>) {
    |buf| == TRIM_ENTRIES && len % 512 == 0 && len / 512 < 256 && (!ncq ==> len == 512)
  }

  datatype Event =
    | WriteCi(slots: set<nat>)                          // the guest sets command issue bits
    | WriteSact(slots: set<nat>)                        // and active bits
    | HandleSlot(c: Cmd)                                // ahci_handle_port reaches a slot
    | Done(aior: nat, err: bool, more: bool, buf: seq<nat>) // the block layer calls back
    | Stop(cancel: set<nat>)                            // the guest clears ST
    | AllStopped                                        // ahci_check_stopped after a completion

  /** ahci_check_stopped. */
  function CheckStopped(p: Port): Port { if p.pending == {} then p.(ci := {}, sact := {}) else p }

  /** ahci_handle_slot for a slot that is not in flight; an entry past the buffer ends a run. */
  ghost function Handled(p: Port, c: Cmd): (p': Port)
    requires Inv(p) && c.slot < SLOTS && c.slot !in p.pending
    ensures Inv(p')
  {
    match c
    case Immediate(slot, error) => if error then p else p.(ci := p.ci - {slot})
    case Disk(slot, ncq, more) => var r := Req(slot, ncq, more, NotTrim); IssueKeepsInv(p, r); Issue(p, r)
    case Trim(slot, ncq, len, buf) =>
      match Scan(buf, len, 0)
      case Again(done, more) => var r := Req(slot, ncq, more, At(len, done)); IssueKeepsInv(p, r); Issue(p, r)
      case Nothing => p.(ci := p.ci - {slot})
      case Outside => p
  }

  /** The block layer calls back for request r. */
  ghost function CalledBack(p: Port, r: nat, err: bool, more: bool, buf: seq<nat>): (p': Port)
    requires Inv(p) && r in p.busy
    ensures Inv(p')
  {
    assert r < |p.reqs|;
    var cont := Next(p.reqs[r], more, buf);
    if !err && p.reqs[r].more && cont.Outside? then p
    else CompleteKeepsInv(p, r, err, cont); Complete(p, r, err, cont)
  }

  /** ahci_port_stop. */
  ghost function PortStopped(p: Port, cancel: set<nat>): (p': Port)
    requires Inv(p)
    ensures Inv(p')
  {
    BusyInBusy(p);
    StopKeepsInv(p, p.busy, cancel, false);
    CheckStopped(Stopped(p, p.busy, cancel, false))
  }

  predicate Handles(p: Port, c: Cmd) {
    c.slot < SLOTS && c.slot in p.ci && c.slot !in p.pending && (c.Trim? ==> TrimOk(c.ncq, c.len, c.buf))
  }

  ghost function Step(p: Port, e: Event): (p': Port)
    requires Inv(p)
    ensures Inv(p')
  {
    match e
    case WriteCi(slots) => p.(ci := p.ci + slots)
    case WriteSact(slots) => p.(sact := p.sact + slots)
    case HandleSlot(c) => if Handles(p, c) then Handled(p, c) else p
    case Done(r, err, more, buf) =>
      if r in p.busy && |buf| == TRIM_ENTRIES then CalledBack(p, r, err, more, buf) else p
    case Stop(cancel) => PortStopped(p, cancel)
    case AllStopped => CheckStopped(p)
  }

  lemma BusyInBusy(p: Port)
    ensures forall i :: 0 <= i < |p.busy| ==> p.busy[i] in p.busy
  {
  }

  ghost function Run(p: Port, es: seq<Event>): (p': Port)
    requires Inv(p)
    ensures Inv(p')
  {
    if es == [] then p else Step(Run(p, es[..|es| - 1]), es[|es| - 1])
  }

  function Numbers(n: nat): (r: seq<nat>)
    ensures |r| == n && forall i :: 0 <= i < n ==> r[i] == i
  {
    if n == 0 then [] else Numbers(n - 1) + [n - 1]
  }

  /** pci_ahci_ioreq_init. */
  ghost function Initial(ioqsz: nat): (p: Port)
    requires ioqsz == IOQSZ
    ensures Inv(p)
  {
    Port(seq(ioqsz, i => Req(0, false, false, NotTrim)), Numbers(ioqsz), [], {}, {}, {},
         seq(SLOTS, i => 0), seq(SLOTS, i => 0))
  }

  /** Over every run: each issue of a command slot gets exactly one final completion or
      cancellation, and a slot in flight has exactly one request. */
  lemma EachCommandOnce(es: seq<Event>, slot: nat)
    requires slot < SLOTS
    ensures var p := Run(Initial(IOQSZ), es);
      && p.finished[slot] <= p.issued[slot] <= p.finished[slot] + 1
      && (p.issued[slot] == p.finished[slot] + 1 <==> exists r :: r in p.busy && p.reqs[r].slot == slot)
      && forall r, t :: r in p.busy && t in p.busy && p.reqs[r].slot == slot == p.reqs[t].slot ==> r == t
  {
    var p := Run(Initial(IOQSZ), es);
    assert Inv(p);
  }

  // ----- what an NCQ command leaves behind -----

  /** The last entry a search from k looks at if it finds none. */
  function LastEntry(len: nat, k: nat): nat { if len <= 8 * (k + 1) then k else (len - 1) / 8 }

  /** A search finds nothing exactly if every entry up to the end of the list is empty and in
      the buffer; it leaves the buffer exactly if all entries there are empty and the list is
      longer. */
  lemma {:induction false} ScanIff(buf: seq<nat>, len: nat, k: nat)
    ensures Scan(buf, len, k).Nothing? <==>
            LastEntry(len, k) < |buf| && forall j :: k <= j <= LastEntry(len, k) ==> buf[j] == 0
    ensures Scan(buf, len, k).Outside? <==>
            LastEntry(len, k) >= |buf| && forall j :: k <= j < |buf| ==> buf[j] == 0
    decreases |buf| - k
  {
    if k < |buf| && buf[k] == 0 && 8 * (k + 1) < len {
      ScanIff(buf, len, k + 1);
      assert LastEntry(len, k + 1) == LastEntry(len, k);
    }
  }

  /** The rest of a trim list has empty entries only. */
  ghost predicate EmptyFrom(buf: seq<nat>, len: nat, k: nat) {
    LastEntry(len, k) < |buf| && forall j :: k <= j <= LastEntry(len, k) ==> buf[j] == 0
  }

  /** A completion without error finishes an NCQ command and leaves its sact bit exactly if the
      command is a trim with more to come whose remaining entries are empty. */
  lemma {:induction false} NcqLeavesSactIff(p: Port, r: nat, more: bool, buf: seq<nat>)
    requires Inv(p) && r in p.busy && r < |p.reqs| && |buf| == TRIM_ENTRIES
    requires p.reqs[r].ncq && p.reqs[r].slot in p.sact
    ensures var q, p' := p.reqs[r], CalledBack(p, r, false, more, buf);
      q.slot !in p'.pending && q.slot in p'.sact <==>
        q.more && q.trim.At? && EmptyFrom(buf, q.trim.len, q.trim.done / 8)
  {
    var q := p.reqs[r];
    assert q.slot in p.pending;
    if q.trim.At? { ScanIff(buf, q.trim.len, q.trim.done / 8); }
  }

  /** So does, at once, an NCQ trim whose entries are all empty. */
  lemma {:induction false} NcqTrimLeavesSactIff(p: Port, c: Cmd)
    requires Inv(p) && c.Trim? && c.ncq
    requires Handles(p, c) && c.slot in p.sact
    ensures var p' := Handled(p, c);
      c.slot !in p'.pending && c.slot !in p'.ci && c.slot in p'.sact <==> EmptyFrom(c.buf, c.len, 0)
  {
    ScanIff(c.buf, c.len, 0);
  }

  // ----- the trim buffer -----

  /** Every search of a trim command that goes on without error finds its entries in the
      buffer, over a list that holds still. */
  ghost predicate StaysInside(buf: seq<nat>, len: nat, k: nat)
    decreases |buf| - k
  {
    match Scan(buf, len, k)
    case Again(done, more) => ScanMoves(buf, len, k); !more || StaysInside(buf, len, done / 8)
    case Nothing => true
    case Outside => false
  }

  lemma {:induction false} ScanMoves(buf: seq<nat>, len: nat, k: nat)
    ensures Scan(buf, len, k).Again? ==>
              var c := Scan(buf, len, k);
              k < c.done / 8 <= |buf| && c.done % 8 == 0 && c.more == (c.done != len) && buf[c.done / 8 - 1] > 0
    ensures Scan(buf, len, k).Again? ==> forall j :: k <= j < Scan(buf, len, k).done / 8 - 1 ==> buf[j] == 0
    decreases |buf| - k
  {
    if k < |buf| && buf[k] == 0 && 8 * (k + 1) < len { ScanMoves(buf, len, k + 1); }
  }

  /** With one block the searches stay inside, with more they do not; with none they do
      exactly if some entry is empty. */
  lemma {:induction false} TrimInsideIff(buf: seq<nat>, blocks: nat)
    requires |buf| == TRIM_ENTRIES
    ensures StaysInside(buf, 512 * blocks, 0) <==> blocks == 1 || (blocks == 0 && 0 in buf)
  {
    InsideFrom(buf, blocks, 0);
    assert blocks == 0 && 0 in buf ==> exists j :: 0 <= j < |buf| && buf[j] == 0;
  }

  lemma {:induction false} InsideFrom(buf: seq<nat>, blocks: nat, k: nat)
    requires |buf| == TRIM_ENTRIES && k <= TRIM_ENTRIES && (blocks == 1 ==> k < TRIM_ENTRIES)
    ensures StaysInside(buf, 512 * blocks, k) <==>
            blocks == 1 || (blocks == 0 && exists j :: k <= j < |buf| && buf[j] == 0)
    decreases |buf| - k
  {
    ScanIff(buf, 512 * blocks, k);
    ScanMoves(buf, 512 * blocks, k);
    var c := Scan(buf, 512 * blocks, k);
    if c.Again? && c.more { InsideFrom(buf, blocks, c.done / 8); }
  }

  // ----- what a stop leaves behind -----

  /** A request of an NCQ command was cancelled before list position i. */
  ghost predicate AfterNcq(p: Port, todo: seq<nat>, cancel: set<nat>, i: nat)
    requires i <= |todo| && forall k :: 0 <= k < |todo| ==> todo[k] < |p.reqs|
  {
    exists j :: 0 <= j < i && todo[j] in cancel && p.reqs[todo[j]].ncq
  }

  /** The loop of ahci_port_stop clears the ci bit of a cancelled command that is not NCQ,
      unless an NCQ command was cancelled before it in the list; then its sact bit goes. */
  lemma {:induction false} StopClearsCi(p: Port, todo: seq<nat>, cancel: set<nat>, ncq: bool, i: nat)
    requires i < |todo| && todo[i] in cancel
    requires forall k :: 0 <= k < |todo| ==> todo[k] < |p.reqs|
    requires forall k, l :: 0 <= k < l < |todo| ==> p.reqs[todo[k]].slot != p.reqs[todo[l]].slot
    requires !p.reqs[todo[i]].ncq
    ensures var slot := p.reqs[todo[i]].slot;
      slot in Stopped(p, todo, cancel, ncq).ci <==> slot in p.ci && (ncq || AfterNcq(p, todo, cancel, i))
    decreases |todo|
  {
    var r, slot := todo[0], p.reqs[todo[i]].slot;
    var rest := todo[1..];
    var n := ncq || (r in cancel && p.reqs[r].ncq);
    var p1 := if r in cancel then Cancelled(p, r, n) else p;
    assert Stopped(p, todo, cancel, ncq) == Stopped(p1, rest, cancel, n);
    assert p1.reqs == p.reqs;
    if i == 0 {
      StopKeepsOthers(p1, rest, cancel, n, slot);
    } else {
      assert rest[i - 1] == todo[i];
      StopClearsCi(p1, rest, cancel, n, i - 1);
      assert AfterNcq(p1, rest, cancel, i - 1) ==> AfterNcq(p, todo, cancel, i) by {
        if j :| 0 <= j < i - 1 && rest[j] in cancel && p.reqs[rest[j]].ncq { assert todo[j + 1] == rest[j]; }
      }
      assert AfterNcq(p, todo, cancel, i) ==> n || AfterNcq(p1, rest, cancel, i - 1) by {
        if j :| 0 <= j < i && todo[j] in cancel && p.reqs[todo[j]].ncq {
          if j > 0 { assert rest[j - 1] == todo[j]; }
        }
      }
    }
  }

  lemma {:induction false} StopKeepsOthers(p: Port, todo: seq<nat>, cancel: set<nat>, ncq: bool, slot: nat)
    requires forall k :: 0 <= k < |todo| ==> todo[k] < |p.reqs| && p.reqs[todo[k]].slot != slot
    ensures slot in Stopped(p, todo, cancel, ncq).ci <==> slot in p.ci
    decreases |todo|
  {
    if todo != [] {
      if todo[0] in cancel {
        var n := ncq || p.reqs[todo[0]].ncq;
        StopKeepsOthers(Cancelled(p, todo[0], n), todo[1..], cancel, n, slot);
      } else {
        StopKeepsOthers(p, todo[1..], cancel, ncq, slot);
      }
    }
  }

  /** The requests that could not be cancelled stay busy. */
  lemma {:induction false} StopKeepsUncancelled(p: Port, todo: seq<nat>, cancel: set<nat>, ncq: bool, r: nat)
    requires Inv(p) && Distinct(todo) && forall i :: 0 <= i < |todo| ==> todo[i] in p.busy
    ensures forall i :: 0 <= i < |todo| ==> todo[i] < |p.reqs|
    ensures r in Stopped(p, todo, cancel, ncq).busy <==> r in p.busy && !(r in todo && r in cancel)
    decreases |todo|
  {
    StopKeepsInv(p, todo, cancel, ncq);
    if todo != [] {
      var x := todo[0];
      assert x in p.busy && todo == [x] + todo[1..];
      if x !in cancel {
        StopKeepsUncancelled(p, todo[1..], cancel, ncq, r);
      } else {
        var n := ncq || p.reqs[x].ncq;
        CancelledInv(p, x, n);
        var p1 := Cancelled(p, x, n);
        forall i | 0 <= i < |todo| - 1 ensures todo[1..][i] in p1.busy { assert todo[i + 1] != x; }
        StopKeepsUncancelled(p1, todo[1..], cancel, n, r);
        assert r in p1.busy <==> r in p.busy && r != x;
        assert x !in todo[1..];
      }
    }
  }

  lemma {:induction false} CancelledInv(p: Port, r: nat, n: bool)
    requires Inv(p) && r in p.busy
    ensures r < |p.reqs| && Inv(Cancelled(p, r, n))
    ensures forall y :: y in Cancelled(p, r, n).busy <==> y in p.busy && y != r
  {
    var slot := p.reqs[r].slot;
    var ci, sact := if n then p.ci else p.ci - {slot}, if n then p.sact - {slot} else p.sact;
    FinishKeepsInv(p, r, ci, sact);
    assert Cancelled(p, r, n) == Finished(Retired(p.(ci := ci, sact := sact), r), slot);
    RetireKeepsLists(p, r);
  }

  /** With nothing pending nothing is busy, and the other way round. */
  lemma {:induction false} PendingIffBusy(p: Port)
    requires Inv(p)
    ensures p.pending == {} <==> p.busy == []
  {
    if p.busy != [] { assert p.busy[0] in p.busy; }
    if p.pending != {} {
      var s :| s in p.pending;
      assert exists r :: r in p.busy && p.reqs[r].slot == s;
    }
  }

  /** ahci_port_stop leaves the ci bit of a cancelled command that is not NCQ exactly if an NCQ
      command was cancelled before it in the list and some request could not be cancelled. */
  lemma {:induction false} StopLeavesCiIff(p: Port, cancel: set<nat>, i: nat)
    requires Inv(p) && i < |p.busy| && p.busy[i] in cancel && !p.reqs[p.busy[i]].ncq
    requires p.reqs[p.busy[i]].slot in p.ci
    ensures p.reqs[p.busy[i]].slot in PortStopped(p, cancel).ci <==>
            AfterNcq(p, p.busy, cancel, i) && exists r :: r in p.busy && r !in cancel
  {
    StopKeepsInv(p, p.busy, cancel, false);
    SlotsDiffer(p);
    StopClearsCi(p, p.busy, cancel, false, i);
    var q := Stopped(p, p.busy, cancel, false);
    PendingIffBusy(q);
    if r :| r in p.busy && r !in cancel {
      StopKeepsUncancelled(p, p.busy, cancel, false, r);
    } else if q.busy != [] {
      StopKeepsUncancelled(p, p.busy, cancel, false, q.busy[0]);
    }
  }

  lemma {:induction false} SlotsDiffer(p: Port)
    requires Inv(p)
    ensures forall k, l :: 0 <= k < l < |p.busy| ==> p.reqs[p.busy[k]].slot != p.reqs[p.busy[l]].slot
  {
    forall k, l | 0 <= k < l < |p.busy| ensures p.reqs[p.busy[k]].slot != p.reqs[p.busy[l]].slot {
      assert p.busy[k] in p.busy && p.busy[l] in p.busy && p.busy[k] != p.busy[l];
    }
  }

  lemma {:induction false} RunSnoc(p: Port, es: seq<Event>, e: Event)
    requires Inv(p)
    ensures Run(p, es + [e]) == Step(Run(p, es), e)
  {
    assert (es + [e])[..|es|] == es;
  }

  lemma {:induction false} HandleNext(i: Port, es: seq<Event>, p: Port, c: Cmd)
    requires Inv(i) && Run(i, es) == p && Handles(p, c)
    ensures Run(i, es + [HandleSlot(c)]) == Handled(p, c)
  {
    RunSnoc(i, es, HandleSlot(c));
  }

  /** The run goes on with a command that needs the disk. */
  lemma {:induction false} IssueNext(i: Port, es: seq<Event>, p: Port, r: Req)
    requires Inv(i) && Run(i, es) == p && r.slot < SLOTS && r.slot in p.ci && r.slot !in p.pending && r.trim.NotTrim?
    ensures p.free != [] && p.free[0] < |p.reqs|
    ensures Run(i, es + [HandleSlot(Disk(r.slot, r.ncq, r.more))]) == Issue(p, r)
  {
    IssueKeepsInv(p, r);
    HandleNext(i, es, p, Disk(r.slot, r.ncq, r.more));
  }

  /** Three commands in flight: one not NCQ, then an NCQ one, then another. */
  ghost predicate ThreeInFlight(p: Port) {
    && |p.reqs| > 2 && p.busy == [2, 1, 0] && p.ci == {0, 2} && p.issued != [] && p.issued[0] == 1
    && p.reqs[0] == Req(0, false, false, NotTrim) && p.reqs[1] == Req(1, true, false, NotTrim) && p.reqs[2] == Req(2, false, false, NotTrim)
  }

  function First(n: nat, free: seq<nat>): Port {
    Port(seq(n, i => Req(0, false, false, NotTrim)), free, [], {}, {0, 1, 2}, {}, seq(SLOTS, i => 0), seq(SLOTS, i => 0))
  }

  lemma {:induction false} IssueThree(n: nat, free: seq<nat>)
    requires n > 2 && |free| > 2 && free[0] == 0 && free[1] == 1 && free[2] == 2
    ensures var p := Issue(First(n, free), Req(0, false, false, NotTrim));
      && p.free == free[1..] && p.ci == {0, 1, 2} && p.pending == {0} && |p.reqs| == n
      && var q := Issue(p, Req(1, true, false, NotTrim));
      && q.free == free[2..] && q.ci == {0, 2} && q.pending == {0, 1} && |q.reqs| == n
      && ThreeInFlight(Issue(q, Req(2, false, false, NotTrim)))
  {
    assert free[1..][1..] == free[2..];
  }

  lemma {:induction false} ThreeReachable(n: nat) returns (es: seq<Event>)
    requires n == IOQSZ
    ensures ThreeInFlight(Run(Initial(n), es))
  {
    var i := Initial(n);
    RunSnoc(i, [], WriteCi({0, 1, 2}));
    es := [] + [WriteCi({0, 1, 2})];
    var p := First(n, Numbers(n));
    assert Run(i, es) == p by { assert {} + {0, 1, 2} == {0, 1, 2}; }
    IssueThree(n, Numbers(n));
    IssueNext(i, es, p, Req(0, false, false, NotTrim));
    es, p := es + [HandleSlot(Disk(0, false, false))], Issue(p, Req(0, false, false, NotTrim));
    IssueNext(i, es, p, Req(1, true, false, NotTrim));
    es, p := es + [HandleSlot(Disk(1, true, false))], Issue(p, Req(1, true, false, NotTrim));
    IssueNext(i, es, p, Req(2, false, false, NotTrim));
    es := es + [HandleSlot(Disk(2, false, false))];
  }

  lemma {:induction false} StopThree(p: Port)
    requires Inv(p) && ThreeInFlight(p)
    ensures 0 in PortStopped(p, {0, 1}).ci
  {
    assert p.busy[2] == 0 && p.busy[1] == 1 && p.busy[0] == 2 && 2 in p.busy;
    assert AfterNcq(p, p.busy, {0, 1}, 2);
    StopLeavesCiIff(p, {0, 1}, 2);
  }

  lemma {:induction false} StopTwo(p: Port)
    requires Inv(p) && ThreeInFlight(p)
    ensures var q := PortStopped(p, {0, 1}); 0 !in q.pending && q.issued[0] == q.finished[0] == 1
  {
    var q := PortStopped(p, {0, 1});
    StoppedReqs(p, p.busy, {0, 1}, false);
    if 0 in q.pending {
      var r :| r in q.busy && q.reqs[r].slot == 0;
      StopKeepsUncancelled(p, p.busy, {0, 1}, false, r);
    }
  }

  /** The run goes on with a stop that can cancel the first two. */
  lemma {:induction false} StopNext(i: Port, es: seq<Event>, p: Port)
    requires Inv(i) && Run(i, es) == p && ThreeInFlight(p)
    ensures var q := Run(i, es + [Stop({0, 1})]);
      0 in q.ci && 0 !in q.pending && q.issued[0] == q.finished[0] == 1
  {
    StopThree(p);
    StopTwo(p);
    RunSnoc(i, es, Stop({0, 1}));
  }

  /** From the start: a command issued and cancelled once whose bit stays, so that the port
      would issue it again. */
  lemma {:induction false} CancelledBitSurvives(n: nat) returns (es: seq<Event>)
    requires n == IOQSZ
    ensures var q := Run(Initial(n), es); 0 in q.ci && 0 !in q.pending && q.issued[0] == q.finished[0] == 1
  {
    es := ThreeReachable(n);
    StopNext(Initial(n), es, Run(Initial(n), es));
    es := es + [Stop({0, 1})];
  }

  /** The run goes on with a trim whose first entry is not empty. */
  lemma {:induction false} TrimNext(i: Port, es: seq<Event>, p: Port, buf: seq<nat>)
    requires Inv(i) && Run(i, es) == p && 0 in p.ci && 0 !in p.pending && |buf| == TRIM_ENTRIES && buf[0] > 0
    ensures p.free != [] && p.free[0] < |p.reqs|
    ensures Run(i, es + [HandleSlot(Trim(0, true, 512, buf))]) == Issue(p, Req(0, true, true, At(512, 8)))
  {
    IssueKeepsInv(p, Req(0, true, true, At(512, 8)));
    HandleNext(i, es, p, Trim(0, true, 512, buf));
    assert Scan(buf, 512, 0) == Again(8, true);
  }

  /** A trim in flight whose remaining entries are empty. */
  ghost predicate TrimInFlight(p: Port, r: nat, buf: seq<nat>) {
    && r in p.busy && r < |p.reqs| && p.reqs[r] == Req(0, true, true, At(512, 8)) && 0 in p.sact && 0 !in p.ci
    && |p.issued| > 0 && p.issued[0] == 1 && |buf| == TRIM_ENTRIES && forall j :: 1 <= j < |buf| ==> buf[j] == 0
  }

  lemma {:induction false} TrimEnds(p: Port, r: nat, buf: seq<nat>)
    requires Inv(p) && TrimInFlight(p, r, buf)
    ensures var q := CalledBack(p, r, false, false, buf);
      0 !in q.pending && 0 in q.sact && 0 !in q.ci && q.issued == p.issued
  {
    NcqLeavesSactIff(p, r, false, buf);
    ScanIff(buf, 512, 1);
  }

  lemma {:induction false} TrimDone(i: Port, es: seq<Event>, p: Port, r: nat, buf: seq<nat>)
    requires Inv(i) && Run(i, es) == p && TrimInFlight(p, r, buf)
    ensures var q := Run(i, es + [Done(r, false, false, buf)]);
      0 !in q.pending && 0 !in q.ci && 0 in q.sact && q.issued[0] == q.finished[0] == 1
  {
    RunSnoc(i, es, Done(r, false, false, buf));
    TrimEnds(p, r, buf);
    var q := CalledBack(p, r, false, false, buf);
    assert CountsOk(q);
  }

  lemma {:induction false} TrimIssued(p: Port, n: nat, buf: seq<nat>)
    requires p == Port(seq(n, i => Req(0, false, false, NotTrim)), Numbers(n), [], {}, {0}, {0}, seq(SLOTS, i => 0), seq(SLOTS, i => 0))
    requires n > 0 && |buf| == TRIM_ENTRIES && forall j :: 1 <= j < |buf| ==> buf[j] == 0
    ensures TrimInFlight(Issue(p, Req(0, true, true, At(512, 8))), 0, buf)
  {
    assert Numbers(n)[0] == 0;
    assert 0 in [0] + p.busy;
  }

  /** From the start: an NCQ trim issued and finished once whose active bit stays. */
  lemma {:induction false} ActiveBitSurvives(n: nat, buf: seq<nat>) returns (es: seq<Event>)
    requires n == IOQSZ && |buf| == TRIM_ENTRIES && buf[0] > 0 && forall j :: 1 <= j < |buf| ==> buf[j] == 0
    ensures var q := Run(Initial(n), es);
      0 in q.sact && 0 !in q.ci && 0 !in q.pending && q.issued[0] == q.finished[0] == 1
  {
    var i := Initial(n);
    es := BothBits(n);
    var p := i.(ci := {0}, sact := {0});
    TrimNext(i, es, p, buf);
    TrimIssued(p, n, buf);
    es := es + [HandleSlot(Trim(0, true, 512, buf))];
    TrimDone(i, es, Issue(p, Req(0, true, true, At(512, 8))), 0, buf);
    es := es + [Done(0, false, false, buf)];
  }

  lemma {:induction false} BothBits(n: nat) returns (es: seq<Event>)
    requires n == IOQSZ
    ensures Run(Initial(n), es) == Initial(n).(ci := {0}, sact := {0})
  {
    var i := Initial(n);
    RunSnoc(i, [], WriteSact({0}));
    es := [] + [WriteSact({0})];
    RunSnoc(i, es, WriteCi({0}));
    es := es + [WriteCi({0})];
    assert {} + {0} == {0};
  }

  lemma {:induction false} StoppedReqs(p: Port, todo: seq<nat>, cancel: set<nat>, ncq: bool)
    requires forall i :: 0 <= i < |todo| ==> todo[i] < |p.reqs|
    ensures Stopped(p, todo, cancel, ncq).reqs == p.reqs && Stopped(p, todo, cancel, ncq).issued == p.issued
    decreases |todo|
  {
    if todo != [] {
      if todo[0] in cancel {
        var n := ncq || p.reqs[todo[0]].ncq;
        StoppedReqs(Cancelled(p, todo[0], n), todo[1..], cancel, n);
      } else {
        StoppedReqs(p, todo[1..], cancel, ncq);
      }
    }
  }

  // ----- the operations in place -----

  class AhciPort {
    var reqs: seq<Req>
    var iofhd: seq<nat>
    var iobhd: seq<nat>
    var pending: set<nat>
    var ci: set<nat>
    var sact: set<nat>
    ghost var issued: seq<nat>
    ghost var finished: seq<nat>

    ghost function Value(): Port
      reads this
    {
      Port(reqs, iofhd, iobhd, pending, ci, sact, issued, finished)
    }

    /** pci_ahci_ioreq_init. */
    constructor ()
      ensures Value() == Initial(IOQSZ)
    {
      reqs := seq(IOQSZ, i => Req(0, false, false, NotTrim));
      iofhd, iobhd := Numbers(IOQSZ), [];
      pending, ci, sact := {}, {}, {};
      issued, finished := seq(SLOTS, i => 0), seq(SLOTS, i => 0);
    }

    /** The common part of ahci_handle_rw, ahci_handle_flush and ahci_handle_dsm_trim. */
    method Start(r: Req)
      requires iofhd != [] && iofhd[0] < |reqs|
      modifies this
      ensures Value() == Started(old(Value()), r)
    {
      var aior := iofhd[0];
      iofhd := iofhd[1..];
      reqs := reqs[aior := r];
      pending := pending + {r.slot};
      iobhd := [aior] + iobhd;
    }

    /** A new command that needs the disk. */
    method HandleSlot(r: Req)
      requires Inv(Value()) && r.slot < SLOTS && r.slot !in pending
      modifies this
      ensures old(iofhd) != [] && old(iofhd)[0] < |old(reqs)| && Value() == Issue(old(Value()), r) && Inv(Value())
    {
      IssueKeepsInv(Value(), r);
      Start(r);
      if r.ncq { ci := ci - {r.slot}; }
      issued := Inc(issued, r.slot);
    }

    /** The `next` loop of ahci_handle_dsm_trim from byte `done` on. */
    method ScanTrim(buf: seq<nat>, len: nat, done: nat) returns (c: Cont)
      ensures c == Scan(buf, len, done / 8)
    {
      var k := done / 8;
      while k < |buf|
        invariant Scan(buf, len, done / 8) == Scan(buf, len, k)
        decreases |buf| - k
      {
        if buf[k] > 0 { return Again(8 * (k + 1), len != 8 * (k + 1)); }
        if 8 * (k + 1) >= len { return Nothing; }
        k := k + 1;
      }
      c := Outside;
    }

    /** ahci_handle_dsm_trim for a new command. */
    method HandleTrim(slot: nat, ncq: bool, len: nat, buf: seq<nat>) returns (outside: bool)
      requires Inv(Value()) && slot < SLOTS && slot !in pending && TrimOk(ncq, len, buf)
      modifies this
      ensures Value() == Handled(old(Value()), Trim(slot, ncq, len, buf)) && Inv(Value())
      ensures outside <==> Scan(buf, len, 0).Outside?
    {
      var cont := ScanTrim(buf, len, 0);
      outside := cont.Outside?;
      if cont.Again? {
        HandleSlot(Req(slot, ncq, cont.more, At(len, cont.done)));
      } else if cont.Nothing? {
        ci := ci - {slot};
      }
    }

    /** What ata_ioreq_cb goes on with. */
    method NextOf(q: Req, more: bool, buf: seq<nat>) returns (c: Cont)
      ensures c == Next(q, more, buf)
    {
      c := Again(0, more);
      if q.trim.At? { c := ScanTrim(buf, q.trim.len, q.trim.done); }
    }

    /** ata_ioreq_cb.  `outside` is the read of an entry past the trim buffer. */
    method IoreqCb(aior: nat, err: bool, more: bool, buf: seq<nat>) returns (outside: bool)
      requires Inv(Value()) && aior in iobhd && |buf| == TRIM_ENTRIES
      modifies this
      ensures aior < |old(reqs)| && (old(iofhd) == [] || old(iofhd)[0] < |old(reqs)|)
      ensures outside <==> !err && old(reqs)[aior].more && Next(old(reqs)[aior], more, buf).Outside?
      ensures !outside ==> Value() == Complete(old(Value()), aior, err, Next(old(reqs)[aior], more, buf)) && Inv(Value())
    {
      InRange(Value(), aior);
      var q := reqs[aior];
      var cont := NextOf(q, more, buf);
      outside := !err && q.more && cont.Outside?;
      if !outside { CompleteReq(aior, err, cont); }
    }

    method CompleteReq(aior: nat, err: bool, cont: Cont)
      requires Inv(Value()) && aior in iobhd
      modifies this
      ensures aior < |old(reqs)| && (old(iofhd) == [] || old(iofhd)[0] < |old(reqs)|)
      ensures Value() == Complete(old(Value()), aior, err, cont) && Inv(Value())
    {
      CompleteKeepsInv(Value(), aior, err, cont);
      var q := reqs[aior];
      iobhd := Remove(iobhd, aior);
      iofhd := iofhd + [aior];
      if !err && q.more && cont.Again? {
        Start(Resumed(q, cont.done, cont.more));
        return;
      }
      if !err {
        if q.ncq && !q.more { sact := sact - {q.slot}; } else { ci := ci - {q.slot}; }
      }
      pending := pending - {q.slot};
      finished := Inc(finished, q.slot);
    }

    /** The end of a cancelled request. */
    method CancelOne(aior: nat, ncq: bool)
      requires aior < |reqs|
      modifies this
      ensures Value() == Cancelled(old(Value()), aior, ncq)
    {
      var slot := reqs[aior].slot;
      if ncq { sact := sact - {slot}; } else { ci := ci - {slot}; }
      pending := pending - {slot};
      finished := Inc(finished, slot);
      iobhd := Remove(iobhd, aior);
      iofhd := iofhd + [aior];
    }

    /** ahci_port_stop; `cancel` is where blockif_cancel returns 0. */
    method PortStop(cancel: set<nat>)
      requires forall k :: 0 <= k < |iobhd| ==> iobhd[k] < |reqs|
      modifies this
      ensures Value() == CheckStopped(Stopped(old(Value()), old(iobhd), cancel, false))
    {
      var list, ncq, i := iobhd, false, 0;
      ghost var end := Stopped(Value(), list, cancel, false);
      assert list[0..] == list;
      while i < |list|
        invariant 0 <= i <= |list|
        invariant forall k :: 0 <= k < |list| ==> list[k] < |reqs|
        invariant end == Stopped(Value(), list[i..], cancel, ncq)
      {
        var aior := list[i];
        assert list[i..][0] == aior && list[i..][1..] == list[i + 1..];
        if aior in cancel {
          ncq := ncq || reqs[aior].ncq;
          CancelOne(aior, ncq);
        }
        i := i + 1;
      }
      if pending == {} { ci, sact := {}, {}; }
    }
  }
}
