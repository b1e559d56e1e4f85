/** The order in which block requests are started (src/lib/block_if.c): every accepted request
    gets the next number, and the worker writes down the numbers it starts. */
module BlockIfOrder {
  import opened BlockIf
  import R = BlockIfRuns

  datatype Log = Log(s: R.State, ticket: seq<nat>, next: nat, started: seq<nat>)

  ghost function Step(l: Log, ev: R.Event): Log
    requires R.Inv(l.s) && |l.ticket| == MAXREQ
  {
    var s' := R.Step(l.s, ev);
    if ev.Submit? && l.s.c.freeq != [] then l.(s := s', ticket := l.ticket[l.s.c.freeq[0] := l.next], next := l.next + 1)
    else if ev.WorkerDequeue? && l.s.w.Dispatching? && s'.w.Processing? then
      l.(s := s', started := l.started + [l.ticket[s'.w.e]])
    else l.(s := s')
  }

  predicate Rising(ns: seq<nat>) { forall i, j :: 0 <= i < j < |ns| ==> ns[i] < ns[j] }

  function Tickets(ticket: seq<nat>, q: seq<Slot>): (r: seq<nat>)
    requires |ticket| == MAXREQ
    ensures |r| == |q|
  {
    seq(|q|, i requires 0 <= i < |q| => ticket[q[i]])
  }

  /** The numbers started, followed by those that wait, rise; all have been given out. */
  ghost predicate Sorted(ticket: seq<nat>, q: seq<Slot>, started: seq<nat>, next: nat)
    requires |ticket| == MAXREQ
  {
    var a := started + Tickets(ticket, q);
    Rising(a) && forall k :: 0 <= k < |a| ==> a[k] < next
  }

  ghost predicate InOrder(l: Log) {
    R.Inv(l.s) && |l.ticket| == MAXREQ && Sorted(l.ticket, l.s.c.pendq, l.started, l.next)
  }

  // ----- what the queue does to the numbers -----

  lemma {:induction false} SortedAdd(ticket: seq<nat>, q: seq<Slot>, started: seq<nat>, next: nat, e: Slot)
    requires |ticket| == MAXREQ && Sorted(ticket, q, started, next) && e !in q
    ensures Sorted(ticket[e := next], q + [e], started, next + 1)
  {
    var t := ticket[e := next];
    assert Tickets(t, q + [e]) == Tickets(ticket, q) + [next];
    assert started + Tickets(t, q + [e]) == (started + Tickets(ticket, q)) + [next];
  }

  lemma {:induction false} SortedTake(ticket: seq<nat>, q: seq<Slot>, started: seq<nat>, next: nat)
    requires |ticket| == MAXREQ && Sorted(ticket, q, started, next) && q != []
    ensures Sorted(ticket, q[1..], started + [ticket[q[0]]], next)
  {
    assert Tickets(ticket, q) == [ticket[q[0]]] + Tickets(ticket, q[1..]);
    assert started + [ticket[q[0]]] + Tickets(ticket, q[1..]) == started + Tickets(ticket, q);
  }

  lemma {:induction false} SortedDrop(ticket: seq<nat>, q: seq<Slot>, started: seq<nat>, next: nat, m: nat)
    requires |ticket| == MAXREQ && Sorted(ticket, q, started, next) && m < |q|
    ensures Sorted(ticket, DropAt(q, m), started, next)
  {
    var a, n := started + Tickets(ticket, q), |started| + m;
    assert Tickets(ticket, DropAt(q, m)) == Tickets(ticket, q)[..m] + Tickets(ticket, q)[m + 1..];
    assert started + Tickets(ticket, DropAt(q, m)) == a[..n] + a[n + 1..];
  }

  // ----- what each step does to the pending queue -----

  lemma {:induction false} SubmitPending(s: R.State, r: Req, op: Op)
    requires R.Inv(s) && s.c.freeq != []
    ensures R.Step(s, R.Submit(r, op)).c.pendq == s.c.pendq + [s.c.freeq[0]] && s.c.freeq[0] !in s.c.pendq
  {
    R.OneQueueEach(s.c, s.c.freeq[0]);
  }

  /** The worker takes the oldest waiting request. */
  lemma {:induction false} DequeuePending(s: R.State)
    requires R.Inv(s) && s.w.Dispatching?
    ensures var s' := R.Step(s, R.WorkerDequeue);
      if s.c.pendq == [] then s'.c.pendq == [] && !s'.w.Processing?
      else s'.w == R.Processing(s.c.pendq[0]) && s'.c.pendq == s.c.pendq[1..]
  {
    if s.c.pendq != [] {
      R.FrontIsReady(s.c);
      assert DropAt(s.c.pendq, 0) == s.c.pendq[1..];
    }
  }

  lemma {:induction false} CancelPending(s: R.State, id: nat) returns (m: nat)
    requires R.Inv(s)
    ensures var q := R.Step(s, R.Cancel(id)).c.pendq; q == s.c.pendq || (m < |s.c.pendq| && q == DropAt(s.c.pendq, m))
  {
    var k := FindReq(s.c, s.c.pendq, id);
    m := 0;
    if k < |s.c.pendq| {
      R.CompletedRemoves(s.c, s.c.pendq[k]);
      m := IndexOf(s.c.pendq, s.c.pendq[k]);
    }
  }

  lemma {:induction false} CompletePending(s: R.State)
    requires R.Inv(s) && s.w.Finished?
    ensures Completed(s.c, s.w.e).pendq == s.c.pendq
  {
    assert s.w.e in s.c.busyq;
    R.CompletedRemoves(s.c, s.w.e);
  }

  lemma {:induction false} OthersKeepPending(s: R.State, ev: R.Event)
    requires R.Inv(s) && !ev.Cancel? && !(ev.WorkerDequeue? && s.w.Dispatching?) && (ev.Submit? ==> s.c.freeq == [])
    ensures R.Step(s, ev).c.pendq == s.c.pendq
  {
    if s.w.Finished? { CompletePending(s); }
  }

  lemma {:induction false} StepSorted(l: Log, ev: R.Event)
    requires InOrder(l)
    ensures var l' := Step(l, ev); |l'.ticket| == MAXREQ && Sorted(l'.ticket, l'.s.c.pendq, l'.started, l'.next)
  {
    var q := l.s.c.pendq;
    if ev.Submit? && l.s.c.freeq != [] {
      SubmitPending(l.s, ev.r, ev.op);
      SortedAdd(l.ticket, q, l.started, l.next, l.s.c.freeq[0]);
    } else if ev.WorkerDequeue? && l.s.w.Dispatching? {
      DequeuePending(l.s);
      if q != [] { SortedTake(l.ticket, q, l.started, l.next); }
    } else if ev.Cancel? {
      var m := CancelPending(l.s, ev.id);
      if m < |q| { SortedDrop(l.ticket, q, l.started, l.next, m); }
    } else {
      OthersKeepPending(l.s, ev);
    }
  }

  lemma {:induction false} StepInOrder(l: Log, ev: R.Event)
    requires InOrder(l)
    ensures InOrder(Step(l, ev))
  {
    R.StepKeepsInv(l.s, ev);
    StepSorted(l, ev);
  }

  ghost function Run(es: seq<R.Event>): (l: Log)
    ensures InOrder(l)
  {
    if es == [] then
      R.InitOk();
      Log(R.Init(), seq(MAXREQ, i => 0), 0, [])
    else
      var p := Run(es[..|es| - 1]);
      StepInOrder(p, es[|es| - 1]);
      Step(p, es[|es| - 1])
  }

  /** Over every run of clients and the worker, requests are started in the order in which
      they were accepted. */
  lemma StartedInOrder(es: seq<R.Event>)
    ensures Rising(Run(es).started)
  {
    var l := Run(es);
    var a := l.started + Tickets(l.ticket, l.s.c.pendq);
    assert forall i :: 0 <= i < |l.started| ==> l.started[i] == a[i];
  }
}
