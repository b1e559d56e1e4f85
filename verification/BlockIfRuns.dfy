/** Every run of the block request queue: clients submit and cancel, the single worker
    dequeues, processes and completes, in any interleaving (src/lib/block_if.c). */
module BlockIfRuns {
  import opened BlockIf

  /** Where the worker thread is in blockif_thr. */
  datatype Worker =
    | Dispatching                  // about to call blockif_dequeue
    | Processing(e: Slot)          // in blockif_proc, before the callback
    | Finished(e: Slot)            // the callback has been called
    | Waiting(signalled: bool)     // in pthread_cond_wait
    | Exited

  /** The context and the worker, with the multisets of request ids that were accepted,
      called back and cancelled so far. */
  datatype State = State(
    c: Ctxt, w: Worker, closing: bool,
    accepted: multiset<nat>, called: multiset<nat>, cancelled: multiset<nat>)

  datatype Event =
    | Submit(r: Req, op: Op)
    | Cancel(id: nat)
    | Close
    | WorkerDequeue
    | WorkerFinish
    | WorkerComplete
    | WorkerWake

  function Init(): State { State(Fresh(), Dispatching, false, multiset{}, multiset{}, multiset{}) }

  function Signal(w: Worker): Worker { if w.Waiting? then Waiting(true) else w }

  function SubmitStep(s: State, r: Req, op: Op): State
    requires Shape(s.c)
  {
    if s.c.freeq == [] then s     // E2BIG
    else
      var c' := Enqueued(s.c, r, op);
      s.(c := c', accepted := s.accepted + multiset{r.id},
         w := if c'.reqs[s.c.freeq[0]].status == PEND then Signal(s.w) else s.w)
  }

  function CancelStep(s: State, id: nat): State
    requires Shape(s.c)
  {
    var k := FindReq(s.c, s.c.pendq, id);
    if k == |s.c.pendq| then s
    else s.(c := Completed(s.c, s.c.pendq[k]), cancelled := s.cancelled + multiset{id})
  }

  function DequeueStep(s: State): State
    requires Shape(s.c)
  {
    var k := FirstPend(s.c, s.c.pendq);
    if k < |s.c.pendq| then s.(c := Dequeued(s.c), w := Processing(s.c.pendq[k]))
    else if s.closing then s.(w := Exited)
    else s.(w := Waiting(false))
  }

  /** The end of blockif_proc: the element is done, then the client is called back. */
  function FinishStep(s: State): State
    requires |s.c.reqs| == MAXREQ && s.w.Processing? && s.c.reqs[s.w.e].req.Some?
  {
    s.(c := Done(s.c, s.w.e), called := s.called + multiset{s.c.reqs[s.w.e].req.value.id}, w := Finished(s.w.e))
  }

  /** One atomic step; a worker event that does not fit the worker's place does nothing. */
  ghost function Step(s: State, ev: Event): State
    requires Inv(s)
  {
    match ev
    case Submit(r, op) => SubmitStep(s, r, op)
    case Cancel(id) => CancelStep(s, id)
    case Close => s.(closing := true, w := Signal(s.w))
    case WorkerDequeue => if s.w.Dispatching? then DequeueStep(s) else s
    case WorkerFinish => if s.w.Processing? then FinishStep(s) else s
    case WorkerComplete => if s.w.Finished? then s.(c := Completed(s.c, s.w.e), w := Dispatching) else s
    case WorkerWake => if s.w.Waiting? then s.(w := Dispatching) else s
  }

  // ----- the invariant -----

  function Queued(c: Ctxt): multiset<Slot> { multiset(c.freeq) + multiset(c.pendq) + multiset(c.busyq) }

  /** Each element is on exactly one queue, once. */
  ghost predicate Partition(c: Ctxt) { forall i: Slot :: Queued(c)[i] == 1 }

  /** be_status agrees with the queue. */
  predicate StatusOk(c: Ctxt)
    requires |c.reqs| == MAXREQ
  {
    && (forall i | i in c.freeq :: c.reqs[i].status == FREE)
    && (forall i | i in c.pendq :: c.reqs[i].req.Some? && c.reqs[i].status in {BLOCK, PEND})
    && (forall i | i in c.busyq :: c.reqs[i].req.Some? && c.reqs[i].status in {BUSY, DONE})
  }

  /** The k-th pending request has an older request in front of it that ends where it starts. */
  ghost predicate Guarded(c: Ctxt, k: nat)
    requires Shape(c) && k < |c.pendq|
  {
    exists w: Slot :: (w in c.busyq || w in c.pendq[..k])
                      && c.reqs[w].block == c.reqs[c.pendq[k]].req.value.offset
  }

  ghost predicate BlocksOk(c: Ctxt)
    requires Shape(c)
  {
    forall k | 0 <= k < |c.pendq| && c.reqs[c.pendq[k]].status == BLOCK :: Guarded(c, k)
  }

  predicate WorkerOk(s: State)
    requires |s.c.reqs| == MAXREQ
  {
    match s.w
    case Processing(e) => s.c.busyq == [e] && s.c.reqs[e].status == BUSY
    case Finished(e) => s.c.busyq == [e] && s.c.reqs[e].status == DONE
    case Waiting(signalled) => s.c.busyq == [] && (!signalled ==> s.c.pendq == [])
    case _ => s.c.busyq == []
  }

  function Ids(reqs: seq<Elem>, q: seq<Slot>): multiset<nat>
    requires |reqs| == MAXREQ && forall i | i in q :: reqs[i].req.Some?
  {
    if q == [] then multiset{} else multiset{reqs[q[0]].req.value.id} + Ids(reqs, q[1..])
  }

  /** Requests that were accepted and neither called back nor cancelled. */
  function Live(s: State): multiset<nat>
    requires Shape(s.c) && (s.w.Processing? ==> s.c.reqs[s.w.e].req.Some?)
  {
    Ids(s.c.reqs, s.c.pendq) + if s.w.Processing? then multiset{s.c.reqs[s.w.e].req.value.id} else multiset{}
  }

  predicate Conserved(s: State)
    requires Shape(s.c) && (s.w.Processing? ==> s.c.reqs[s.w.e].req.Some?)
  {
    s.accepted == s.called + s.cancelled + Live(s)
  }

  ghost predicate CtxtOk(c: Ctxt) {
    |c.reqs| == MAXREQ && Partition(c) && StatusOk(c)
  }

  ghost predicate Inv(s: State) {
    CtxtOk(s.c) && BlocksOk(s.c) && WorkerOk(s) && Conserved(s)
  }

  // ----- queues -----

  lemma {:induction false} CountDownCounts(n: nat, i: Slot)
    requires n <= MAXREQ
    ensures |CountDown(n)| == n && multiset(CountDown(n))[i] == if i < n then 1 else 0
  {
    if n > 0 { CountDownCounts(n - 1, i); }
  }

  lemma DropAtFacts(q: seq<Slot>, k: nat)
    requires k < |q|
    ensures multiset(DropAt(q, k)) == multiset(q) - multiset{q[k]} && multiset(q)[q[k]] > 0
    ensures forall i | i in DropAt(q, k) :: i in q
    ensures multiset(q)[q[k]] == 1 ==> q[k] !in DropAt(q, k)
    ensures forall w | w in q :: w == q[k] || w in DropAt(q, k)
  {
    assert q == q[..k] + [q[k]] + q[k + 1..];
    assert q[k] in DropAt(q, k) ==> q[k] in multiset(DropAt(q, k));
  }

  /** No element is on two queues, or twice on one. */
  lemma OneQueueEach(c: Ctxt, i: Slot)
    requires Partition(c)
    ensures multiset(c.freeq)[i] + multiset(c.pendq)[i] + multiset(c.busyq)[i] == 1
  {
    assert Queued(c)[i] == 1;
  }

  lemma AllSlots(m: multiset<Slot>, n: nat)
    requires n == MAXREQ && forall i: Slot :: m[i] == 1
    ensures |m| == n
  {
    forall i: Slot ensures multiset(CountDown(n))[i] == m[i] { CountDownCounts(n, i); }
    CountDownCounts(n, 0);
    assert m == multiset(CountDown(n));
  }

  lemma QueueSizes(c: Ctxt)
    requires Partition(c)
    ensures |c.freeq| + |c.pendq| + |c.busyq| == MAXREQ
  {
    AllSlots(Queued(c), MAXREQ);
  }

  lemma {:induction false} IdsFrame(reqs: seq<Elem>, reqs': seq<Elem>, q: seq<Slot>)
    requires |reqs| == |reqs'| == MAXREQ
    requires forall i | i in q :: reqs[i].req.Some? && reqs[i].req == reqs'[i].req
    ensures Ids(reqs, q) == Ids(reqs', q)
  {
    if q != [] {
      assert q[0] in q && forall i | i in q[1..] :: i in q;
      IdsFrame(reqs, reqs', q[1..]);
    }
  }

  lemma {:induction false} IdsAppend(reqs: seq<Elem>, q: seq<Slot>, e: Slot)
    requires |reqs| == MAXREQ && forall i | i in q + [e] :: reqs[i].req.Some?
    ensures (forall i | i in q :: i in q + [e]) && e in q + [e]
    ensures Ids(reqs, q + [e]) == Ids(reqs, q) + multiset{reqs[e].req.value.id}
  {
    assert forall i | i in q :: i in q + [e];
    assert (q + [e])[|q|] == e;
    if q != [] {
      assert (q + [e])[1..] == q[1..] + [e];
      assert forall i | i in q[1..] + [e] :: i in q + [e];
      IdsAppend(reqs, q[1..], e);
    } else {
      assert q + [e] == [e] && [e][1..] == [];
    }
  }

  lemma {:induction false} IdsDropAt(reqs: seq<Elem>, q: seq<Slot>, k: nat)
    requires |reqs| == MAXREQ && (forall i | i in q :: reqs[i].req.Some?) && k < |q|
    ensures (forall i | i in DropAt(q, k) :: i in q) && q[k] in q
    ensures Ids(reqs, q) == Ids(reqs, DropAt(q, k)) + multiset{reqs[q[k]].req.value.id}
  {
    assert forall i | i in DropAt(q, k) :: i in q;
    if k > 0 {
      assert DropAt(q, k)[1..] == DropAt(q[1..], k - 1);
      assert forall i | i in q[1..] :: i in q;
      IdsDropAt(reqs, q[1..], k - 1);
    } else {
      assert DropAt(q, 0) == q[1..];
    }
  }

  lemma {:induction false} IdsSize(reqs: seq<Elem>, q: seq<Slot>)
    requires |reqs| == MAXREQ && forall i | i in q :: reqs[i].req.Some?
    ensures |Ids(reqs, q)| == |q|
  {
    if q != [] {
      assert forall i | i in q[1..] :: i in q;
      IdsSize(reqs, q[1..]);
    }
  }

  // ----- each queue operation keeps the context consistent -----

  lemma EnqueuedKeepsPartition(c: Ctxt, r: Req, op: Op)
    requires CtxtOk(c) && c.freeq != []
    ensures Partition(Enqueued(c, r, op))
  {
    assert c.freeq == [c.freeq[0]] + c.freeq[1..];
    assert Queued(Enqueued(c, r, op)) == Queued(c);
  }

  lemma EnqueuedKeepsStatus(c: Ctxt, r: Req, op: Op)
    requires CtxtOk(c) && c.freeq != []
    ensures StatusOk(Enqueued(c, r, op))
  {
    var e := c.freeq[0];
    OneQueueEach(c, e);
    assert DropAt(c.freeq, 0) == c.freeq[1..];
    DropAtFacts(c.freeq, 0);
  }

  lemma EnqueuedAddsId(c: Ctxt, r: Req, op: Op)
    requires CtxtOk(c) && c.freeq != [] && StatusOk(Enqueued(c, r, op))
    ensures Ids(Enqueued(c, r, op).reqs, Enqueued(c, r, op).pendq) == Ids(c.reqs, c.pendq) + multiset{r.id}
  {
    var e := c.freeq[0];
    var c' := Enqueued(c, r, op);
    OneQueueEach(c, e);
    IdsFrame(c.reqs, c'.reqs, c.pendq);
    IdsAppend(c'.reqs, c.pendq, e);
  }

  lemma EnqueuedKeepsBlocks(c: Ctxt, r: Req, op: Op)
    requires CtxtOk(c) && BlocksOk(c) && c.freeq != [] && Shape(Enqueued(c, r, op))
    ensures BlocksOk(Enqueued(c, r, op))
  {
    var e := c.freeq[0];
    var c' := Enqueued(c, r, op);
    OneQueueEach(c, e);
    forall k | 0 <= k < |c'.pendq| && c'.reqs[c'.pendq[k]].status == BLOCK ensures Guarded(c', k) {
      assert c'.pendq[..k] == c.pendq[..k];
      var w: Slot;
      if k < |c.pendq| {
        assert Guarded(c, k);
        w :| (w in c.busyq || w in c.pendq[..k]) && c.reqs[w].block == c.reqs[c.pendq[k]].req.value.offset;
      } else {
        assert c.pendq[..k] == c.pendq;
        w :| (w in c.busyq || w in c.pendq) && c.reqs[w].block == r.offset;
      }
      assert w != e;
      assert w in c'.busyq || w in c'.pendq[..k];
    }
  }

  lemma DequeuedKeepsPartition(c: Ctxt)
    requires CtxtOk(c) && FirstPend(c, c.pendq) < |c.pendq|
    ensures Partition(Dequeued(c))
  {
    DropAtFacts(c.pendq, FirstPend(c, c.pendq));
    assert Queued(Dequeued(c)) == Queued(c);
  }

  lemma DequeuedKeepsStatus(c: Ctxt)
    requires CtxtOk(c) && FirstPend(c, c.pendq) < |c.pendq|
    ensures StatusOk(Dequeued(c))
  {
    var k := FirstPend(c, c.pendq);
    OneQueueEach(c, c.pendq[k]);
    DropAtFacts(c.pendq, k);
  }

  lemma DequeuedDropsId(c: Ctxt)
    requires Shape(c) && FirstPend(c, c.pendq) < |c.pendq| && Shape(Dequeued(c))
    ensures var e := c.pendq[FirstPend(c, c.pendq)];
            Ids(c.reqs, c.pendq) == Ids(Dequeued(c).reqs, Dequeued(c).pendq) + multiset{c.reqs[e].req.value.id}
  {
    var k := FirstPend(c, c.pendq);
    var c' := Dequeued(c);
    IdsDropAt(c.reqs, c.pendq, k);
    IdsFrame(c.reqs, c'.reqs, c'.pendq);
  }

  /** The elements in front of position k survive the removal of the element at p. */
  lemma DropAtKeepsFront(q: seq<Slot>, p: nat, k: nat, w: Slot)
    requires p < |q| && k < |q| - 1
    requires w in q[..if k < p then k else k + 1]
    ensures w == q[p] || w in DropAt(q, p)[..k]
  {
    if k < p {
      assert DropAt(q, p)[..k] == q[..k];
    } else {
      assert DropAt(q, p)[..k] == q[..p] + q[p + 1..k + 1];
      assert q[..k + 1] == q[..p] + [q[p]] + q[p + 1..k + 1];
    }
  }

  /** Element e leaves position p of the pending queue, or is not on it.  A request that was
      guarded still is, if e is busy now or ends elsewhere. */
  lemma GuardMoves(c: Ctxt, c': Ctxt, e: Slot, p: nat, k: nat)
    requires Shape(c) && Shape(c') && p <= |c.pendq| && (p < |c.pendq| ==> c.pendq[p] == e)
    requires c'.pendq == if p < |c.pendq| then DropAt(c.pendq, p) else c.pendq
    requires k < |c'.pendq| && Guarded(c, if k < p then k else k + 1)
    requires c'.reqs[c'.pendq[k]].req == c.reqs[c'.pendq[k]].req
    requires forall w: Slot :: c'.reqs[w].block == c.reqs[w].block
    requires forall w | w in c.busyq && w != e :: w in c'.busyq
    requires e in c'.busyq || c.reqs[e].block != c'.reqs[c'.pendq[k]].req.value.offset
    ensures Guarded(c', k)
  {
    var k0 := if k < p then k else k + 1;
    assert c'.pendq[k] == c.pendq[k0];
    var w: Slot :| (w in c.busyq || w in c.pendq[..k0]) && c.reqs[w].block == c.reqs[c.pendq[k0]].req.value.offset;
    if w != e && w !in c.busyq && p < |c.pendq| { DropAtKeepsFront(c.pendq, p, k, w); }
    assert w in c'.busyq || w in c'.pendq[..k];
  }

  lemma DequeuedKeepsBlocks(c: Ctxt)
    requires Shape(c) && BlocksOk(c) && FirstPend(c, c.pendq) < |c.pendq| && Shape(Dequeued(c))
    ensures BlocksOk(Dequeued(c))
  {
    var p := FirstPend(c, c.pendq);
    var c' := Dequeued(c);
    assert c'.busyq[|c.busyq|] == c.pendq[p];
    forall k | 0 <= k < |c'.pendq| && c'.reqs[c'.pendq[k]].status == BLOCK ensures Guarded(c', k) {
      assert c'.pendq[k] == c.pendq[if k < p then k else k + 1];
      GuardMoves(c, c', c.pendq[p], p, k);
    }
  }

  /** In a consistent context blockif_complete removes e from the one queue it is on. */
  lemma CompletedRemoves(c: Ctxt, e: Slot)
    requires CtxtOk(c) && (e in c.pendq || e in c.busyq)
    ensures e !in c.freeq && (e in c.pendq <==> e !in c.busyq)
    ensures Completed(c, e).pendq == Remove(c.pendq, e) && Completed(c, e).busyq == Remove(c.busyq, e)
    ensures e !in Remove(c.pendq, e) && e !in Remove(c.busyq, e)
  {
    OneQueueEach(c, e);
    if e in c.pendq { DropAtFacts(c.pendq, IndexOf(c.pendq, e)); }
    if e in c.busyq { DropAtFacts(c.busyq, IndexOf(c.busyq, e)); }
  }

  lemma RemoveCounts(q: seq<Slot>, e: Slot)
    ensures multiset(Remove(q, e)) == multiset(q) - multiset{e}
  {
    if e in q { DropAtFacts(q, IndexOf(q, e)); }
  }

  lemma CompletedKeepsPartition(c: Ctxt, e: Slot)
    requires Shape(c) && Partition(c) && (e in c.pendq || e in c.busyq)
    requires Completed(c, e).pendq == Remove(c.pendq, e) && Completed(c, e).busyq == Remove(c.busyq, e)
    ensures Partition(Completed(c, e))
  {
    RemoveCounts(c.pendq, e);
    RemoveCounts(c.busyq, e);
    OneQueueEach(c, e);
    assert Queued(Completed(c, e)) == Queued(c);
  }

  lemma CompletedKeepsStatus(c: Ctxt, e: Slot)
    requires CtxtOk(c) && (e in c.pendq || e in c.busyq)
    ensures StatusOk(Completed(c, e))
  {
    var c' := Completed(c, e);
    CompletedRemoves(c, e);
    forall i | i in c'.pendq ensures i in c.pendq { if e in c.pendq { DropAtFacts(c.pendq, IndexOf(c.pendq, e)); } }
    forall i | i in c'.busyq ensures i in c.busyq && i !in c.pendq {
      if e in c.busyq { DropAtFacts(c.busyq, IndexOf(c.busyq, e)); }
      OneQueueEach(c, i);
    }
    forall i | i in c.freeq ensures i !in c.pendq { OneQueueEach(c, i); }
  }

  lemma CompletedDropsId(c: Ctxt, e: Slot)
    requires Shape(c) && Shape(Completed(c, e))
    requires Completed(c, e).pendq == Remove(c.pendq, e) && e !in Remove(c.pendq, e)
    ensures Ids(Completed(c, e).reqs, Completed(c, e).pendq)
            + (if e in c.pendq then multiset{c.reqs[e].req.value.id} else multiset{}) == Ids(c.reqs, c.pendq)
  {
    var c' := Completed(c, e);
    if e in c.pendq {
      IdsDropAt(c.reqs, c.pendq, IndexOf(c.pendq, e));
    }
    IdsFrame(c.reqs, c'.reqs, c'.pendq);
  }

  /** Completing e leaves every end offset, and a request that is still blocked starts
      elsewhere than at the end of e. */
  lemma CompletedElems(c: Ctxt, e: Slot, i: Slot)
    requires Shape(c)
    ensures |Completed(c, e).reqs| == MAXREQ && Completed(c, e).reqs[i].block == c.reqs[i].block
    ensures var c' := Completed(c, e); i != e ==>
      c'.reqs[i].req == c.reqs[i].req &&
      (c'.reqs[i].status == BLOCK && i in c'.pendq ==> c.reqs[i].status == BLOCK && c.reqs[i].req.value.offset != c.reqs[e].block)
  {
  }

  /** A request that is still blocked after e completes keeps its blocker. */
  lemma StillGuarded(c: Ctxt, c': Ctxt, e: Slot, k: nat)
    requires Shape(c) && Shape(c') && BlocksOk(c)
    requires c'.pendq == Remove(c.pendq, e) && c'.busyq == Remove(c.busyq, e) && k < |c'.pendq|
    requires c'.reqs[c'.pendq[k]].req == c.reqs[c'.pendq[k]].req && c.reqs[c'.pendq[k]].status == BLOCK
    requires c.reqs[c'.pendq[k]].req.value.offset != c.reqs[e].block
    requires forall w: Slot :: c'.reqs[w].block == c.reqs[w].block
    ensures Guarded(c', k)
  {
    var p := if e in c.pendq then IndexOf(c.pendq, e) else |c.pendq|;
    assert c'.pendq[k] == c.pendq[if k < p then k else k + 1];
    forall w | w in c.busyq && w != e ensures w in c'.busyq {
      if e in c.busyq { DropAtFacts(c.busyq, IndexOf(c.busyq, e)); }
    }
    GuardMoves(c, c', e, p, k);
  }

  lemma CompletedKeepsBlocks(c: Ctxt, e: Slot)
    requires Shape(c) && BlocksOk(c) && Shape(Completed(c, e))
    requires Completed(c, e).pendq == Remove(c.pendq, e) && e !in Remove(c.pendq, e)
    requires Completed(c, e).busyq == Remove(c.busyq, e)
    ensures BlocksOk(Completed(c, e))
  {
    var c' := Completed(c, e);
    forall i: Slot ensures c'.reqs[i].block == c.reqs[i].block { CompletedElems(c, e, i); }
    forall k | 0 <= k < |c'.pendq| && c'.reqs[c'.pendq[k]].status == BLOCK ensures Guarded(c', k) {
      assert c'.pendq[k] in c'.pendq;
      CompletedElems(c, e, c'.pendq[k]);
      StillGuarded(c, c', e, k);
    }
  }

  // ----- runs -----

  lemma InitOk()
    ensures Inv(Init())
  {
    forall i: Slot ensures Queued(Init().c)[i] == 1 { CountDownCounts(MAXREQ, i); }
  }

  lemma EnqueuedOk(c: Ctxt, r: Req, op: Op)
    requires CtxtOk(c) && BlocksOk(c) && c.freeq != []
    ensures CtxtOk(Enqueued(c, r, op)) && BlocksOk(Enqueued(c, r, op))
    ensures Ids(Enqueued(c, r, op).reqs, Enqueued(c, r, op).pendq) == Ids(c.reqs, c.pendq) + multiset{r.id}
  {
    EnqueuedKeepsPartition(c, r, op);
    EnqueuedKeepsStatus(c, r, op);
    EnqueuedKeepsBlocks(c, r, op);
    EnqueuedAddsId(c, r, op);
  }

  lemma SubmitKeepsWorker(s: State, r: Req, op: Op)
    requires CtxtOk(s.c) && WorkerOk(s) && s.c.freeq != []
    ensures WorkerOk(SubmitStep(s, r, op))
    ensures s.w.Processing? ==> SubmitStep(s, r, op).c.reqs[s.w.e].req == s.c.reqs[s.w.e].req
  {
    OneQueueEach(s.c, s.c.freeq[0]);
    assert s.w.Processing? || s.w.Finished? ==> s.w.e in s.c.busyq;
    assert s.w.Waiting? ==> !Ends(s.c, s.c.busyq, r.offset);
  }

  lemma SubmitKeepsInv(s: State, r: Req, op: Op)
    requires Inv(s)
    ensures Inv(SubmitStep(s, r, op))
  {
    if s.c.freeq != [] {
      SubmitKeepsWorker(s, r, op);
      EnqueuedOk(s.c, r, op);
      assert Live(SubmitStep(s, r, op)) == Live(s) + multiset{r.id};
    }
  }

  /** With an empty busy queue, the request at the front is ready. */
  lemma FrontIsReady(c: Ctxt)
    requires CtxtOk(c) && BlocksOk(c) && c.busyq == [] && c.pendq != []
    ensures FirstPend(c, c.pendq) == 0
  {
    NoBlockerInFront(c);
  }

  lemma NoBlockerInFront(c: Ctxt)
    requires Shape(c) && c.busyq == [] && c.pendq != []
    ensures !Guarded(c, 0)
  {
  }

  lemma DequeuedOk(c: Ctxt)
    requires CtxtOk(c) && BlocksOk(c) && c.busyq == [] && c.pendq != []
    ensures FirstPend(c, c.pendq) == 0
    ensures CtxtOk(Dequeued(c)) && BlocksOk(Dequeued(c))
    ensures Ids(c.reqs, c.pendq)
            == Ids(Dequeued(c).reqs, Dequeued(c).pendq) + multiset{c.reqs[c.pendq[0]].req.value.id}
  {
    FrontIsReady(c);
    DequeuedKeepsPartition(c);
    DequeuedKeepsStatus(c);
    DequeuedKeepsBlocks(c);
    DequeuedDropsId(c);
  }

  lemma DequeueKeepsInv(s: State)
    requires Inv(s) && s.w.Dispatching?
    ensures Inv(DequeueStep(s))
  {
    if s.c.pendq != [] {
      DequeuedOk(s.c);
      DequeueKeepsConserved(s);
      DequeueKeepsWorker(s);
    }
  }

  lemma DequeueKeepsWorker(s: State)
    requires Shape(s.c) && s.c.busyq == [] && s.c.pendq != [] && FirstPend(s.c, s.c.pendq) == 0
    ensures WorkerOk(DequeueStep(s)) && DequeueStep(s).c == Dequeued(s.c)
  {
  }

  lemma DequeueKeepsConserved(s: State)
    requires Shape(s.c) && s.w.Dispatching? && Conserved(s) && s.c.pendq != [] && FirstPend(s.c, s.c.pendq) == 0
    requires Shape(Dequeued(s.c))
    requires Ids(s.c.reqs, s.c.pendq)
             == Ids(Dequeued(s.c).reqs, Dequeued(s.c).pendq) + multiset{s.c.reqs[s.c.pendq[0]].req.value.id}
    ensures Conserved(DequeueStep(s))
  {
  }

  function Done(c: Ctxt, e: Slot): Ctxt
    requires |c.reqs| == MAXREQ
  {
    c.(reqs := c.reqs[e := c.reqs[e].(status := DONE)])
  }

  lemma DoneKeepsBlocks(c: Ctxt, e: Slot)
    requires Shape(c) && BlocksOk(c) && e !in c.pendq
    ensures BlocksOk(Done(c, e))
  {
    var c' := Done(c, e);
    forall k | 0 <= k < |c'.pendq| && c'.reqs[c'.pendq[k]].status == BLOCK ensures Guarded(c', k) {
      assert c.pendq[k] != e;
      assert Guarded(c, k);
    }
  }

  /** Marking a busy element done changes nothing else. */
  lemma DoneOk(c: Ctxt, e: Slot)
    requires CtxtOk(c) && BlocksOk(c) && e in c.busyq
    ensures CtxtOk(Done(c, e)) && BlocksOk(Done(c, e))
    ensures Ids(Done(c, e).reqs, c.pendq) == Ids(c.reqs, c.pendq)
  {
    OneQueueEach(c, e);
    assert Queued(Done(c, e)) == Queued(c);
    DoneKeepsBlocks(c, e);
    IdsFrame(c.reqs, Done(c, e).reqs, c.pendq);
  }

  lemma FinishKeepsInv(s: State)
    requires Inv(s) && s.w.Processing?
    ensures Inv(FinishStep(s))
  {
    assert s.w.e in s.c.busyq;
    DoneOk(s.c, s.w.e);
  }

  /** blockif_complete keeps a context consistent, whichever queue e is on. */
  lemma CompletedOk(c: Ctxt, e: Slot)
    requires CtxtOk(c) && BlocksOk(c) && (e in c.pendq || e in c.busyq)
    ensures CtxtOk(Completed(c, e)) && BlocksOk(Completed(c, e))
  {
    CompletedRemoves(c, e);
    CompletedKeepsPartition(c, e);
    CompletedKeepsStatus(c, e);
    CompletedKeepsBlocks(c, e);
  }

  /** What it does to the request ids and to the busy queue. */
  lemma CompletedParts(c: Ctxt, e: Slot)
    requires CtxtOk(c) && BlocksOk(c) && (e in c.pendq || e in c.busyq)
    ensures CtxtOk(Completed(c, e))
    ensures Ids(Completed(c, e).reqs, Completed(c, e).pendq)
            + (if e in c.pendq then multiset{c.reqs[e].req.value.id} else multiset{}) == Ids(c.reqs, c.pendq)
    ensures e in c.pendq <==> e !in c.busyq
    ensures Completed(c, e).busyq == Remove(c.busyq, e)
    ensures forall i | i in c.busyq :: i == e || Completed(c, e).reqs[i] == c.reqs[i]
  {
    CompletedOk(c, e);
    CompletedRemoves(c, e);
    CompletedDropsId(c, e);
    forall i | i in c.busyq ensures i == e || Completed(c, e).reqs[i] == c.reqs[i] { OneQueueEach(c, i); }
  }

  lemma CancelKeepsWorker(s: State, e: Slot)
    requires CtxtOk(s.c) && WorkerOk(s) && e in s.c.pendq
    requires Completed(s.c, e).busyq == Remove(s.c.busyq, e) && e !in s.c.busyq
    requires forall i | i in s.c.busyq :: i == e || Completed(s.c, e).reqs[i] == s.c.reqs[i]
    ensures WorkerOk(s.(c := Completed(s.c, e)))
    ensures s.w.Processing? ==> Completed(s.c, e).reqs[s.w.e] == s.c.reqs[s.w.e]
  {
    assert s.w.Processing? || s.w.Finished? ==> s.w.e in s.c.busyq;
  }

  lemma CancelKeepsInv(s: State, id: nat)
    requires Inv(s)
    ensures Inv(CancelStep(s, id))
  {
    var k := FindReq(s.c, s.c.pendq, id);
    if k < |s.c.pendq| {
      var e := s.c.pendq[k];
      CompletedOk(s.c, e);
      CompletedParts(s.c, e);
      CancelKeepsWorker(s, e);
      CancelKeepsConserved(s, id, e);
    }
  }

  lemma CancelKeepsConserved(s: State, id: nat, e: Slot)
    requires Shape(s.c) && (s.w.Processing? ==> s.c.reqs[s.w.e].req.Some?) && Conserved(s)
    requires Shape(Completed(s.c, e)) && s.c.reqs[e].req.Some? && s.c.reqs[e].req.value.id == id
    requires Ids(Completed(s.c, e).reqs, Completed(s.c, e).pendq) + multiset{id} == Ids(s.c.reqs, s.c.pendq)
    requires s.w.Processing? ==> Completed(s.c, e).reqs[s.w.e] == s.c.reqs[s.w.e]
    ensures Conserved(s.(c := Completed(s.c, e), cancelled := s.cancelled + multiset{id}))
  {
  }

  lemma CompleteKeepsInv(s: State)
    requires Inv(s) && s.w.Finished?
    ensures Inv(s.(c := Completed(s.c, s.w.e), w := Dispatching))
  {
    assert s.w.e in s.c.busyq;
    CompletedOk(s.c, s.w.e);
    CompletedParts(s.c, s.w.e);
    assert Remove([s.w.e], s.w.e) == [];
  }

  /** Waking the worker touches no queue. */
  lemma WakeKeepsInv(s: State, closing: bool)
    requires Inv(s)
    ensures Inv(s.(closing := closing, w := Signal(s.w))) && (s.w.Waiting? ==> Inv(s.(w := Dispatching)))
  {
  }

  lemma WorkerKeepsInv(s: State, ev: Event)
    requires Inv(s) && (ev.WorkerDequeue? || ev.WorkerFinish? || ev.WorkerComplete? || ev.WorkerWake?)
    ensures Inv(Step(s, ev))
  {
    if ev.WorkerDequeue? && s.w.Dispatching? { DequeueKeepsInv(s); }
    if ev.WorkerFinish? && s.w.Processing? { FinishKeepsInv(s); }
    if ev.WorkerComplete? && s.w.Finished? { CompleteKeepsInv(s); }
    if ev.WorkerWake? { WakeKeepsInv(s, s.closing); }
  }

  lemma StepKeepsInv(s: State, ev: Event)
    requires Inv(s)
    ensures Inv(Step(s, ev))
  {
    match ev
    case Submit(r, op) => SubmitKeepsInv(s, r, op);
    case Cancel(id) => CancelKeepsInv(s, id);
    case Close => WakeKeepsInv(s, true);
    case _ => WorkerKeepsInv(s, ev);
  }

  /** The state after the events es, with the worker and the clients starting afresh. */
  ghost function Run(es: seq<Event>): (s: State)
    ensures Inv(s)
  {
    if es == [] then InitOk(); Init()
    else
      var s0 := Run(es[..|es| - 1]);
      StepKeepsInv(s0, es[|es| - 1]);
      Step(s0, es[|es| - 1])
  }

  // ----- what the invariant means, hence what holds after every run -----

  /** Requests counted from submit to callback or successful cancel. */
  ghost function Outstanding(s: State): int { |s.accepted| - |s.called| - |s.cancelled| }

  /** A client with fewer than blockif_queuesz() requests outstanding is never told E2BIG. */
  lemma NeverTooBig(s: State, r: Req, op: Op)
    requires Inv(s) && Outstanding(s) < QUEUESZ
    ensures s.c.freeq != []
    ensures Step(s, Submit(r, op)).accepted == s.accepted + multiset{r.id}
  {
    QueueSizes(s.c);
    IdsSize(s.c.reqs, s.c.pendq);
    assert Outstanding(s) == |s.c.pendq| + if s.w.Processing? then 1 else 0;
  }

  /** Every accepted request is exactly one of: live, called back once, cancelled once. */
  lemma EachRequestOnce(s: State, id: nat)
    requires Inv(s) && s.accepted[id] == 1
    ensures s.called[id] + s.cancelled[id] + Live(s)[id] == 1
  {
  }

  /** Free, pending and busy partition the elements, and be_status says which is which. */
  lemma QueuesPartition(s: State, i: Slot)
    requires Inv(s)
    ensures |s.c.reqs| == MAXREQ
    ensures multiset(s.c.freeq)[i] + multiset(s.c.pendq)[i] + multiset(s.c.busyq)[i] == 1
    ensures i in s.c.freeq <==> s.c.reqs[i].status == FREE
    ensures i in s.c.pendq <==> s.c.reqs[i].status in {BLOCK, PEND}
    ensures i in s.c.busyq <==> s.c.reqs[i].status in {BUSY, DONE}
  {
    OneQueueEach(s.c, i);
  }

  /** The worker never sleeps unsignalled while there is work. */
  lemma NoLostWork(s: State)
    requires Inv(s) && s.w == Waiting(false)
    ensures s.c.pendq == [] && s.c.busyq == []
  {
  }

  /** Whenever the worker looks for work and the pending queue is not empty, it finds some. */
  lemma DispatchSucceeds(s: State)
    requires Inv(s) && s.w.Dispatching? && s.c.pendq != []
    ensures Step(s, WorkerDequeue).w == Processing(s.c.pendq[0])
  {
    FrontIsReady(s.c);
  }

  /** A blocked request has an older request, pending or busy, that ends where it starts. */
  lemma BlockedHasBlocker(s: State, k: nat)
    requires Inv(s) && k < |s.c.pendq|
    ensures (s.c.reqs[s.c.pendq[k]].status == BLOCK ==> Guarded(s.c, k))
  {
  }
}
