/** The block request queue and its single worker thread (src/lib/block_if.c).

    A context owns BLOCKIF_MAXREQ elements, each on one of three queues: free, pending and
    busy.  A request whose start equals the end of a queued request is blocked until such
    a request completes.  The mutex bc_mtx makes every queue operation one atomic step. */
module BlockIf {
  datatype Option<+T> = None | Some(value: T)

  const NUMTHR := 1
  const MAXREQ := 128 + NUMTHR
  const OFF_MAX := 0x7fff_ffff_ffff_ffff

  /** blockif_queuesz. */
  const QUEUESZ := MAXREQ - 1

  datatype Op = Read | Write | Flush | Delete
  datatype Status = FREE | BLOCK | PEND | BUSY | DONE

  /** A client request: its identity, start offset and iovec lengths. */
  datatype Req = Req(id: nat, offset: int, iov: seq<nat>)
  datatype Elem = Elem(req: Option<Req>, op: Op, status: Status, block: int)

  /** An element is named by its index in bc_reqs; the three queues hold such indices. */
  type Slot = i: nat | i < MAXREQ
  datatype Ctxt = Ctxt(freeq: seq<Slot>, pendq: seq<Slot>, busyq: seq<Slot>, reqs: seq<Elem>)

  // ----- the queue operations on values -----

  function Sum(iov: seq<nat>): nat {
    if iov == [] then 0 else Sum(iov[..|iov| - 1]) + iov[|iov| - 1]
  }

  /** be_block: where the request ends; a flush gets an offset nothing starts at. */
  function End(r: Req, op: Op): int {
    if op.Flush? then OFF_MAX else r.offset + Sum(r.iov)
  }

  /** Pending elements carry a request. */
  predicate Shape(c: Ctxt) {
    |c.reqs| == MAXREQ && forall i | i in c.pendq :: c.reqs[i].req.Some?
  }

  predicate Ends(c: Ctxt, q: seq<Slot>, off: int)
    requires |c.reqs| == MAXREQ
  {
    exists i :: i in q && c.reqs[i].block == off
  }

  /** blockif_enqueue. */
  function Enqueued(c: Ctxt, r: Req, op: Op): Ctxt
    requires Shape(c) && c.freeq != []
  {
    var e := c.freeq[0];
    var st := if Ends(c, c.pendq, r.offset) || Ends(c, c.busyq, r.offset) then BLOCK else PEND;
    c.(freeq := c.freeq[1..], pendq := c.pendq + [e], reqs := c.reqs[e := Elem(Some(r), op, st, End(r, op))])
  }

  /** Position of the first element on q that is ready, or |q|. */
  function FirstPend(c: Ctxt, q: seq<Slot>): (k: nat)
    requires |c.reqs| == MAXREQ
    ensures k <= |q|
    ensures k < |q| ==> c.reqs[q[k]].status == PEND
    ensures forall j | 0 <= j < k :: c.reqs[q[j]].status != PEND
  {
    if q == [] || c.reqs[q[0]].status == PEND then 0 else 1 + FirstPend(c, q[1..])
  }

  function DropAt(q: seq<Slot>, k: nat): seq<Slot> requires k < |q| { q[..k] + q[k + 1..] }

  /** blockif_dequeue, when it succeeds. */
  function Dequeued(c: Ctxt): Ctxt
    requires Shape(c) && FirstPend(c, c.pendq) < |c.pendq|
  {
    var k := FirstPend(c, c.pendq);
    var e := c.pendq[k];
    c.(pendq := DropAt(c.pendq, k), busyq := c.busyq + [e], reqs := c.reqs[e := c.reqs[e].(status := BUSY)])
  }

  function IndexOf(q: seq<Slot>, e: Slot): (k: nat)
    requires e in q
    ensures k < |q| && q[k] == e && e !in q[..k]
  {
    if q[0] == e then 0 else 1 + IndexOf(q[1..], e)
  }

  function Remove(q: seq<Slot>, e: Slot): seq<Slot> {
    if e in q then DropAt(q, IndexOf(q, e)) else q
  }

  /** Every pending request that starts at `off` becomes ready. */
  function Unblocked(reqs: seq<Elem>, pendq: seq<Slot>, off: int): (r: seq<Elem>)
    requires |reqs| == MAXREQ && forall i | i in pendq :: reqs[i].req.Some?
    ensures |r| == MAXREQ
    ensures forall i | 0 <= i < |reqs| ::
      r[i] == if i in pendq && reqs[i].req.value.offset == off then reqs[i].(status := PEND) else reqs[i]
  {
    seq(|reqs|, i requires 0 <= i < |reqs| =>
      if i in pendq && reqs[i].req.value.offset == off then reqs[i].(status := PEND) else reqs[i])
  }

  /** blockif_complete. */
  function Completed(c: Ctxt, e: Slot): Ctxt
    requires Shape(c)
  {
    var el := c.reqs[e];
    var busy := el.status == DONE || el.status == BUSY;
    var pendq := if busy then c.pendq else Remove(c.pendq, e);
    assert forall i | i in pendq :: i in c.pendq;
    Ctxt(
      c.freeq + [e], pendq, if busy then Remove(c.busyq, e) else c.busyq,
      Unblocked(c.reqs, pendq, el.block)[e := el.(status := FREE, req := None)])
  }

  // ----- the same operations in place -----

  class Context {
    var freeq: seq<Slot>
    var pendq: seq<Slot>
    var busyq: seq<Slot>
    const reqs: array<Elem>

    function Value(): Ctxt reads this, reqs { Ctxt(freeq, pendq, busyq, reqs[..]) }

    constructor ()
      ensures Value() == Fresh() && fresh(reqs)
    {
      reqs := new Elem[MAXREQ](i => Elem(None, Read, FREE, 0));
      pendq, busyq := [], [];
      var q: seq<Slot> := [];
      for i := 0 to MAXREQ
        invariant q == CountDown(i)
      {
        q := [i] + q;
      }
      freeq := q;
    }

    method Enqueue(r: Req, op: Op) returns (ready: bool)
      requires Shape(Value()) && freeq != []
      modifies this`freeq, this`pendq, reqs
      ensures Value() == Enqueued(old(Value()), r, op)
      ensures ready == (Value().reqs[old(freeq)[0]].status == PEND)
    {
      ghost var c := Value();
      var e := freeq[0];
      freeq := freeq[1..];
      var off := OFF_MAX;
      if op != Flush {
        off := r.offset;
        for i := 0 to |r.iov|
          invariant off == r.offset + Sum(r.iov[..i])
        {
          assert r.iov[..i + 1][..i] == r.iov[..i];
          off := off + r.iov[i];
        }
        assert r.iov[..|r.iov|] == r.iov;
      }
      var found := Scan(pendq, r.offset);
      if !found {
        found := Scan(busyq, r.offset);
      }
      reqs[e] := Elem(Some(r), op, if found then BLOCK else PEND, off);
      pendq := pendq + [e];
      ready := !found;
      assert reqs[..] == c.reqs[e := reqs[e]];
    }

    /** The scan of one queue for an element that ends at `off`. */
    method Scan(q: seq<Slot>, off: int) returns (found: bool)
      requires reqs.Length == MAXREQ
      ensures found <==> exists i :: i in q && reqs[..][i].block == off
    {
      for k := 0 to |q|
        invariant forall j | 0 <= j < k :: reqs[q[j]].block != off
      {
        if reqs[q[k]].block == off {
          assert q[k] in q && reqs[..][q[k]].block == off;
          return true;
        }
      }
      found := false;
    }

    /** blockif_request: `signal` is the call of pthread_cond_signal. */
    method Request(r: Req, op: Op) returns (e2big: bool, signal: bool)
      requires Shape(Value())
      modifies this`freeq, this`pendq, reqs
      ensures e2big == (old(freeq) == [])
      ensures Value() == if e2big then old(Value()) else Enqueued(old(Value()), r, op)
      ensures signal == (!e2big && Value().reqs[old(freeq)[0]].status == PEND)
    {
      if freeq == [] { return true, false; }
      signal := Enqueue(r, op);
      e2big := false;
    }

    /** blockif_cancel up to the point where an in-flight request would be interrupted. */
    method Cancel(id: nat) returns (cancelled: bool)
      requires Shape(Value())
      modifies this`freeq, this`pendq, this`busyq, reqs
      ensures var c := old(Value()); var k := FindReq(c, c.pendq, id);
              cancelled == (k < |c.pendq|)
              && Value() == if cancelled then Completed(c, c.pendq[k]) else c
    {
      ghost var c := Value();
      var k := 0;
      while k < |pendq| && reqs[pendq[k]].req.value.id != id
        invariant k <= |pendq| && k + FindReq(c, pendq[k..], id) == FindReq(c, pendq, id)
      {
        assert pendq[k..][1..] == pendq[k + 1..];
        k := k + 1;
      }
      if k == |pendq| { return false; }
      Complete(pendq[k]);
      cancelled := true;
    }

    method Dequeue() returns (e: Option<Slot>)
      requires Shape(Value())
      modifies this`pendq, this`busyq, reqs
      ensures var c := old(Value()); var k := FirstPend(c, c.pendq);
              if k < |c.pendq| then e == Some(c.pendq[k]) && Value() == Dequeued(c)
              else e == None && Value() == c
    {
      ghost var c := Value();
      var k := 0;
      while k < |pendq| && reqs[pendq[k]].status != PEND
        invariant k <= |pendq|
        invariant k + FirstPend(c, pendq[k..]) == FirstPend(c, pendq)
      {
        assert pendq[k..][1..] == pendq[k + 1..];
        k := k + 1;
      }
      if k == |pendq| { return None; }
      var x := pendq[k];
      pendq := DropAt(pendq, k);
      reqs[x] := reqs[x].(status := BUSY);
      busyq := busyq + [x];
      e := Some(x);
      assert reqs[..] == c.reqs[x := reqs[x]];
    }

    method Complete(e: Slot)
      requires Shape(Value())
      modifies this`freeq, this`pendq, this`busyq, reqs
      ensures Value() == Completed(old(Value()), e)
    {
      ghost var c := Value();
      if reqs[e].status == DONE || reqs[e].status == BUSY {
        busyq := Remove(busyq, e);
      } else {
        pendq := Remove(pendq, e);
      }
      assert forall i | i in pendq :: i in c.pendq;
      Unblock(reqs[e].block);
      reqs[e] := reqs[e].(status := FREE, req := None);
      freeq := freeq + [e];
      assert reqs[..] == Completed(c, e).reqs;
    }

    /** The loop of blockif_complete over the pending queue. */
    method Unblock(off: int)
      requires Shape(Value())
      modifies reqs
      ensures reqs[..] == Unblocked(old(reqs[..]), pendq, off)
    {
      ghost var was := reqs[..];
      for k := 0 to |pendq|
        invariant forall i | 0 <= i < MAXREQ ::
          reqs[i] == if i in pendq[..k] && was[i].req.value.offset == off then was[i].(status := PEND) else was[i]
      {
        var t := pendq[k];
        assert pendq[..k + 1] == pendq[..k] + [t];
        if reqs[t].req.value.offset == off {
          reqs[t] := reqs[t].(status := PEND);
        }
      }
      assert pendq[..|pendq|] == pendq;
    }
  }

  /** Position on q of the first element that carries request `id`, or |q|. */
  function FindReq(c: Ctxt, q: seq<Slot>, id: nat): (k: nat)
    requires |c.reqs| == MAXREQ && forall i | i in q :: c.reqs[i].req.Some?
    ensures k <= |q| && (k < |q| ==> c.reqs[q[k]].req.value.id == id)
    ensures forall j | 0 <= j < k :: c.reqs[q[j]].req.value.id != id
  {
    if q == [] || c.reqs[q[0]].req.value.id == id then 0 else 1 + FindReq(c, q[1..], id)
  }

  function CountDown(n: nat): seq<Slot> requires n <= MAXREQ { if n == 0 then [] else [n - 1] + CountDown(n - 1) }

  /** blockif_open: all elements free, the last one first. */
  function Fresh(): Ctxt {
    Ctxt(CountDown(MAXREQ), [], [], seq(MAXREQ, _ => Elem(None, Read, FREE, 0)))
  }
}
