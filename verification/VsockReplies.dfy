/** The ring of replies the vsock device owes the guest: the tx thread fills it, the rx thread
    empties it as the guest gives it descriptors (src/lib/pci_virtio_sock.c).  Both hold
    reply_mtx, so each operation is one step. */
module VsockReplies {
  const RING := 512 // VTSOCK_REPLYRINGSZ

  /** A reply header, by number. */
  type Hdr = nat

  function Min(a: nat, b: nat): nat { if a < b then a else b }

  function Next(i: nat): nat { if i + 1 == RING then 0 else i + 1 }

  class ReplyRing {
    const ring: array<Hdr>
    var prod: nat
    var cons: nat

    ghost predicate Valid()
      reads this
    {
      ring.Length == RING && prod < RING && cons < RING
    }

    /** The replies to come, oldest first. */
    ghost function Contents(): (s: seq<Hdr>)
      requires Valid()
      reads this, ring
      ensures |s| < RING
    {
      if cons <= prod then ring[cons..prod] else ring[cons..] + ring[..prod]
    }

    constructor ()
      ensures Valid() && Contents() == [] && fresh(ring)
    {
      ring := new Hdr[RING](_ => 0);
      prod, cons := 0, 0;
    }

    /** send_response_common; `overflow` is its failed assertion. */
    method Send(h: Hdr) returns (overflow: bool)
      requires Valid()
      modifies this, ring
      ensures overflow <==> |old(Contents())| == RING - 1
      ensures !overflow ==> Valid() && Contents() == old(Contents()) + [h]
    {
      var slot := prod;
      prod := Next(prod);
      overflow := cons == prod;
      if !overflow { ring[slot] := h; }
    }

    /** rx_do_one_reply, with a descriptor at hand. */
    method DoOneReply() returns (out: seq<Hdr>, more: bool)
      requires Valid()
      modifies this
      ensures Valid() && old(Contents()) == out + Contents() && |out| == Min(1, |old(Contents())|)
      ensures more <==> Contents() != []
    {
      out, more := [], false;
      if cons == prod { return; }
      out := [ring[cons]];
      cons := Next(cons);
      more := cons != prod;
    }

    /** The rx thread's loop over pending replies, while there are descriptors. */
    method DoReplies(descs: nat) returns (out: seq<Hdr>)
      requires Valid()
      modifies this
      ensures Valid() && old(Contents()) == out + Contents() && |out| == Min(descs, |old(Contents())|)
    {
      out := [];
      var more := true;
      ghost var was, rest := Contents(), Contents();
      while |out| < descs && more
        invariant Valid() && Contents() == rest && was == out + rest && |out| <= descs
        invariant !more ==> rest == []
        decreases descs - |out|, more
      {
        var one;
        one, more := DoOneReply();
        Regroup(out, one, Contents());
        out, rest := out + one, Contents();
      }
    }
  }

  lemma Regroup(a: seq<Hdr>, b: seq<Hdr>, c: seq<Hdr>)
    ensures a + (b + c) == (a + b) + c
  {
  }

  // ----- runs -----

  /** The tx thread makes some replies, then the rx thread runs with so many descriptors. */
  datatype Round = Round(replies: seq<Hdr>, descs: nat)

  /** What the guest got and what is left to send, or a failed assertion. */
  datatype State = Running(got: seq<Hdr>, left: seq<Hdr>) | Overflow

  function Sent(s: State, hs: seq<Hdr>): State {
    if hs == [] then s
    else
      var t := Sent(s, hs[..|hs| - 1]);
      if t.Overflow? || |t.left| == RING - 1 then Overflow else t.(left := t.left + [hs[|hs| - 1]])
  }

  function Taken(s: State, descs: nat): State {
    if s.Overflow? then s
    else
      var n := Min(descs, |s.left|);
      Running(s.got + s.left[..n], s.left[n..])
  }

  function Run(rounds: seq<Round>): State {
    if rounds == [] then Running([], [])
    else
      var r := rounds[|rounds| - 1];
      Taken(Sent(Run(rounds[..|rounds| - 1]), r.replies), r.descs)
  }

  function All(rounds: seq<Round>): seq<Hdr> {
    if rounds == [] then [] else All(rounds[..|rounds| - 1]) + rounds[|rounds| - 1].replies
  }

  /** The replies made and not delivered, counted without a ring. */
  function Backlog(rounds: seq<Round>): nat {
    if rounds == [] then 0
    else
      var r := rounds[|rounds| - 1];
      var n := Backlog(rounds[..|rounds| - 1]) + |r.replies|;
      if n < r.descs then 0 else n - r.descs
  }

  /** The backlog and the replies of every round are fewer than the ring's slots. */
  predicate Bounded(rounds: seq<Round>) {
    rounds == [] ||
    (Bounded(rounds[..|rounds| - 1])
     && Backlog(rounds[..|rounds| - 1]) + |rounds[|rounds| - 1].replies| < RING)
  }

  lemma {:induction false} SentIff(s: State, hs: seq<Hdr>)
    requires s.Running? && |s.left| < RING
    ensures Sent(s, hs).Running? <==> |s.left| + |hs| < RING
    ensures Sent(s, hs).Running? ==> Sent(s, hs) == s.(left := s.left + hs)
  {
    if hs == [] {
      assert s.left + hs == s.left;
    } else {
      SentIff(s, hs[..|hs| - 1]);
      assert s.left + hs == s.left + hs[..|hs| - 1] + [hs[|hs| - 1]];
    }
  }

  lemma {:induction false} SentOverflow(hs: seq<Hdr>)
    ensures Sent(Overflow, hs).Overflow?
  {
    if hs != [] { SentOverflow(hs[..|hs| - 1]); }
  }

  /** The assertion holds throughout a run exactly if the run is bounded; and then the guest
      gets the replies in the order they were made, none lost and none twice. */
  lemma {:induction false} NoOverflowIff(rounds: seq<Round>)
    ensures Run(rounds).Running? <==> Bounded(rounds)
    ensures Run(rounds).Running? ==>
              var s := Run(rounds); s.got + s.left == All(rounds) && |s.left| == Backlog(rounds) < RING
  {
    if rounds != [] {
      var front, r := rounds[..|rounds| - 1], rounds[|rounds| - 1];
      NoOverflowIff(front);
      var s := Run(front);
      if s.Overflow? {
        SentOverflow(r.replies);
      } else {
        SentIff(s, r.replies);
        var t := Sent(s, r.replies);
        if t.Running? {
          assert s.got + s.left + r.replies == s.got + (s.left + r.replies);
          assert t.left == t.left[..Min(r.descs, |t.left|)] + t.left[Min(r.descs, |t.left|)..];
        }
      }
    }
  }

  /** A guest that keeps enough descriptors for every reply is safe if no round makes RING. */
  lemma {:induction false} ServedNeverOverflows(rounds: seq<Round>)
    requires forall i :: 0 <= i < |rounds| ==> |rounds[i].replies| < RING && |rounds[i].replies| <= rounds[i].descs
    ensures Run(rounds).Running? && Backlog(rounds) == 0
  {
    if rounds != [] {
      ServedNeverOverflows(rounds[..|rounds| - 1]);
      NoOverflowIff(rounds[..|rounds| - 1]);
    }
    NoOverflowIff(rounds);
  }

  /** One that gives none fails the assertion with its RING-th packet to be answered. */
  lemma {:induction false} UnservedOverflows(hs: seq<Hdr>)
    ensures Run([Round(hs, 0)]).Overflow? <==> |hs| >= RING
  {
    NoOverflowIff([Round(hs, 0)]);
    assert [Round(hs, 0)][..0] == [];
  }
}
