/** The SMP rendezvous of the virtual machine monitor, and its interplay with suspend
    (src/lib/vmm/vmm.c).

    A rendezvous asks a set of vCPUs to run one function each.  The rendezvous fields are
    protected by rendezvous_mtx, so every lock-held section is one atomic step here: the
    start of a rendezvous, and one pass of the loop in vm_handle_rendezvous.  Host threads
    interleave at these steps and at the condition-variable wait.  active_cpus and
    suspended_cpus grow without that lock. */
module Rendezvous {
  datatype Option<+T> = None | Some(value: T)

  /** Rendezvous are numbered in the order in which they start. */
  type Rid = nat

  /** A host thread: the thread of a vCPU, or any other thread (vcpuid == -1). */
  datatype Thread = OfVcpu(v: nat) | Other(k: nat)

  /** What a thread does once vm_handle_rendezvous returns to it. */
  datatype Cont = Plain | Restart(dest: set<nat>) | Finish(own: Rid) | Resuspend

  datatype Pc =
    | Idle
    | Starting(dest: set<nat>)               // at `restart` in vm_smp_rendezvous
    | AtLoop(k: Cont)                        // about to take the lock in vm_handle_rendezvous
    | Asleep(signalled: bool, k: Cont)       // in pthread_cond_wait
    | Suspending                             // in the loop of vm_handle_suspend

  /** The fields of struct vm that the rendezvous and suspend use. */
  datatype Shared = Shared(
    active: set<nat>, suspended: set<nat>,
    req: set<nat>, done: set<nat>, func: Option<Rid>)

  /** The shared fields, the threads, and the history of what ran:
      `runs` counts calls of rendezvous functions, `dest` is what each rendezvous asked for,
      `target` what was left of it at the first handler pass, `passed` whether the
      rendezvous in progress has seen that first pass, `starter` the thread that started it. */
  datatype State = State(
    sh: Shared,
    pc: map<Thread, Pc>,
    next: Rid,
    runs: multiset<(Rid, nat)>,
    dest: map<Rid, set<nat>>,
    target: map<Rid, set<nat>>,
    passed: bool,
    starter: Thread,
    completed: set<Rid>)

  datatype Event =
    | Activate(v: nat)
    | CallSmp(t: Thread, dest: set<nat>)
    | CallHandler(t: Thread)
    | CallSuspend(t: Thread)
    | TryStart(t: Thread)
    | Pass(t: Thread)
    | Wake(t: Thread)
    | SuspendCheck(t: Thread)

  const Init := State(Shared({}, {}, {}, {}, None), map[], 0, multiset{}, map[], map[], false, Other(0), {})

  function PcOf(s: State, t: Thread): Pc { if t in s.pc then s.pc[t] else Idle }

  // ----- the lock-held sections -----

  /** vm_smp_rendezvous, when no rendezvous is in progress. */
  function Started(sh: Shared, dest: set<nat>, r: Rid): Shared {
    sh.(req := dest, done := {}, func := Some(r))
  }

  /** Does thread t call the function in this pass? */
  predicate MustRun(sh: Shared, t: Thread) {
    t.OfVcpu? && t.v in sh.req * sh.active && t.v !in sh.done
  }

  /** One pass of the loop in vm_handle_rendezvous, with func != NULL. */
  function Passed(sh: Shared, t: Thread): Shared {
    var req := sh.req * sh.active;
    var done := if MustRun(sh, t) then sh.done + {t.v} else sh.done;
    sh.(req := req, done := done, func := if req == done then None else sh.func)
  }

  /** The same sections on the fields of struct vm. */
  class Vm {
    var active: set<nat>
    var suspended: set<nat>
    var req: set<nat>
    var done: set<nat>
    var func: Option<Rid>

    function Value(): Shared reads this { Shared(active, suspended, req, done, func) }

    constructor ()
      ensures Value() == Init.sh
    {
      active, suspended, req, done, func := {}, {}, {}, {}, None;
    }

    method ActivateCpu(v: nat) returns (ok: bool)
      modifies this`active
      ensures ok == (v !in old(active)) && Value() == old(Value()).(active := old(active) + {v})
    {
      if v in active { return false; }
      active := active + {v};
      ok := true;
    }

    method SmpRendezvousStart(dest: set<nat>, r: Rid) returns (started: bool)
      modifies this`req, this`done, this`func
      ensures started == old(func).None?
      ensures Value() == if started then Started(old(Value()), dest, r) else old(Value())
    {
      if func != None { return false; }
      req := dest;
      done := {};
      func := Some(r);
      started := true;
    }

    /** `waits` tells the caller to sleep on the condition variable, `ran` that the
        rendezvous function was called. */
    method HandleRendezvousPass(t: Thread) returns (ran: bool, waits: bool)
      requires func.Some?
      modifies this`req, this`done, this`func
      ensures Value() == Passed(old(Value()), t)
      ensures ran == MustRun(old(Value()), t)
      ensures waits == func.Some?
    {
      req := req * active;
      ran := false;
      if t.OfVcpu? && t.v in req && t.v !in done {
        ran := true;
        done := done + {t.v};
      }
      if req == done {
        func := None;
      }
      waits := func != None;
    }
  }

  /** pthread_cond_broadcast. */
  function Broadcast(pc: map<Thread, Pc>): map<Thread, Pc> {
    map t | t in pc :: if pc[t].Asleep? then Asleep(true, pc[t].k) else pc[t]
  }

  /** Where a thread goes when vm_handle_rendezvous returns. */
  function Return(k: Cont): Pc {
    match k
    case Restart(dest) => Starting(dest)
    case Resuspend => Suspending
    case _ => Idle
  }

  function PassStep(s: State, t: Thread, k: Cont): State {
    if s.sh.func == None then s.(pc := s.pc[t := Return(k)])
    else
      var r := s.sh.func.value;
      var sh' := Passed(s.sh, t);
      var s1 := s.(
        sh := sh',
        runs := if MustRun(s.sh, t) then s.runs + multiset{(r, t.v)} else s.runs,
        target := if s.passed then s.target else s.target[r := sh'.req],
        passed := true);
      if sh'.func == None then
        s1.(pc := Broadcast(s.pc)[t := Return(k)], completed := s.completed + {r})
      else
        s1.(pc := s.pc[t := Asleep(false, k)])
  }

  /** A vCPU thread is in vm_run only while its vCPU is active and not suspended. */
  predicate MayRun(s: State, t: Thread) {
    PcOf(s, t).Idle? && (t.OfVcpu? ==> t.v in s.sh.active && t.v !in s.sh.suspended)
  }

  /** One atomic step; an event whose thread is elsewhere does nothing. */
  function Step(s: State, e: Event): State {
    match e
    case Activate(v) => s.(sh := s.sh.(active := s.sh.active + {v}))
    case CallSmp(t, dest) => if MayRun(s, t) then s.(pc := s.pc[t := Starting(dest)]) else s
    case CallHandler(t) => if MayRun(s, t) then s.(pc := s.pc[t := AtLoop(Plain)]) else s
    case CallSuspend(t) =>
      if MayRun(s, t) && t.OfVcpu? then
        s.(pc := s.pc[t := Suspending], sh := s.sh.(suspended := s.sh.suspended + {t.v}))
      else s
    case TryStart(t) =>
      if !PcOf(s, t).Starting? then s
      else if s.sh.func != None then s.(pc := s.pc[t := AtLoop(Restart(PcOf(s, t).dest))])
      else s.(
        sh := Started(s.sh, PcOf(s, t).dest, s.next),
        dest := s.dest[s.next := PcOf(s, t).dest],
        pc := s.pc[t := AtLoop(Finish(s.next))],
        next := s.next + 1,
        passed := false,
        starter := t)
    case Pass(t) => if PcOf(s, t).AtLoop? then PassStep(s, t, PcOf(s, t).k) else s
    case Wake(t) => if PcOf(s, t).Asleep? then s.(pc := s.pc[t := AtLoop(PcOf(s, t).k)]) else s
    case SuspendCheck(t) =>
      if !PcOf(s, t).Suspending? then s
      else if s.sh.suspended == s.sh.active then s.(pc := s.pc[t := Idle])
      else if s.sh.func == None then s                       // sleeps, and checks again
      else s.(pc := s.pc[t := AtLoop(Resuspend)])
  }

  function Run(s: State, es: seq<Event>): State {
    if es == [] then s else Step(Run(s, es[..|es| - 1]), es[|es| - 1])
  }

  // ----- the invariant -----

  /** Rendezvous never overlap; each completed one ran its target exactly once, the one
      in progress exactly `done`. */
  ghost predicate History(s: State) {
    && (forall q: Rid :: q in s.completed <==> q < s.next && s.sh.func != Some(q))
    && (s.sh.func.Some? ==> s.sh.func.value + 1 == s.next)
    && (forall q: Rid :: q in s.dest <==> q < s.next)
    && (forall q: Rid :: q in s.target <==> q in s.completed || (s.sh.func == Some(q) && s.passed))
    && (forall q: Rid | q in s.target :: q in s.dest && s.target[q] <= s.dest[q])
    && (forall q: Rid, v: nat :: s.runs[(q, v)] ==
          if q in s.completed then (if v in s.target[q] then 1 else 0)
          else if s.sh.func == Some(q) && v in s.sh.done then 1 else 0)
  }

  /** The shared sets and the starter while a rendezvous is in progress. */
  ghost predicate InProgress(s: State) {
    s.sh.func.Some? ==>
      var r := s.sh.func.value;
      var p := PcOf(s, s.starter);
      && r in s.dest
      && s.sh.done <= s.sh.req
      && (s.passed ==> r in s.target && s.sh.req == s.target[r] && s.sh.req <= s.sh.active
                       && s.sh.done != s.sh.req)
      && (!s.passed ==> s.sh.done == {} && s.sh.req == s.dest[r] && p.AtLoop?)
      && (p.AtLoop? || p.Asleep?) && p.k == Finish(r)
  }

  ghost predicate ThreadOk(s: State, t: Thread) {
    var p := PcOf(s, t);
    && ((p.AtLoop? || p.Asleep?) && p.k.Finish? ==> p.k.own < s.next)
    && ((p.Starting? || ((p.AtLoop? || p.Asleep?) && !p.k.Resuspend?)) && t.OfVcpu? ==>
          t.v in s.sh.active && t.v !in s.sh.suspended)
    // a sleeper that nobody has signalled waits for others, never for itself
    && (p.Asleep? && !p.signalled ==>
          s.sh.func.Some? && s.passed && (t.OfVcpu? ==> t.v !in s.sh.req || t.v in s.sh.done))
  }

  ghost predicate Inv(s: State) {
    History(s) && InProgress(s) && forall t :: ThreadOk(s, t)
  }

  lemma PassKeepsHistory(s: State, t: Thread)
    requires Inv(s) && PcOf(s, t).AtLoop? && s.sh.func.Some?
    ensures History(Step(s, Pass(t)))
  {
    if s.passed { assert s.sh.req * s.sh.active == s.sh.req; }
  }

  lemma PassKeepsInProgress(s: State, t: Thread)
    requires Inv(s) && PcOf(s, t).AtLoop? && s.sh.func.Some?
    ensures InProgress(Step(s, Pass(t)))
  {
    if s.passed { assert s.sh.req * s.sh.active == s.sh.req; }
  }

  lemma PassKeepsThread(s: State, t: Thread, u: Thread)
    requires Inv(s) && PcOf(s, t).AtLoop? && s.sh.func.Some?
    ensures ThreadOk(Step(s, Pass(t)), u)
  {
    assert ThreadOk(s, u) && ThreadOk(s, t);
    if s.passed { assert s.sh.req * s.sh.active == s.sh.req; }
  }

  lemma TryStartKeepsInv(s: State, t: Thread)
    requires Inv(s) && PcOf(s, t).Starting?
    ensures Inv(Step(s, TryStart(t)))
  {
    forall u ensures ThreadOk(Step(s, TryStart(t)), u) {
      assert ThreadOk(s, u) && ThreadOk(s, t);
    }
  }

  lemma OtherStepsKeepHistory(s: State, e: Event)
    requires Inv(s) && !e.Pass? && !e.TryStart?
    ensures History(Step(s, e))
  {
  }

  lemma OtherStepsKeepInProgress(s: State, e: Event)
    requires Inv(s) && !e.Pass? && !e.TryStart?
    ensures InProgress(Step(s, e))
  {
  }

  lemma OtherStepsKeepThread(s: State, e: Event, u: Thread)
    requires Inv(s) && !e.Pass? && !e.TryStart?
    ensures ThreadOk(Step(s, e), u)
  {
    assert ThreadOk(s, u);
    if !e.Activate? { assert ThreadOk(s, e.t); }
  }

  lemma StepKeepsInv(s: State, e: Event)
    requires Inv(s)
    ensures Inv(Step(s, e))
  {
    match e
    case Pass(t) =>
      if PcOf(s, t).AtLoop? && s.sh.func.Some? {
        PassKeepsHistory(s, t);
        PassKeepsInProgress(s, t);
        forall u ensures ThreadOk(Step(s, e), u) { PassKeepsThread(s, t, u); }
      } else {
        forall u ensures ThreadOk(Step(s, e), u) { assert ThreadOk(s, u) && ThreadOk(s, t); }
      }
    case TryStart(t) => if PcOf(s, t).Starting? { TryStartKeepsInv(s, t); }
    case _ =>
      OtherStepsKeepHistory(s, e);
      OtherStepsKeepInProgress(s, e);
      forall u ensures ThreadOk(Step(s, e), u) { OtherStepsKeepThread(s, e, u); }
  }

  /** Every reachable state satisfies the invariant. */
  lemma {:induction false} RunKeepsInv(es: seq<Event>)
    ensures Inv(Run(Init, es))
  {
    if es != [] {
      RunKeepsInv(es[..|es| - 1]);
      StepKeepsInv(Run(Init, es[..|es| - 1]), es[|es| - 1]);
    }
  }

  // ----- what follows over whole runs -----

  lemma StepKeepsTarget(s: State, e: Event, q: Rid)
    requires Inv(s) && q in s.target
    ensures q in Step(s, e).target && Step(s, e).target[q] == s.target[q]
  {
  }

  /** Completed rendezvous stay completed and targets never change. */
  lemma {:induction false} TargetsAreStable(s: State, es: seq<Event>, q: Rid)
    requires Inv(s) && q in s.target
    ensures Inv(Run(s, es))
    ensures q in Run(s, es).target && Run(s, es).target[q] == s.target[q]
  {
    if es != [] {
      TargetsAreStable(s, es[..|es| - 1], q);
      StepKeepsInv(Run(s, es[..|es| - 1]), es[|es| - 1]);
      StepKeepsTarget(Run(s, es[..|es| - 1]), es[|es| - 1], q);
    }
  }

  /** Take any reachable state just before the first handler pass of rendezvous r, and any
      continuation.  If r is complete by then, each vCPU that was requested and active at
      that first pass has run the function exactly once, and no other vCPU has run it. */
  lemma ExactlyOnce(s: State, t: Thread, after: seq<Event>, v: nat)
    requires Inv(s) && PcOf(s, t).AtLoop? && s.sh.func.Some? && !s.passed
    ensures var r := s.sh.func.value;
            var s' := Run(Step(s, Pass(t)), after);
            r in s.dest && (r in s'.completed ==>
              s'.runs[(r, v)] == if v in s.dest[r] && v in s.sh.active then 1 else 0)
  {
    StepKeepsInv(s, Pass(t));
    TargetsAreStable(Step(s, Pass(t)), after, s.sh.func.value);
  }

  /** No vCPU runs any rendezvous function twice, and only requested vCPUs run it. */
  lemma NeverTwice(es: seq<Event>, q: Rid, v: nat)
    ensures var s := Run(Init, es);
            s.runs[(q, v)] <= 1 && (s.runs[(q, v)] == 1 ==> q in s.dest && v in s.dest[q])
  {
    RunKeepsInv(es);
  }

  /** Only a pass in which done equals req clears the function, and a rendezvous starts only
      when none is in progress. */
  lemma ClearedOnlyWhenDone(s: State, e: Event)
    requires Inv(s) && s.sh.func.Some? && Step(s, e).sh.func != s.sh.func
    ensures var s' := Step(s, e);
            e.Pass? && s'.sh.func == None && s'.sh.done == s'.sh.req && s.sh.func.value in s'.completed
  {
  }

  /** The barrier: vm_smp_rendezvous returns to its caller only after its own rendezvous is
      complete, that is, after every target has run. */
  lemma ReturnsAfterOwnRendezvous(s: State, e: Event, t: Thread, r: Rid, v: nat)
    requires Inv(s) && (PcOf(s, t).AtLoop? || PcOf(s, t).Asleep?) && PcOf(s, t).k == Finish(r)
    requires PcOf(Step(s, e), t) == Idle
    ensures var s' := Step(s, e);
            r in s'.completed && r in s'.target && (v in s'.target[r] ==> s'.runs[(r, v)] == 1)
  {
    StepKeepsInv(s, e);
    assert ThreadOk(s, t);
  }

  /** No deadlock inside the handler: while a rendezvous is in progress, either its starter
      is still to make the first pass, or some vCPU that has yet to run is not asleep
      unsignalled, and the next pass of that vCPU will run the function. */
  lemma SomeoneCanMove(s: State)
    requires Inv(s) && s.sh.func.Some?
    ensures || (!s.passed && PcOf(s, s.starter).AtLoop?)
            || exists v :: v in s.sh.req - s.sh.done && MustRun(s.sh, OfVcpu(v))
                           && !(PcOf(s, OfVcpu(v)).Asleep? && !PcOf(s, OfVcpu(v)).signalled)
  {
    if s.passed {
      assert s.sh.req != s.sh.done && s.sh.done <= s.sh.req;
      assert exists v :: v in s.sh.req && v !in s.sh.done;
      var v :| v in s.sh.req && v !in s.sh.done;
      assert ThreadOk(s, OfVcpu(v));
      assert v in s.sh.req - s.sh.done && MustRun(s.sh, OfVcpu(v));
    }
  }

  /** Nobody sleeps unsignalled once the rendezvous is over. */
  lemma NoLostWakeup(s: State, t: Thread)
    requires Inv(s) && s.sh.func == None
    ensures PcOf(s, t).Asleep? ==> PcOf(s, t).signalled
  {
    assert ThreadOk(s, t);
  }

  /** A suspended vCPU that checks again serves the rendezvous in progress exactly if not every
      active vCPU is suspended, which is so whenever a vCPU thread started it; otherwise it
      leaves the loop. */
  lemma SuspendServesRendezvous(s: State, v: nat)
    requires Inv(s) && s.sh.func.Some? && PcOf(s, OfVcpu(v)).Suspending?
    ensures PcOf(Step(s, SuspendCheck(OfVcpu(v))), OfVcpu(v)) == if s.sh.suspended != s.sh.active then AtLoop(Resuspend) else Idle
    ensures s.starter.OfVcpu? ==> s.sh.suspended != s.sh.active
  {
    assert ThreadOk(s, s.starter);
    if s.starter.OfVcpu? { assert s.starter.v in s.sh.active && s.starter.v !in s.sh.suspended; }
  }

  /** vCPU v has to run for rendezvous r, but has left the suspend loop. */
  predicate Stranded(s: State, r: Rid, v: nat) {
    && s.sh.func == Some(r) && v in s.sh.req * s.sh.active && v !in s.sh.done && v in s.sh.suspended
    && PcOf(s, OfVcpu(v)) == Idle
  }

  lemma StrandedStep(s: State, e: Event, r: Rid, v: nat)
    requires Stranded(s, r, v)
    ensures Stranded(Step(s, e), r, v)
  {
  }

  /** Such a rendezvous never completes. */
  lemma {:induction false} StrandedForever(s: State, es: seq<Event>, r: Rid, v: nat)
    requires Stranded(s, r, v)
    ensures Stranded(Run(s, es), r, v)
  {
    if es != [] {
      StrandedForever(s, es[..|es| - 1], r, v);
      StrandedStep(Run(s, es[..|es| - 1]), es[|es| - 1], r, v);
    }
  }

  /** An outside thread gets there once every vCPU has suspended: it starts a rendezvous for
      vCPU v, and v's next check leaves the loop. */
  lemma OutsiderStrands(s: State, v: nat, k: nat)
    requires s.sh.func == None && v in s.sh.active && s.sh.suspended == s.sh.active
    requires PcOf(s, OfVcpu(v)) == Suspending && PcOf(s, Other(k)) == Idle
    ensures Stranded(Step(Step(Step(s, CallSmp(Other(k), {v})), TryStart(Other(k))), SuspendCheck(OfVcpu(v))), s.next, v)
  {
    var s1 := Step(s, CallSmp(Other(k), {v}));
    assert PcOf(s1, Other(k)) == Starting({v});
    var s2 := Step(s1, TryStart(Other(k)));
    assert s2.sh == Started(s.sh, {v}, s.next) && PcOf(s2, OfVcpu(v)) == Suspending;
  }

  lemma AllSuspended(v: nat, s: State)
    requires s == Step(Step(Init, Activate(v)), CallSuspend(OfVcpu(v)))
    ensures s.sh == Init.sh.(active := {v}, suspended := {v}) && s.next == 0
    ensures s.pc == map[OfVcpu(v) := Suspending]
  {
    assert MayRun(Step(Init, Activate(v)), OfVcpu(v));
  }

  lemma {:induction false} StrandedReachable(v: nat, k: nat)
    ensures exists es :: Stranded(Run(Init, es), 0, v)
  {
    var s := Step(Step(Init, Activate(v)), CallSuspend(OfVcpu(v)));
    AllSuspended(v, s);
    OutsiderStrands(s, v, k);
    var es := [Activate(v)] + [CallSuspend(OfVcpu(v))];
    RunSnoc(Init, [], Activate(v));
    assert [] + [Activate(v)] == [Activate(v)];
    RunSnoc(Init, [Activate(v)], CallSuspend(OfVcpu(v)));
    RunThree(Init, es, CallSmp(Other(k), {v}), TryStart(Other(k)), SuspendCheck(OfVcpu(v)));
  }

  lemma {:induction false} RunThree(s: State, es: seq<Event>, a: Event, b: Event, c: Event)
    ensures Run(s, es + [a] + [b] + [c]) == Step(Step(Step(Run(s, es), a), b), c)
  {
    RunSnoc(s, es, a);
    RunSnoc(s, es + [a], b);
    RunSnoc(s, es + [a] + [b], c);
  }

  lemma {:induction false} RunSnoc(s: State, es: seq<Event>, e: Event)
    ensures Run(s, es + [e]) == Step(Run(s, es), e)
  {
    assert (es + [e])[..|es|] == es;
  }
}
