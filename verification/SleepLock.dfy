/** kernel/sleeplock.c over sleep, wakeup and kill of kernel/proc.c: any number of processes,
    one step for each acquire, release and critical section. */
module SleepLock {

  /** Where a process stands in acquiresleep, sleep, releasesleep and wakeup. */
  datatype Pc =
    | Idle
    | AcqSpin      // acquire(&lk->lk)
    | AcqTest      // holds lk: while (lk->locked)
    | SleepPt      // holds lk: acquire(&ptable.lock)
    | SleepRel     // holds both: release(lk)
    | SleepSet     // holds ptable.lock: chan, SLEEPING, sched()
    | Asleep       // in the scheduler
    | WakeTidy     // running again with ptable.lock: chan = 0, release it
    | WakeLk       // acquire(lk) again
    | AcqSet       // holds lk, saw it unlocked: locked = 1, release
    | Holding
    | RelSpin      // releasesleep: acquire(&lk->lk)
    | RelClear     // holds lk: locked = 0
    | RelWakePt    // wakeup: acquire(&ptable.lock)
    | RelWake      // holds both: wakeup1
    | RelPtRel     // release(&ptable.lock)
    | RelLkRel     // release(&lk->lk)

  datatype PState = Running | Runnable | Sleeping

  /** `chan` says whether the process's channel is this lock. */
  datatype Proc = Proc(pc: Pc, state: PState, chan: bool)

  /** ptable.lock passes between processes and the scheduler. */
  datatype PtOwner = Free | Scheduler | Held(p: nat)

  datatype LkOwner = Open | Taken(p: nat)

  datatype State = State(procs: seq<Proc>, locked: bool, lk: LkOwner, pt: PtOwner)

  datatype Action =
    | Step(p: nat)                 // the next step of process p
    | SchedAcquire | SchedRelease  // the scheduler takes or drops ptable.lock
    | Dispatch(p: nat)             // the scheduler resumes p, handing it ptable.lock
    | Kill(p: nat)                 // kill: a sleeping process becomes runnable whatever it waits for

  predicate CanStep(s: State, p: nat, pc: Pc)
  {
    match pc
    case AcqSpin | WakeLk | RelSpin => s.lk == Open
    case SleepPt | RelWakePt => s.pt == Free
    case Asleep => false
    case _ => true
  }

  predicate Can(s: State, a: Action)
  {
    match a
    case Step(p) => p < |s.procs| && s.procs[p].state == Running && CanStep(s, p, s.procs[p].pc)
    case SchedAcquire => s.pt == Free
    case SchedRelease => s.pt == Scheduler
    case Dispatch(p) => s.pt == Scheduler && p < |s.procs| && s.procs[p].pc == Asleep && s.procs[p].state == Runnable
    case Kill(p) => s.pt == Free && p < |s.procs|
  }

  function To(s: State, p: nat, pc: Pc): State
    requires p < |s.procs|
  {
    s.(procs := s.procs[p := s.procs[p].(pc := pc)])
  }

  /** wakeup1(lk): every process asleep on the lock becomes runnable. */
  function WakeAll(procs: seq<Proc>): (r: seq<Proc>)
    ensures |r| == |procs|
  {
    seq(|procs|, i requires 0 <= i < |procs| =>
      if procs[i].state == Sleeping && procs[i].chan then procs[i].(state := Runnable) else procs[i])
  }

  function Do(s: State, a: Action): State
    requires Can(s, a)
  {
    match a
    case SchedAcquire => s.(pt := Scheduler)
    case SchedRelease => s.(pt := Free)
    case Dispatch(p) => s.(procs := s.procs[p := s.procs[p].(pc := WakeTidy, state := Running)], pt := Held(p))
    case Kill(p) =>
      if s.procs[p].state == Sleeping then s.(procs := s.procs[p := s.procs[p].(state := Runnable)]) else s
    case Step(p) =>
      match s.procs[p].pc
      case Idle => To(s, p, AcqSpin)
      case AcqSpin => To(s, p, AcqTest).(lk := Taken(p))
      case AcqTest => To(s, p, if s.locked then SleepPt else AcqSet)
      case SleepPt => To(s, p, SleepRel).(pt := Held(p))
      case SleepRel => To(s, p, SleepSet).(lk := Open)
      case SleepSet => s.(procs := s.procs[p := Proc(Asleep, Sleeping, true)], pt := Scheduler)
      case WakeTidy => s.(procs := s.procs[p := Proc(WakeLk, Running, false)], pt := Free)
      case WakeLk => To(s, p, AcqTest).(lk := Taken(p))
      case AcqSet => To(s, p, Holding).(locked := true, lk := Open)
      case Holding => To(s, p, RelSpin)
      case RelSpin => To(s, p, RelClear).(lk := Taken(p))
      case RelClear => To(s, p, RelWakePt).(locked := false)
      case RelWakePt => To(s, p, RelWake).(pt := Held(p))
      case RelWake => To(s.(procs := WakeAll(s.procs)), p, RelPtRel)
      case RelPtRel => To(s, p, RelLkRel).(pt := Free)
      case RelLkRel => To(s, p, Idle).(lk := Open)
      case Asleep => s
  }

  // ------------------------------------------------------------------ invariant

  predicate HasLk(pc: Pc)
  {
    pc.AcqTest? || pc.SleepPt? || pc.SleepRel? || pc.AcqSet? || pc.RelClear? || pc.RelWakePt? || pc.RelWake?
    || pc.RelPtRel? || pc.RelLkRel?
  }

  predicate HasPt(pc: Pc) { pc.SleepRel? || pc.SleepSet? || pc.WakeTidy? || pc.RelWake? || pc.RelPtRel? }

  predicate Owner(pc: Pc) { pc.Holding? || pc.RelSpin? || pc.RelClear? }

  /** Between clearing `locked` and finishing the wakeup. */
  predicate Waking(pc: Pc) { pc.RelWakePt? || pc.RelWake? }

  ghost predicate SomeoneWaking(s: State)
  {
    exists q | 0 <= q < |s.procs| :: Waking(s.procs[q].pc)
  }

  ghost predicate ProcInv(s: State, p: nat)
    requires p < |s.procs|
  {
    var x := s.procs[p];
    && (HasLk(x.pc) <==> s.lk == Taken(p))
    && (HasPt(x.pc) <==> s.pt == Held(p))
    && (x.pc == Asleep <==> x.state != Running)
    && (x.chan ==> x.pc.Asleep? || x.pc.WakeTidy?)
    && (x.state == Sleeping ==> x.chan)
    && (Owner(x.pc) ==> s.locked)
    && (x.pc.SleepPt? || x.pc.SleepRel? ==> s.locked)
    && (x.pc == AcqSet ==> !s.locked)
    && (Waking(x.pc) ==> !s.locked)
  }

  /** Nobody is asleep on the lock, or past the point of no return, without a wakeup to come. */
  ghost predicate WaitInv(s: State, p: nat)
    requires p < |s.procs|
  {
    s.procs[p].state == Sleeping || s.procs[p].pc == SleepSet ==> s.locked || SomeoneWaking(s)
  }

  ghost predicate OneOwner(s: State)
  {
    && (forall p, q | 0 <= p < q < |s.procs| :: !(Owner(s.procs[p].pc) && Owner(s.procs[q].pc)))
    && (s.locked ==> exists p | 0 <= p < |s.procs| :: Owner(s.procs[p].pc))
    && (s.lk.Taken? ==> s.lk.p < |s.procs|) && (s.pt.Held? ==> s.pt.p < |s.procs|)
  }

  ghost predicate Inv(s: State)
  {
    (forall p | 0 <= p < |s.procs| :: ProcInv(s, p) && WaitInv(s, p)) && OneOwner(s)
  }

  ghost predicate Init(s: State)
  {
    && !s.locked && s.lk == Open && s.pt == Free
    && forall p | 0 <= p < |s.procs| :: s.procs[p] == Proc(Idle, Running, false)
  }

  lemma InitInv(s: State)
    requires Init(s)
    ensures Inv(s)
  {
  }

  /** A process on its way to clearing or waking keeps doing so unless it is the one that moves. */
  lemma WakingStays(s: State, a: Action)
    requires Inv(s) && Can(s, a) && SomeoneWaking(s)
    requires a.Step? ==> s.procs[a.p].pc != RelWake
    ensures SomeoneWaking(Do(s, a))
  {
    var q :| 0 <= q < |s.procs| && Waking(s.procs[q].pc);
    assert ProcInv(s, q);
    assert Waking(Do(s, a).procs[q].pc);
  }

  /** What two processes must know of each other for one of them to move. */
  ghost predicate Pair(s: State, p: nat, q: nat)
  {
    && p < |s.procs| && q < |s.procs| && ProcInv(s, p) && ProcInv(s, q)
    && (p != q ==> !(Owner(s.procs[p].pc) && Owner(s.procs[q].pc)))
  }

  lemma WakeFact(procs: seq<Proc>, i: nat)
    requires i < |procs|
    ensures WakeAll(procs)[i] ==
      if procs[i].state == Sleeping && procs[i].chan then procs[i].(state := Runnable) else procs[i]
  {
  }

  lemma MoveSelf(s: State, p: nat)
    requires Can(s, Step(p)) && p < |s.procs| && ProcInv(s, p)
    ensures ProcInv(Do(s, Step(p)), p)
  {
    hide WakeAll;
    WakeFact(s.procs, p);
    var x, t := s.procs[p], Do(s, Step(p));
    var y := t.procs[p];
    if HasLk(x.pc) == HasLk(y.pc) && HasPt(x.pc) == HasPt(y.pc) {
      assert t.lk == s.lk && t.pt == s.pt;
    }
  }

  lemma MoveOther(s: State, p: nat, q: nat)
    requires Can(s, Step(p)) && Pair(s, p, q) && p != q
    ensures ProcInv(Do(s, Step(p)), q)
  {
    hide WakeAll;
    WakeFact(s.procs, q);
  }

  lemma MoveInv(s: State, p: nat, q: nat)
    requires Can(s, Step(p)) && Pair(s, p, q)
    ensures ProcInv(Do(s, Step(p)), q)
  {
    if p == q { MoveSelf(s, p); } else { MoveOther(s, p, q); }
  }

  lemma SchedulerInv(s: State, a: Action, q: nat)
    requires Can(s, a) && !a.Step? && q < |s.procs| && ProcInv(s, q)
    requires a.Dispatch? || a.Kill? ==> ProcInv(s, a.p)
    ensures ProcInv(Do(s, a), q)
  {
  }

  lemma StepInv(s: State, a: Action, q: nat)
    requires Inv(s) && Can(s, a) && q < |s.procs|
    ensures ProcInv(Do(s, a), q)
  {
    hide Do, ProcInv, WaitInv;
    if a.Step? {
      MoveInv(s, a.p, q);
    } else {
      SchedulerInv(s, a, q);
    }
  }

  lemma StepWait(s: State, a: Action, q: nat)
    requires Inv(s) && Can(s, a) && q < |s.procs|
    ensures WaitInv(Do(s, a), q)
  {
    assert ProcInv(s, q) && WaitInv(s, q);
    if a.Step? {
      assert ProcInv(s, a.p);
      if s.procs[a.p].pc == RelClear {
        assert Waking(Do(s, a).procs[a.p].pc);
      }
    }
    if SomeoneWaking(s) && (a.Step? ==> s.procs[a.p].pc != RelWake) {
      WakingStays(s, a);
    }
  }

  lemma MoveOwners(s: State, p: nat, q: nat)
    requires Can(s, Step(p)) && Pair(s, p, q) && p != q && (s.locked || !Owner(s.procs[q].pc))
    ensures !(Owner(Do(s, Step(p)).procs[p].pc) && Owner(Do(s, Step(p)).procs[q].pc))
  {
  }

  lemma OthersOwn(s: State, a: Action, q: nat)
    requires Can(s, a) && q < |s.procs| && (a.Step? ==> a.p != q)
    ensures Owner(Do(s, a).procs[q].pc) ==> Owner(s.procs[q].pc)
  {
    hide WakeAll;
    WakeFact(s.procs, q);
  }

  lemma SameCount(s: State, a: Action)
    requires Can(s, a)
    ensures |Do(s, a).procs| == |s.procs|
  {
  }

  lemma TwoOwners(s: State, a: Action, p: nat, q: nat)
    requires Inv(s) && Can(s, a) && p < q < |s.procs|
    ensures !(Owner(Do(s, a).procs[p].pc) && Owner(Do(s, a).procs[q].pc))
  {
    SameCount(s, a);
    hide Do, WaitInv, Can;
    assert ProcInv(s, p) && ProcInv(s, q);
    if a == Step(p) {
      MoveOwners(s, p, q);
    } else if a == Step(q) {
      MoveOwners(s, q, p);
    } else {
      OthersOwn(s, a, p);
      OthersOwn(s, a, q);
    }
  }

  lemma OwnerInv(s: State, a: Action)
    requires Inv(s) && Can(s, a)
    ensures OneOwner(Do(s, a))
  {
    var s' := Do(s, a);
    forall p, q | 0 <= p < q < |s.procs| ensures !(Owner(s'.procs[p].pc) && Owner(s'.procs[q].pc)) {
      TwoOwners(s, a, p, q);
    }
    if s'.locked {
      if s.locked {
        var o :| 0 <= o < |s.procs| && Owner(s.procs[o].pc);
        assert ProcInv(s, o);
        assert Owner(s'.procs[o].pc);
      } else {
        assert Owner(s'.procs[a.p].pc);
      }
    }
  }

  lemma DoInv(s: State, a: Action)
    requires Inv(s) && Can(s, a)
    ensures Inv(Do(s, a))
  {
    OwnerInv(s, a);
    hide Do, ProcInv, WaitInv, OneOwner;
    assert |Do(s, a).procs| == |s.procs| by { SameCount(s, a); }
    forall q | 0 <= q < |Do(s, a).procs| ensures ProcInv(Do(s, a), q) && WaitInv(Do(s, a), q) {
      StepInv(s, a, q);
      StepWait(s, a, q);
    }
  }

  // ------------------------------------------------------------------ whole runs

  ghost predicate Run(states: seq<State>, actions: seq<Action>)
  {
    && |states| == |actions| + 1 && Init(states[0])
    && forall i | 0 <= i < |actions| :: Can(states[i], actions[i]) && states[i + 1] == Do(states[i], actions[i])
  }

  lemma {:induction false} RunInv(states: seq<State>, actions: seq<Action>)
    requires Run(states, actions)
    ensures Inv(states[|actions|])
    decreases |actions|
  {
    if actions == [] {
      InitInv(states[0]);
    } else {
      var n := |actions| - 1;
      assert Run(states[..n + 1], actions[..n]);
      RunInv(states[..n + 1], actions[..n]);
      DoInv(states[n], actions[n]);
    }
  }

  /** In every interleaving at most one process is between acquiresleep and the clearing of
      `locked` in releasesleep, and `locked` says whether there is one. */
  lemma MutualExclusion(states: seq<State>, actions: seq<Action>, p: nat, q: nat)
    requires Run(states, actions)
    requires var s := states[|actions|]; p < |s.procs| && q < |s.procs| && Owner(s.procs[p].pc) && Owner(s.procs[q].pc)
    ensures p == q && states[|actions|].locked
  {
    RunInv(states, actions);
    var s := states[|actions|];
    assert ProcInv(s, p);
  }

  /** No lost wakeup: once `locked` is clear and the releaser has done its wakeup, no process is
      asleep on the lock, whatever spurious wakeups came before. */
  lemma NoLostWakeup(states: seq<State>, actions: seq<Action>, p: nat)
    requires Run(states, actions) && p < |states[|actions|].procs|
    requires !states[|actions|].locked && !SomeoneWaking(states[|actions|])
    ensures states[|actions|].procs[p].state != Sleeping && states[|actions|].procs[p].pc != SleepSet
  {
    RunInv(states, actions);
    assert WaitInv(states[|actions|], p);
  }

  // ------------------------------------------------------------------- no deadlock

  /** Steps that carry a process on: not kills, not new arrivals, not idle turns of the scheduler. */
  predicate Useful(s: State, a: Action)
  {
    Can(s, a) && (a.Dispatch? || (a.Step? && s.procs[a.p].pc != Idle))
  }

  /** A useful step is possible now, or once the scheduler has taken or dropped its own lock. */
  ghost predicate Progress(s: State)
  {
    exists a, pt :: Useful(s.(pt := pt), a) && (pt == s.pt || (!s.pt.Held? && !pt.Held?))
  }

  lemma NoDeadlock(states: seq<State>, actions: seq<Action>, p: nat)
    requires Run(states, actions) && p < |states[|actions|].procs| && states[|actions|].procs[p].pc != Idle
    ensures Progress(states[|actions|])
  {
    RunInv(states, actions);
    var s := states[|actions|];
    assert ProcInv(s, p) && WaitInv(s, p);
    if s.pt.Held? {
      assert ProcInv(s, s.pt.p);
      assert Useful(s.(pt := s.pt), Step(s.pt.p));
    } else if s.lk.Taken? {
      assert ProcInv(s, s.lk.p);
      assert Useful(s.(pt := Free), Step(s.lk.p));
    } else if s.procs[p].pc != Asleep {
      assert Useful(s.(pt := Free), Step(p));
    } else if s.procs[p].state == Runnable {
      assert Useful(s.(pt := Scheduler), Dispatch(p));
    } else {
      forall q | 0 <= q < |s.procs| ensures !Waking(s.procs[q].pc) { assert ProcInv(s, q); }
      var o :| 0 <= o < |s.procs| && Owner(s.procs[o].pc);
      assert ProcInv(s, o);
      assert Useful(s.(pt := Free), Step(o));
    }
  }
}
