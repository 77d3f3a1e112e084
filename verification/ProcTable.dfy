/** kernel/proc.c: the process table.  fork, exit, wait, kill and the scheduler as steps, one for
    each stretch of code under ptable.lock, by any number of processes. */
module ProcTable {
  import opened Types

  datatype PState = Unused | Embryo | Sleeping | Runnable | Running | Zombie

  datatype Chan = NoChan | WaitOn(slot: nat) | OtherChan

  /** Where the process stands between critical sections. */
  datatype Pc =
    | User
    | Forking(child: nat)            // allocproc done, RUNNABLE not yet set
    | Scanning(i: nat, found: bool)  // first loop of wait, one slot a critical section
    | Reaping                        // second loop of wait
    | Gone

  datatype Slot = Slot(state: PState, pid: nat, parent: Option<nat>, chan: Chan, pc: Pc)

  /** `returned` records (pid, slot of the caller) for every wait that returned a child. */
  datatype State = State(slots: seq<Slot>, nextpid: nat, returned: seq<(nat, nat)>)

  const INIT := 0

  // ---------------------------------------------------------- the critical sections

  predicate ChildOf(slots: seq<Slot>, i: nat, p: nat)
    requires i < |slots|
  {
    slots[i].parent == Some(p) && slots[i].state != Unused
  }

  function FirstUnused(slots: seq<Slot>, i: nat): (r: nat)
    requires i <= |slots|
    ensures i <= r <= |slots| && (r < |slots| ==> slots[r].state == Unused)
    decreases |slots| - i
  {
    if i == |slots| || slots[i].state == Unused then i else FirstUnused(slots, i + 1)
  }

  /** wakeup1. */
  function Wake(slots: seq<Slot>, c: Chan): (r: seq<Slot>)
    ensures |r| == |slots|
  {
    seq(|slots|, i requires 0 <= i < |slots| =>
      if slots[i].state == Sleeping && slots[i].chan == c then slots[i].(state := Runnable) else slots[i])
  }

  /** The test of exit: does the parent of slot i have the pid of slot p?  A missing parent does not. */
  predicate SamePidParent(slots: seq<Slot>, i: nat, p: nat)
    requires i < |slots| && p < |slots|
  {
    slots[i].parent.Some? && slots[i].parent.value < |slots| && slots[slots[i].parent.value].pid == slots[p].pid
  }

  function Reparent(slots: seq<Slot>, p: nat): (r: seq<Slot>)
    requires p < |slots|
    ensures |r| == |slots|
  {
    seq(|slots|, i requires 0 <= i < |slots| =>
      if SamePidParent(slots, i, p) then slots[i].(parent := Some(INIT)) else slots[i])
  }

  /** exit: children to init (waking it), parent woken, ZOMBIE. */
  function ExitSlots(slots: seq<Slot>, p: nat): (r: seq<Slot>)
    requires p < |slots|
    ensures |r| == |slots|
  {
    var a := Reparent(slots, p);
    var b := if slots[INIT].state == Sleeping && (exists i | 0 <= i < |slots| :: SamePidParent(slots, i, p))
             then Wake(a, WaitOn(INIT)) else a;
    var c := if a[p].parent.Some? then Wake(b, WaitOn(a[p].parent.value)) else b;
    c[p := c[p].(state := Zombie, pc := Gone)]
  }

  function FirstZombieChild(slots: seq<Slot>, p: nat, i: nat): (r: nat)
    requires i <= |slots|
    ensures i <= r <= |slots|
    ensures r < |slots| ==> slots[r].parent == Some(p) && slots[r].state == Zombie
    ensures forall j | i <= j < r :: !(slots[j].parent == Some(p) && slots[j].state == Zombie)
    decreases |slots| - i
  {
    if i == |slots| || (slots[i].parent == Some(p) && slots[i].state == Zombie) then i
    else FirstZombieChild(slots, p, i + 1)
  }

  function FirstPid(slots: seq<Slot>, pid: nat, i: nat): (r: nat)
    requires i <= |slots|
    ensures i <= r <= |slots| && (r < |slots| ==> slots[r].pid == pid)
    decreases |slots| - i
  {
    if i == |slots| || slots[i].pid == pid then i else FirstPid(slots, pid, i + 1)
  }

  // -------------------------------------------------------------------------- steps

  datatype Action =
    | AllocProc(p: nat) | AllocFail(p: nat) | ForkDone(p: nat)
    | Exit(p: nat)
    | WaitStart(p: nat) | WaitScan(p: nat) | WaitReap(p: nat)
    | SleepOther(p: nat) | WakeOther | Yield(p: nat) | Dispatch(p: nat) | Kill(pid: nat)

  predicate Runs(s: State, p: nat)
  {
    p < |s.slots| && s.slots[p].state == Running
  }

  predicate Can(s: State, a: Action)
  {
    match a
    case AllocProc(p) => Runs(s, p) && s.slots[p].pc == User
    case AllocFail(p) => Runs(s, p) && s.slots[p].pc.Forking? && s.slots[p].pc.child < |s.slots|
    case ForkDone(p) => Runs(s, p) && s.slots[p].pc.Forking? && s.slots[p].pc.child < |s.slots|
    case Exit(p) => Runs(s, p) && s.slots[p].pc == User && p != INIT
    case WaitStart(p) => Runs(s, p) && s.slots[p].pc == User
    case WaitScan(p) => Runs(s, p) && s.slots[p].pc.Scanning?
    case WaitReap(p) => Runs(s, p) && s.slots[p].pc == Reaping
    case SleepOther(p) => Runs(s, p) && s.slots[p].pc == User
    case WakeOther => true
    case Yield(p) => Runs(s, p)
    case Dispatch(p) => p < |s.slots| && s.slots[p].state == Runnable
    case Kill(_) => true
  }

  function SetPc(s: State, p: nat, pc: Pc): State
    requires p < |s.slots|
  {
    s.(slots := s.slots[p := s.slots[p].(pc := pc)])
  }

  function Do(s: State, a: Action): State
    requires Can(s, a)
  {
    match a
    case AllocProc(p) =>
      var c := FirstUnused(s.slots, 0);
      if c == |s.slots| then s
      else SetPc(s, p, Forking(c)).(
             slots := SetPc(s, p, Forking(c)).slots[c := s.slots[c].(state := Embryo, pid := s.nextpid)],
             nextpid := s.nextpid + 1)
    case AllocFail(p) =>
      var c := s.slots[p].pc.child;
      s.(slots := s.slots[c := s.slots[c].(state := Unused)][p := s.slots[p].(pc := User)])
    case ForkDone(p) =>
      var c := s.slots[p].pc.child;
      var child := s.slots[c].(state := Runnable, parent := Some(p), pc := User);
      s.(slots := s.slots[c := child][p := s.slots[p].(pc := User)])
    case Exit(p) => s.(slots := ExitSlots(s.slots, p))
    case WaitStart(p) => SetPc(s, p, Scanning(0, false))
    case WaitScan(p) =>
      var pc := s.slots[p].pc;
      if pc.i < |s.slots| then SetPc(s, p, Scanning(pc.i + 1, pc.found || ChildOf(s.slots, pc.i, p)))
      else SetPc(s, p, if pc.found then Reaping else User)
    case WaitReap(p) =>
      var i := FirstZombieChild(s.slots, p, 0);
      if i < |s.slots| then
        State(s.slots[i := s.slots[i].(state := Unused, parent := None, pid := 0)][p := s.slots[p].(pc := User)],
              s.nextpid, s.returned + [(s.slots[i].pid, p)])
      else s.(slots := s.slots[p := s.slots[p].(state := Sleeping, chan := WaitOn(p))])
    case SleepOther(p) => s.(slots := s.slots[p := s.slots[p].(state := Sleeping, chan := OtherChan)])
    case WakeOther => s.(slots := Wake(s.slots, OtherChan))
    case Yield(p) => s.(slots := s.slots[p := s.slots[p].(state := Runnable)])
    case Dispatch(p) => s.(slots := s.slots[p := s.slots[p].(state := Running, chan := NoChan)])
    case Kill(pid) =>
      var p := FirstPid(s.slots, pid, 0);
      if p < |s.slots| && s.slots[p].state == Sleeping then s.(slots := s.slots[p := s.slots[p].(state := Runnable)])
      else s
  }

  // ------------------------------------------------------------------ invariant

  predicate Alive(x: Slot) { x.state.Sleeping? || x.state.Runnable? || x.state.Running? }

  predicate AsleepInWait(s: State, i: nat)
    requires i < |s.slots|
  {
    s.slots[i].state == Sleeping && s.slots[i].chan == WaitOn(i)
  }

  ghost predicate HasChild(slots: seq<Slot>, i: nat)
  {
    exists j | 0 <= j < |slots| :: ChildOf(slots, j, i)
  }

  ghost predicate Shape(s: State, i: nat)
    requires i < |s.slots|
  {
    var x := s.slots[i];
    && (x.state.Unused? || x.state.Embryo? ==> x.parent.None?)
    && (x.parent.Some? ==> x.parent.value < |s.slots| && Alive(s.slots[x.parent.value]))
    && (!x.state.Unused? ==> 0 < x.pid < s.nextpid)
    && (i != INIT && (Alive(x) || x.state.Zombie?) ==> x.parent.Some?)
    && (Alive(x) ==> x.pc != Gone)
    && (Alive(x) && x.pc.Forking? ==> x.pc.child < |s.slots| && s.slots[x.pc.child].state == Embryo)
    && (x.state.Sleeping? ==> (x.chan == WaitOn(i) && x.pc == Reaping) || (x.chan == OtherChan && x.pc == User))
  }

  /** A process past the first loop of wait has a child; one asleep in wait has no zombie child. */
  ghost predicate WaitOk(s: State, i: nat)
    requires i < |s.slots|
  {
    var x := s.slots[i];
    && (Alive(x) && (x.pc == Reaping || (x.pc.Scanning? && x.pc.found)) ==> HasChild(s.slots, i))
    && (AsleepInWait(s, i) ==>
          forall j | 0 <= j < |s.slots| :: !(s.slots[j].parent == Some(i) && s.slots[j].state == Zombie))
  }

  /** Two processes in use never share a pid; two forks in progress never share a child. */
  ghost predicate Apart(s: State, i: nat, j: nat)
    requires i < |s.slots| && j < |s.slots|
  {
    && (s.slots[i].state != Unused && s.slots[j].state != Unused ==> s.slots[i].pid != s.slots[j].pid)
    && (Alive(s.slots[i]) && Alive(s.slots[j]) && s.slots[i].pc.Forking? && s.slots[j].pc.Forking?
        ==> s.slots[i].pc.child != s.slots[j].pc.child)
  }

  ghost predicate Distinct(s: State)
  {
    forall i, j | 0 <= i < |s.slots| && 0 <= j < |s.slots| && i != j :: Apart(s, i, j)
  }

  /** No pid was returned twice, and none that was returned is in use. */
  ghost predicate ReturnedOk(s: State)
  {
    && (forall a, b | 0 <= a < b < |s.returned| :: s.returned[a].0 != s.returned[b].0)
    && (forall a | 0 <= a < |s.returned| :: 0 < s.returned[a].0 < s.nextpid)
    && (forall a, i | 0 <= a < |s.returned| && 0 <= i < |s.slots| && s.slots[i].state != Unused ::
          s.slots[i].pid != s.returned[a].0)
  }

  ghost predicate Inv(s: State)
  {
    && INIT < |s.slots| && Alive(s.slots[INIT]) && s.nextpid > 0
    && (forall i | 0 <= i < |s.slots| :: Shape(s, i) && WaitOk(s, i))
    && Distinct(s) && ReturnedOk(s)
  }

  ghost predicate Init(s: State)
  {
    && |s.slots| > 0 && s.slots[INIT] == Slot(Runnable, 1, None, NoChan, User) && s.nextpid == 2 && s.returned == []
    && forall i | 1 <= i < |s.slots| :: s.slots[i] == Slot(Unused, 0, None, NoChan, User)
  }

  lemma InitInv(s: State)
    requires Init(s)
    ensures Inv(s)
  {
  }

  // ------------------------------------------------------- every step keeps it

  /** The children of a process are unaffected by what others do to their own slots. */
  lemma KeepChild(s: State, slots': seq<Slot>, i: nat)
    requires |slots'| == |s.slots| && HasChild(s.slots, i)
    requires forall j | 0 <= j < |s.slots| && ChildOf(s.slots, j, i) :: ChildOf(slots', j, i)
    ensures HasChild(slots', i)
  {
  }

  /** In exit the pid test finds exactly the children. */
  lemma PidTest(s: State, i: nat, p: nat)
    requires Inv(s) && i < |s.slots| && p < |s.slots| && Alive(s.slots[p])
    ensures SamePidParent(s.slots, i, p) <==> s.slots[i].parent == Some(p)
  {
    assert Shape(s, i) && Shape(s, p);
    if s.slots[i].parent.Some? && s.slots[i].parent.value != p {
      assert Apart(s, s.slots[i].parent.value, p);
    }
  }

  /** What exit does to slot i. */
  ghost predicate ExitEffect(s: State, p: nat, i: nat)
    requires p < |s.slots| && i < |s.slots|
  {
    var x, y := s.slots[i], ExitSlots(s.slots, p)[i];
    && y.pid == x.pid && y.chan == x.chan
    && y.parent == (if x.parent == Some(p) then Some(INIT) else x.parent)
    && y.pc == (if i == p then Gone else x.pc)
    && (i == p ==> y.state == Zombie)
    && (i != p ==> y.state == x.state || (x.state == Sleeping && y.state == Runnable))
    && (i != p && s.slots[p].parent == Some(i) && AsleepInWait(s, i) ==> y.state == Runnable)
    && (i == INIT && AsleepInWait(s, i) && (exists j | 0 <= j < |s.slots| :: s.slots[j].parent == Some(p)) ==>
          y.state == Runnable)
  }

  lemma ExitFact(s: State, p: nat, i: nat)
    requires Inv(s) && Can(s, Exit(p)) && i < |s.slots|
    ensures ExitEffect(s, p, i)
  {
    hide Inv, SamePidParent;
    forall j | 0 <= j < |s.slots| ensures SamePidParent(s.slots, j, p) <==> s.slots[j].parent == Some(p) {
      PidTest(s, j, p);
    }
  }

  lemma ExitFacts(s: State, p: nat)
    requires Inv(s) && Can(s, Exit(p))
    ensures var t := ExitSlots(s.slots, p);
      forall i | 0 <= i < |s.slots| ::
        && t[i].pid == s.slots[i].pid && t[i].chan == s.slots[i].chan
        && t[i].parent == (if s.slots[i].parent == Some(p) then Some(INIT) else s.slots[i].parent)
        && t[i].pc == (if i == p then Gone else s.slots[i].pc)
        && (i == p ==> t[i].state == Zombie)
        && (i != p ==> t[i].state == s.slots[i].state || (s.slots[i].state == Sleeping && t[i].state == Runnable))
        && ExitEffect(s, p, i)
  {
    hide Inv, ExitSlots;
    var t := ExitSlots(s.slots, p);
    forall i | 0 <= i < |s.slots|
      ensures
        && t[i].pid == s.slots[i].pid && t[i].chan == s.slots[i].chan
        && t[i].parent == (if s.slots[i].parent == Some(p) then Some(INIT) else s.slots[i].parent)
        && t[i].pc == (if i == p then Gone else s.slots[i].pc)
        && (i == p ==> t[i].state == Zombie)
        && (i != p ==> t[i].state == s.slots[i].state || (s.slots[i].state == Sleeping && t[i].state == Runnable))
        && ExitEffect(s, p, i)
    {
      ExitFact(s, p, i);
    }
  }

  /** Steps that change no parent, no pid, no Forking mark and no slot to or from Unused. */
  predicate Quiet(a: Action)
  {
    a.WaitStart? || a.WaitScan? || a.SleepOther? || a.WakeOther? || a.Yield? || a.Dispatch? || a.Kill?
  }

  lemma WakeFacts(slots: seq<Slot>, c: Chan)
    ensures forall i | 0 <= i < |slots| ::
      Wake(slots, c)[i] ==
        if slots[i].state == Sleeping && slots[i].chan == c then slots[i].(state := Runnable) else slots[i]
  {
  }

  lemma QuietFacts(s: State, a: Action, i: nat)
    requires Inv(s) && Can(s, a) && Quiet(a) && i < |s.slots|
    ensures |Do(s, a).slots| == |s.slots| && Do(s, a).nextpid == s.nextpid && Do(s, a).returned == s.returned
    ensures var x, y := s.slots[i], Do(s, a).slots[i];
      && y.parent == x.parent && y.pid == x.pid && (y.pc.Forking? || x.pc.Forking? ==> y.pc == x.pc)
      && (Alive(y) <==> Alive(x)) && (!Alive(x) ==> y.state == x.state) && (y.pc == Gone <==> x.pc == Gone)
      && (y.state == Sleeping ==> y.pc == x.pc)
      && (y.state == Sleeping ==> (y.state == x.state && y.chan == x.chan) || (y.pc == User && y.chan == OtherChan))
  {
    hide WaitOk, HasChild, ReturnedOk, Distinct, Wake;
    assert Shape(s, i);
    if a.WakeOther? { WakeFacts(s.slots, OtherChan); }
  }

  lemma QuietShape(s: State, a: Action, i: nat)
    requires Inv(s) && Can(s, a) && Quiet(a) && i < |s.slots|
    ensures |Do(s, a).slots| == |s.slots| && Shape(Do(s, a), i)
  {
    hide WaitOk, ReturnedOk, Distinct, Do, Can;
    QuietFacts(s, a, i);
    assert Shape(s, i);
    if s.slots[i].parent.Some? { QuietFacts(s, a, s.slots[i].parent.value); }
    if Alive(s.slots[i]) && s.slots[i].pc.Forking? { QuietFacts(s, a, s.slots[i].pc.child); }
  }

  lemma AllocShape(s: State, p: nat, i: nat)
    requires Inv(s) && Can(s, AllocProc(p)) && i < |s.slots|
    ensures |Do(s, AllocProc(p)).slots| == |s.slots| && Shape(Do(s, AllocProc(p)), i)
  {
    hide WaitOk, ReturnedOk, Distinct;
    assert Shape(s, i) && Shape(s, p);
  }

  lemma ForkEndShape(s: State, a: Action, i: nat)
    requires Inv(s) && Can(s, a) && (a.AllocFail? || a.ForkDone?) && i < |s.slots|
    ensures |Do(s, a).slots| == |s.slots| && Shape(Do(s, a), i)
  {
    hide WaitOk, ReturnedOk;
    assert Shape(s, i) && Shape(s, a.p) && Shape(s, s.slots[a.p].pc.child);
    if i != a.p { assert Apart(s, i, a.p); }
    hide Distinct;
  }

  lemma ReapShape(s: State, p: nat, i: nat)
    requires Inv(s) && Can(s, WaitReap(p)) && i < |s.slots|
    ensures |Do(s, WaitReap(p)).slots| == |s.slots| && Shape(Do(s, WaitReap(p)), i)
  {
    hide WaitOk, ReturnedOk, Distinct;
    assert Shape(s, i) && Shape(s, p);
    var z := FirstZombieChild(s.slots, p, 0);
    if z < |s.slots| { assert Shape(s, z); }
  }

  lemma ShapeStep(s: State, a: Action, i: nat)
    requires Inv(s) && Can(s, a) && !a.Exit? && i < |s.slots|
    ensures |Do(s, a).slots| == |s.slots| && Shape(Do(s, a), i)
  {
    hide Inv, Do, Can;
    match a
    case AllocProc(p) => AllocShape(s, p, i);
    case AllocFail(p) => ForkEndShape(s, a, i);
    case ForkDone(p) => ForkEndShape(s, a, i);
    case WaitReap(p) => ReapShape(s, p, i);
    case _ => QuietShape(s, a, i);
  }

  /** A child stays a child, except the one a wait returns. */
  lemma KidStays(s: State, a: Action, j: nat, q: nat)
    requires Inv(s) && Can(s, a) && !a.Exit? && j < |s.slots| && ChildOf(s.slots, j, q)
    requires a.WaitReap? ==> a.p != q || FirstZombieChild(s.slots, a.p, 0) == |s.slots|
    ensures |Do(s, a).slots| == |s.slots| && ChildOf(Do(s, a).slots, j, q)
  {
    hide WaitOk, ReturnedOk, Distinct, Wake;
    assert Shape(s, j);
    if a.AllocFail? || a.ForkDone? { assert Shape(s, a.p) && Shape(s, s.slots[a.p].pc.child); }
    if a.WakeOther? { WakeFacts(s.slots, OtherChan); }
  }

  /** A new zombie comes from exit alone, and only wait puts a process to sleep in wait. */
  lemma NoNewZombie(s: State, a: Action, j: nat)
    requires Inv(s) && Can(s, a) && !a.Exit? && j < |s.slots|
    ensures |Do(s, a).slots| == |s.slots|
    ensures Do(s, a).slots[j].state == Zombie ==>
      s.slots[j].state == Zombie && Do(s, a).slots[j].parent == s.slots[j].parent
    ensures AsleepInWait(Do(s, a), j) && !AsleepInWait(s, j) ==>
      a == WaitReap(j) && FirstZombieChild(s.slots, j, 0) == |s.slots|
  {
    hide WaitOk, ReturnedOk, Distinct, Wake;
    assert Shape(s, j);
    if a.AllocFail? || a.ForkDone? { assert Shape(s, a.p) && Shape(s, s.slots[a.p].pc.child); }
    if a.WakeOther? { WakeFacts(s.slots, OtherChan); }
  }

  /** Who is past the first loop of wait afterwards was so before, or has just found a child. */
  lemma ReapersOnly(s: State, a: Action, i: nat)
    requires Inv(s) && Can(s, a) && !a.Exit? && i < |s.slots|
    requires var x := Do(s, a).slots[i]; Alive(x) && (x.pc == Reaping || (x.pc.Scanning? && x.pc.found))
    ensures HasChild(s.slots, i) && (a.WaitReap? ==> a.p != i || FirstZombieChild(s.slots, i, 0) == |s.slots|)
  {
    hide ReturnedOk, Distinct, Wake;
    assert Shape(s, i) && WaitOk(s, i);
    if a.AllocFail? || a.ForkDone? { assert Shape(s, a.p) && Shape(s, s.slots[a.p].pc.child); }
    if a.WakeOther? { WakeFacts(s.slots, OtherChan); }
    if a.WaitScan? && a.p == i && s.slots[i].pc.i < |s.slots| && ChildOf(s.slots, s.slots[i].pc.i, i) {
      assert HasChild(s.slots, i);
    }
  }

  lemma WaitStep(s: State, a: Action, i: nat)
    requires Inv(s) && Can(s, a) && !a.Exit? && i < |s.slots|
    ensures |Do(s, a).slots| == |s.slots| && WaitOk(Do(s, a), i)
  {
    NoNewZombie(s, a, i);
    assert WaitOk(s, i);
    hide Inv, Do, Can;
    var s' := Do(s, a);
    var x := s'.slots[i];
    if Alive(x) && (x.pc == Reaping || (x.pc.Scanning? && x.pc.found)) {
      ReapersOnly(s, a, i);
      forall j | 0 <= j < |s.slots| && ChildOf(s.slots, j, i) ensures ChildOf(s'.slots, j, i) {
        KidStays(s, a, j, i);
      }
      KeepChild(s, s'.slots, i);
    }
    if AsleepInWait(s', i) {
      forall j | 0 <= j < |s'.slots| ensures !(s'.slots[j].parent == Some(i) && s'.slots[j].state == Zombie) {
        NoNewZombie(s, a, j);
      }
    }
  }

  lemma KeepChildIf(s: State, slots': seq<Slot>, i: nat)
    requires |slots'| == |s.slots|
    requires forall j | 0 <= j < |s.slots| && ChildOf(s.slots, j, i) :: ChildOf(slots', j, i)
    ensures HasChild(s.slots, i) ==> HasChild(slots', i)
  {
  }

  lemma AllocApart(s: State, p: nat, i: nat, j: nat)
    requires Inv(s) && Can(s, AllocProc(p)) && i < |s.slots| && j < |s.slots| && i != j
    ensures Apart(Do(s, AllocProc(p)), i, j)
  {
    assert Apart(s, i, j) && Shape(s, i) && Shape(s, j);
    hide WaitOk, ReturnedOk, Distinct;
  }

  lemma ForkEndApart(s: State, a: Action, i: nat, j: nat)
    requires Inv(s) && Can(s, a) && (a.AllocFail? || a.ForkDone?) && i < |s.slots| && j < |s.slots| && i != j
    ensures Apart(Do(s, a), i, j)
  {
    assert Apart(s, i, j) && Shape(s, i) && Shape(s, j) && Shape(s, a.p) && Shape(s, s.slots[a.p].pc.child);
    hide WaitOk, ReturnedOk, Distinct;
  }

  lemma ReapApart(s: State, p: nat, i: nat, j: nat)
    requires Inv(s) && Can(s, WaitReap(p)) && i < |s.slots| && j < |s.slots| && i != j
    ensures Apart(Do(s, WaitReap(p)), i, j)
  {
    assert Apart(s, i, j) && Shape(s, i) && Shape(s, j);
    hide WaitOk, ReturnedOk, Distinct;
  }

  lemma StepCounts(s: State, a: Action)
    requires Inv(s) && Can(s, a)
    ensures |Do(s, a).slots| == |s.slots| && Do(s, a).nextpid >= s.nextpid && Alive(Do(s, a).slots[INIT])
  {
    assert Shape(s, INIT);
    if a.AllocFail? || a.ForkDone? { assert Shape(s, a.p); }
  }

  lemma ApartStep(s: State, a: Action, i: nat, j: nat)
    requires Inv(s) && Can(s, a) && !a.Exit? && i < |s.slots| && j < |s.slots| && i != j
    ensures |Do(s, a).slots| == |s.slots| && Apart(Do(s, a), i, j)
  {
    StepCounts(s, a);
    assert Apart(s, i, j);
    hide Inv, Do, Can;
    match a
    case AllocProc(p) => AllocApart(s, p, i, j);
    case AllocFail(p) => ForkEndApart(s, a, i, j);
    case ForkDone(p) => ForkEndApart(s, a, i, j);
    case WaitReap(p) => ReapApart(s, p, i, j);
    case _ => QuietFacts(s, a, i); QuietFacts(s, a, j);
  }

  lemma ExitApart(s: State, p: nat, i: nat, j: nat)
    requires Inv(s) && Can(s, Exit(p)) && i < |s.slots| && j < |s.slots| && i != j
    ensures Apart(Do(s, Exit(p)), i, j)
  {
    hide ExitSlots, WaitOk, ReturnedOk;
    assert Apart(s, i, j) && Shape(s, p);
    ExitFact(s, p, i);
    ExitFact(s, p, j);
  }

  lemma ReapReturned(s: State, p: nat)
    requires Inv(s) && Can(s, WaitReap(p))
    ensures ReturnedOk(Do(s, WaitReap(p)))
  {
    hide WaitOk;
    var z := FirstZombieChild(s.slots, p, 0);
    if z < |s.slots| {
      var s' := Do(s, WaitReap(p));
      assert Shape(s, z) && Shape(s, p);
      forall i | 0 <= i < |s.slots| && s'.slots[i].state != Unused
        ensures s.slots[i].state != Unused && s'.slots[i].pid == s.slots[i].pid != s.slots[z].pid
      {
        assert Apart(s, i, z);
      }
      forall i | 0 <= i < |s.slots| && s'.slots[i].state != Unused
        ensures forall a | 0 <= a < |s'.returned| :: s'.slots[i].pid != s'.returned[a].0 {}
      forall a | 0 <= a < |s.returned| ensures s.returned[a].0 != s.slots[z].pid {}
    }
  }

  lemma KeepReturned(s: State, s': State)
    requires ReturnedOk(s) && s'.returned == s.returned && |s'.slots| == |s.slots| && s'.nextpid >= s.nextpid
    requires forall i | 0 <= i < |s.slots| && s'.slots[i].state != Unused ::
      s'.slots[i].pid >= s.nextpid || (s.slots[i].state != Unused && s'.slots[i].pid == s.slots[i].pid)
    ensures ReturnedOk(s')
  {
  }

  lemma ReturnedStep(s: State, a: Action)
    requires Inv(s) && Can(s, a)
    ensures ReturnedOk(Do(s, a))
  {
    hide WaitOk, HasChild, Distinct, ReturnedOk, ExitSlots, Wake;
    StepCounts(s, a);
    if a.Exit? {
      ExitFacts(s, a.p);
      KeepReturned(s, Do(s, a));
    } else if a.WaitReap? {
      ReapReturned(s, a.p);
    } else if Quiet(a) {
      forall i | 0 <= i < |s.slots|
        ensures Do(s, a).slots[i].pid == s.slots[i].pid
        ensures Do(s, a).slots[i].state == Unused <==> s.slots[i].state == Unused
      {
        QuietFacts(s, a, i);
      }
      KeepReturned(s, Do(s, a));
    } else {
      if a.AllocFail? || a.ForkDone? { assert Shape(s, a.p) && Shape(s, s.slots[a.p].pc.child); }
      KeepReturned(s, Do(s, a));
    }
  }

  lemma ExitShape(s: State, p: nat, i: nat)
    requires Inv(s) && Can(s, Exit(p)) && i < |s.slots|
    ensures Shape(Do(s, Exit(p)), i)
  {
    hide ExitSlots, WaitOk, ReturnedOk, Distinct;
    assert Shape(s, i) && Shape(s, p);
    ExitFact(s, p, i);
    ExitFact(s, p, INIT);
    if s.slots[i].parent.Some? { ExitFact(s, p, s.slots[i].parent.value); }
    if Alive(s.slots[i]) && s.slots[i].pc.Forking? { ExitFact(s, p, s.slots[i].pc.child); }
  }

  lemma ExitWait(s: State, p: nat, i: nat)
    requires Inv(s) && Can(s, Exit(p)) && i < |s.slots|
    ensures WaitOk(Do(s, Exit(p)), i)
  {
    hide ExitSlots, ReturnedOk, Distinct;
    ExitFacts(s, p);
    var s' := Do(s, Exit(p));
    assert Shape(s, i) && WaitOk(s, i) && Shape(s, p);
    if i != p {
      KeepChildIf(s, s'.slots, i);
    }
  }

  lemma DoInv(s: State, a: Action)
    requires Inv(s) && Can(s, a)
    ensures Inv(Do(s, a))
  {
    var s' := Do(s, a);
    ReturnedStep(s, a);
    StepCounts(s, a);
    hide Do, Shape, WaitOk, ReturnedOk;
    forall i | 0 <= i < |s'.slots| ensures Shape(s', i) && WaitOk(s', i) {
      if a.Exit? { ExitShape(s, a.p, i); ExitWait(s, a.p, i); } else { ShapeStep(s, a, i); WaitStep(s, a, i); }
    }
    forall i, j | 0 <= i < |s'.slots| && 0 <= j < |s'.slots| && i != j ensures Apart(s', i, j) {
      if a.Exit? { ExitApart(s, a.p, i, j); } else { ApartStep(s, a, i, j); }
    }
  }

  // ------------------------------------------------------------------------ runs

  ghost predicate Run(states: seq<State>, actions: seq<Action>)
  {
    && |states| == |actions| + 1 && Init(states[0])
    && forall i | 0 <= i < |actions| :: Can(states[i], actions[i]) && states[i + 1] == Do(states[i], actions[i])
  }

  lemma {:induction false} RunInv(states: seq<State>, actions: seq<Action>)
    requires Run(states, actions)
    ensures Inv(states[|actions|])
    decreases |actions|
  {
    hide Inv, Do;
    if actions == [] {
      InitInv(states[0]);
    } else {
      var n := |actions| - 1;
      assert Run(states[..n + 1], actions[..n]);
      RunInv(states[..n + 1], actions[..n]);
      DoInv(states[n], actions[n]);
    }
  }

  /** In every run where init never exits, a process asleep in wait has no ZOMBIE child and at
      least one live child. */
  lemma AsleepInWaitHasLiveChild(states: seq<State>, actions: seq<Action>, p: nat)
    requires Run(states, actions) && p < |states[|actions|].slots| && AsleepInWait(states[|actions|], p)
    ensures var slots := states[|actions|].slots;
      && (forall j | 0 <= j < |slots| :: !(slots[j].parent == Some(p) && slots[j].state == Zombie))
      && exists j | 0 <= j < |slots| :: slots[j].parent == Some(p) && Alive(slots[j])
  {
    RunInv(states, actions);
    var s := states[|actions|];
    assert Shape(s, p) && WaitOk(s, p);
    var j :| 0 <= j < |s.slots| && ChildOf(s.slots, j, p);
    assert Shape(s, j);
    assert s.slots[j].parent == Some(p) && Alive(s.slots[j]);
  }

  /** No process has a parent pointer to a ZOMBIE or UNUSED slot; everyone but init has a parent. */
  lemma ParentsLive(states: seq<State>, actions: seq<Action>, p: nat)
    requires Run(states, actions) && p < |states[|actions|].slots|
    ensures var slots := states[|actions|].slots;
      && (slots[p].parent.Some? ==> slots[p].parent.value < |slots| && Alive(slots[slots[p].parent.value]))
      && (p != INIT && (Alive(slots[p]) || slots[p].state == Zombie) ==> slots[p].parent.Some?)
  {
    RunInv(states, actions);
    assert Shape(states[|actions|], p);
  }

  lemma {:induction false} ReturnedGrows(states: seq<State>, actions: seq<Action>, k: nat)
    requires Run(states, actions) && k <= |actions|
    ensures states[k].returned <= states[|actions|].returned
    decreases |actions|
  {
    hide Init;
    if k < |actions| {
      var n := |actions| - 1;
      assert Run(states[..n + 1], actions[..n]);
      ReturnedGrows(states[..n + 1], actions[..n], k);
    }
  }

  lemma NoRepeats(s: State)
    requires Inv(s)
    ensures forall a, b | 0 <= a < b < |s.returned| :: s.returned[a].0 != s.returned[b].0
  {
  }

  /** Each pid is returned by at most one wait, ever, and to the process that is its parent then. */
  lemma ReapedOnce(states: seq<State>, actions: seq<Action>, k: nat)
    requires Run(states, actions) && k < |actions| && actions[k].WaitReap?
    requires FirstZombieChild(states[k].slots, actions[k].p, 0) < |states[k].slots|
    ensures var i := FirstZombieChild(states[k].slots, actions[k].p, 0);
      var n := |states[k].returned|;
      var returned := states[|actions|].returned;
      && states[k].slots[i].parent == Some(actions[k].p) && states[k].slots[i].state == Zombie
      && n < |returned| && returned[n] == (states[k].slots[i].pid, actions[k].p)
      && forall m | 0 <= m < |returned| && m != n :: returned[m].0 != states[k].slots[i].pid
  {
    RunInv(states, actions);
    hide Inv, Init;
    ReturnedGrows(states, actions, k + 1);
    assert states[k + 1] == Do(states[k], actions[k]);
    var n := |states[k].returned|;
    assert states[k + 1].returned[n] == states[|actions|].returned[n];
    NoRepeats(states[|actions|]);
  }

  // ----------------------------------------------------------------- the in-place code

  /** The table after the first `i` turns of exit's loop. */
  ghost function Partway(slots: seq<Slot>, p: nat, i: nat, woken: bool): (r: seq<Slot>)
    requires p < |slots| && i <= |slots|
    ensures |r| == |slots|
  {
    var a := seq(|slots|, k requires 0 <= k < |slots| =>
      if k < i && SamePidParent(slots, k, p) then slots[k].(parent := Some(INIT)) else slots[k]);
    if woken && slots[INIT].state == Sleeping then Wake(a, WaitOn(INIT)) else a
  }

  lemma PartwayStart(slots: seq<Slot>, p: nat)
    requires p < |slots|
    ensures Partway(slots, p, 0, false) == slots
  {
  }

  lemma WakeTwice(slots: seq<Slot>, p: nat, i: nat, woken: bool)
    requires p < |slots| && i < |slots|
    ensures var now := Partway(slots, p, i, woken);
      forall k | 0 <= k < |slots| ::
        && now[k].pid == slots[k].pid && now[k].chan == slots[k].chan && now[k].pc == slots[k].pc
        && now[k].parent == (if k < i && SamePidParent(slots, k, p) then Some(INIT) else slots[k].parent)
        && var wakes := slots[INIT].state == Sleeping && slots[k].state == Sleeping && slots[k].chan == WaitOn(INIT);
           now[k].state == if woken && wakes then Runnable else slots[k].state
  {
  }

  lemma PartwayStep(slots: seq<Slot>, p: nat, i: nat, woken: bool)
    requires p < |slots| && i < |slots|
    ensures var now := Partway(slots, p, i, woken);
      && (SamePidParent(now, i, p) <==> SamePidParent(slots, i, p))
      && (!SamePidParent(slots, i, p) ==> Partway(slots, p, i + 1, woken) == now)
      && (SamePidParent(slots, i, p) ==>
        var done := now[i := now[i].(parent := Some(INIT))];
        Partway(slots, p, i + 1, true) == if done[INIT].state == Sleeping then Wake(done, WaitOn(INIT)) else done)
  {
    var now := Partway(slots, p, i, woken);
    WakeTwice(slots, p, i, woken);
    if SamePidParent(slots, i, p) {
      var done := now[i := now[i].(parent := Some(INIT))];
      var next := if done[INIT].state == Sleeping then Wake(done, WaitOn(INIT)) else done;
      forall k | 0 <= k < |slots| ensures Partway(slots, p, i + 1, true)[k] == next[k] {}
    } else {
      forall k | 0 <= k < |slots| ensures Partway(slots, p, i + 1, woken)[k] == now[k] {}
    }
  }

  lemma PartwayEnd(slots: seq<Slot>, p: nat, any: bool)
    requires p < |slots| && (any <==> exists k | 0 <= k < |slots| :: SamePidParent(slots, k, p))
    ensures var now := Partway(slots, p, |slots|, any);
      var c := if now[p].parent.Some? then Wake(now, WaitOn(now[p].parent.value)) else now;
      ExitSlots(slots, p) == c[p := c[p].(state := Zombie, pc := Gone)]
  {
    hide SamePidParent;
    var a := Reparent(slots, p);
    assert Partway(slots, p, |slots|, false) == a;
  }

  class Table {
    const proc: array<Slot>

    constructor (nproc: nat)
      ensures proc.Length == nproc && fresh(proc)
      ensures forall i | 0 <= i < nproc :: proc[i] == Slot(Unused, 0, None, NoChan, User)
    {
      proc := new Slot[nproc](_ => Slot(Unused, 0, None, NoChan, User));
    }

    method Wakeup1(c: Chan)
      modifies proc
      ensures proc[..] == Wake(old(proc[..]), c)
    {
      var i := 0;
      while i < proc.Length
        invariant 0 <= i <= proc.Length
        invariant forall k | 0 <= k < proc.Length ::
          proc[k] == if k < i then Wake(old(proc[..]), c)[k] else old(proc[k])
      {
        if proc[i].state == Sleeping && proc[i].chan == c {
          proc[i] := proc[i].(state := Runnable);
        }
        i := i + 1;
      }
    }

    /** One pass of wait's second loop: the first zombie child is freed and its pid returned. */
    method ReapSection(p: nat) returns (pid: Option<nat>)
      modifies proc
      ensures var was := old(proc[..]);
        var z := FirstZombieChild(was, p, 0);
        if z < |was| then
          pid == Some(was[z].pid) && proc[..] == was[z := was[z].(state := Unused, parent := None, pid := 0)]
        else pid == None && proc[..] == was
    {
      var i := 0;
      while i < proc.Length
        invariant 0 <= i <= proc.Length && proc[..] == old(proc[..])
        invariant FirstZombieChild(proc[..], p, 0) == FirstZombieChild(proc[..], p, i)
      {
        if proc[i].parent == Some(p) && proc[i].state == Zombie {
          pid := Some(proc[i].pid);
          proc[i] := proc[i].(state := Unused, parent := None, pid := 0);
          assert proc[..] == old(proc[..])[i := proc[i]];
          return;
        }
        i := i + 1;
      }
      pid := None;
    }

    /** exit, from acquire to sched. */
    method ExitSection(p: nat)
      requires p < proc.Length
      modifies proc
      ensures proc[..] == ExitSlots(old(proc[..]), p)
    {
      hide Partway, Wake, SamePidParent, ExitSlots;
      ghost var was := proc[..];
      ghost var any := false;
      PartwayStart(was, p);
      var i := 0;
      while i < proc.Length
        invariant 0 <= i <= proc.Length
        invariant any <==> exists k | 0 <= k < i :: SamePidParent(was, k, p)
        invariant proc[..] == Partway(was, p, i, any)
      {
        PartwayStep(was, p, i, any);
        if SamePidParent(proc[..], i, p) {
          proc[i] := proc[i].(parent := Some(INIT));
          assert proc[..] == Partway(was, p, i, any)[i := proc[i]];
          if proc[INIT].state == Sleeping {
            Wakeup1(WaitOn(INIT));
          }
          any := true;
        }
        i := i + 1;
      }
      PartwayEnd(was, p, any);
      if proc[p].parent.Some? {
        Wakeup1(WaitOn(proc[p].parent.value));
      }
      ghost var last := proc[..];
      proc[p] := proc[p].(state := Zombie, pc := Gone);
      assert proc[..] == last[p := last[p].(state := Zombie, pc := Gone)];
    }
  }
}
