/** kernel/ide.c and kernel/memide.c: the disk driver.

    Any number of processes call iderw; the disk answers with interrupts.  Each stretch under the
    driver's lock is one step.  The memory disk, which does a request at once, is the specification. */
module IdeQueue {
  import opened Types

  type Pid = nat
  type Id = nat
  type Key = (nat, nat)
  type Data = seq<int>

  datatype Buf = Buf(key: Key, valid: bool, dirty: bool, data: Data)

  type Disk = Key -> Data

  function Write(disk: Disk, key: Key, data: Data): Disk { k => if k == key then data else disk(k) }

  // --------------------------------------------------------------- the memory disk

  predicate NothingToDo(b: Buf) { b.valid && !b.dirty }

  /** The synchronous iderw: writes a dirty buffer, reads any other; valid and clean afterwards. */
  function MemRw(disk: Disk, b: Buf): (r: (Disk, Buf))
    ensures r.1.valid && !r.1.dirty && r.1.key == b.key && r.0(b.key) == r.1.data
    ensures forall k | k != b.key :: r.0(k) == disk(k)
  {
    if b.dirty then (Write(disk, b.key, b.data), b.(dirty := false, valid := true))
    else (disk, b.(data := disk(b.key), valid := true))
  }

  // --------------------------------------------------------------- the interrupt-driven driver

  /** What the controller is doing: nothing, or the request of a buffer, with the data of a write. */
  datatype Device = Quiet | Busy(id: Id, payload: Option<Data>)

  datatype Proc = Out | Waits(id: Id, asleep: bool)

  datatype State = State(
    bufs: map<Id, Buf>, queue: seq<Id>, dev: Device, disk: Disk, procs: map<Pid, Proc>,
    arrived: seq<Id>, completed: seq<Id>, spoilt: set<Id>)

  function StartOn(bufs: map<Id, Buf>, id: Id): Device
    requires id in bufs
  {
    Busy(id, if bufs[id].dirty then Some(bufs[id].data) else None)
  }

  /** iderw up to its sleep: append, and start the disk if the request is alone. */
  predicate CanCall(s: State, p: Pid, id: Id)
  {
    && p in s.procs && s.procs[p].Out? && id in s.bufs && !NothingToDo(s.bufs[id])
    && (forall q | q in s.procs && s.procs[q].Waits? && s.procs[q].id in s.bufs ::
          s.procs[q].id != id && s.bufs[s.procs[q].id].key != s.bufs[id].key)
  }

  function Call(s: State, p: Pid, id: Id): State
    requires CanCall(s, p, id)
  {
    s.(queue := s.queue + [id], arrived := s.arrived + [id],
       dev := if s.queue == [] then StartOn(s.bufs, id) else s.dev,
       procs := s.procs[p := Waits(id, true)], spoilt := s.spoilt - {id})
  }

  function Wake(procs: map<Pid, Proc>, id: Id): map<Pid, Proc>
  {
    map p | p in procs :: if procs[p].Waits? && procs[p].id == id then Waits(id, false) else procs[p]
  }

  /** The buffer and the disk after the device finishes its request.  A fault leaves a block that was to
      be written with any data, and a buffer that was to be filled as it was.  The driver looks at the
      error bits after a read only, and marks the buffer valid and clean in every case. */
  function Finish(disk: Disk, b: Buf, payload: Option<Data>, fault: Option<Data>): (Disk, Buf)
  {
    var d := if payload.None? then disk else Write(disk, b.key, if fault.Some? then fault.value else payload.value);
    var data := if !b.dirty && fault.None? then d(b.key) else b.data;
    (d, b.(data := data, valid := true, dirty := false))
  }

  /** The device fails, and not by luck as if it had not: a write leaves other data in the block, a read
      was to bring other data. */
  predicate Harmed(disk: Disk, b: Buf, fault: Option<Data>)
  {
    fault.Some? && if b.dirty then fault.value != b.data else b.data != disk(b.key)
  }

  /** ideintr: take the head off, finish it, wake its caller, start the next. */
  function Interrupt(s: State, fault: Option<Data>): State
    requires s.queue != [] ==> s.queue[0] in s.bufs && s.dev.Busy?
    requires forall id | id in s.queue :: id in s.bufs
  {
    if s.queue == [] then s
    else
      var id, rest := s.queue[0], s.queue[1..];
      var b := s.bufs[id];
      var (disk, b') := Finish(s.disk, b, s.dev.payload, fault);
      var bufs := s.bufs[id := b'];
      s.(queue := rest, bufs := bufs, disk := disk, procs := Wake(s.procs, id),
         dev := if rest == [] then Quiet else StartOn(bufs, rest[0]),
         completed := s.completed + [id],
         spoilt := if Harmed(s.disk, b, fault) then s.spoilt + {id} else s.spoilt - {id})
  }

  /** A woken caller looks at its buffer: it returns, or sleeps again. */
  function Resume(s: State, p: Pid): State
    requires p in s.procs && s.procs[p].Waits? && s.procs[p].id in s.bufs
  {
    s.(procs := s.procs[p := if NothingToDo(s.bufs[s.procs[p].id]) then Out else Waits(s.procs[p].id, true)])
  }

  datatype Step =
    | CallStep(p: Pid, id: Id)
    | InterruptStep(fault: Option<Data>)
    | ResumeStep(p: Pid)
    | KillStep(p: Pid)
    | OutsideStep(id: Id, b: Buf)

  predicate Enabled(s: State, a: Step)
  {
    match a
    case CallStep(p, id) => CanCall(s, p, id)
    case InterruptStep(_) =>
      && (s.queue != [] ==> s.queue[0] in s.bufs && s.dev.Busy?)
      && forall id | id in s.queue :: id in s.bufs
    case ResumeStep(p) => p in s.procs && s.procs[p].Waits? && !s.procs[p].asleep && s.procs[p].id in s.bufs
    case KillStep(p) => p in s.procs
    // the holder of a buffer changes it, or the cache assigns it anew, while nobody waits for it
    case OutsideStep(id, b) =>
      && id in s.bufs
      && forall q | q in s.procs && s.procs[q].Waits? && s.procs[q].id in s.bufs ::
           s.procs[q].id != id && s.bufs[s.procs[q].id].key != b.key
  }

  function Do(s: State, a: Step): State
    requires Enabled(s, a)
  {
    match a
    case CallStep(p, id) => Call(s, p, id)
    case InterruptStep(fault) => Interrupt(s, fault)
    case ResumeStep(p) => Resume(s, p)
    case KillStep(p) => s.(procs := s.procs[p := if s.procs[p].Waits? then Waits(s.procs[p].id, false) else Out])
    case OutsideStep(id, b) => s.(bufs := s.bufs[id := b])
  }

  ghost predicate Run(ss: seq<State>, steps: seq<Step>)
  {
    |ss| == |steps| + 1 && forall i | 0 <= i < |steps| :: Enabled(ss[i], steps[i]) && ss[i + 1] == Do(ss[i], steps[i])
  }

  // --------------------------------------------------------------- what every step keeps

  predicate Distinct(q: seq<Id>) { forall i, j | 0 <= i < j < |q| :: q[i] != q[j] }

  ghost predicate Waiter(s: State, p: Pid, id: Id) { p in s.procs && s.procs[p].Waits? && s.procs[p].id == id }

  /** A caller's request is queued, or done; it sleeps only in the first case. */
  ghost predicate ProcOk(s: State, p: Pid)
    requires p in s.procs
  {
    s.procs[p].Waits? ==>
      var id := s.procs[p].id;
      && id in s.bufs
      && (id !in s.queue ==> !s.procs[p].asleep && NothingToDo(s.bufs[id]))
      && (id !in s.queue ==> (s.disk(s.bufs[id].key) == s.bufs[id].data <==> id !in s.spoilt))
  }

  ghost predicate Apart(s: State)
  {
    forall p, q | p in s.procs && q in s.procs && p != q && s.procs[p].Waits? && s.procs[q].Waits? ::
      && s.procs[p].id != s.procs[q].id
      && (s.procs[p].id in s.bufs && s.procs[q].id in s.bufs ==> s.bufs[s.procs[p].id].key != s.bufs[s.procs[q].id].key)
  }

  ghost predicate QueueOk(s: State)
  {
    && Distinct(s.queue)
    && (forall id | id in s.queue :: id in s.bufs && !NothingToDo(s.bufs[id]) && exists p :: Waiter(s, p, id))
    && s.arrived == s.completed + s.queue
  }

  /** Only the head of the queue is started, with the data its buffer still has. */
  ghost predicate DeviceOk(s: State)
  {
    if s.queue == [] then s.dev.Quiet? else s.queue[0] in s.bufs && s.dev == StartOn(s.bufs, s.queue[0])
  }

  ghost predicate Inv(s: State)
  {
    QueueOk(s) && DeviceOk(s) && Apart(s) && forall p | p in s.procs :: ProcOk(s, p)
  }

  ghost predicate Init(s: State)
  {
    && s.queue == s.arrived == s.completed == [] && s.dev.Quiet?
    && forall p | p in s.procs :: s.procs[p].Out?
  }

  lemma CallInv(s: State, p: Pid, id: Id)
    requires Inv(s) && CanCall(s, p, id)
    ensures Inv(Call(s, p, id))
  {
    var t := Call(s, p, id);
    forall i | i in s.queue ensures i != id {
      var q :| Waiter(s, q, i);
    }
    assert QueueOk(t) by {
      forall i | i in t.queue ensures exists q :: Waiter(t, q, i) {
        if i == id {
          assert Waiter(t, p, i);
        } else {
          var q :| Waiter(s, q, i);
          assert Waiter(t, q, i);
        }
      }
      assert t.arrived == t.completed + t.queue;
    }
    forall q | q in t.procs ensures ProcOk(t, q) {
      assert q != p ==> ProcOk(s, q);
    }
  }

  lemma InterruptQueue(s: State, fault: Option<Data>)
    requires Inv(s) && s.queue != [] && Enabled(s, InterruptStep(fault))
    ensures QueueOk(Interrupt(s, fault)) && DeviceOk(Interrupt(s, fault))
  {
    var t := Interrupt(s, fault);
    var id := s.queue[0];
    assert s.completed + s.queue == t.completed + t.queue;
    forall i | i in t.queue ensures i in t.bufs && !NothingToDo(t.bufs[i]) && exists p :: Waiter(t, p, i) {
      var k :| 0 <= k < |t.queue| && t.queue[k] == i;
      assert s.queue[k + 1] == i && i in s.queue;
      var p :| Waiter(s, p, i);
      assert Waiter(t, p, i);
    }
  }

  lemma InterruptProc(s: State, fault: Option<Data>, p: Pid)
    requires Inv(s) && s.queue != [] && Enabled(s, InterruptStep(fault)) && p in s.procs
    ensures ProcOk(Interrupt(s, fault), p)
  {
  }

  lemma InterruptInv(s: State, fault: Option<Data>)
    requires Inv(s) && Enabled(s, InterruptStep(fault))
    ensures Inv(Interrupt(s, fault))
  {
    if s.queue != [] {
      InterruptQueue(s, fault);
      forall p | p in s.procs ensures ProcOk(Interrupt(s, fault), p) { InterruptProc(s, fault, p); }
    }
  }

  /** Waiters other than p are untouched when only p's entry changes and p waits for what it did. */
  lemma SameWaiters(s: State, t: State)
    requires QueueOk(s) && t.queue == s.queue && t.bufs == s.bufs
    requires t.arrived == s.arrived && t.completed == s.completed
    requires forall p, id | Waiter(s, p, id) && id in s.queue :: Waiter(t, p, id)
    ensures QueueOk(t)
  {
  }

  lemma ResumeInv(s: State, p: Pid)
    requires Inv(s) && Enabled(s, ResumeStep(p))
    ensures Inv(Resume(s, p))
  {
    var t := Resume(s, p);
    assert ProcOk(s, p);
    SameWaiters(s, t);
    forall q | q in t.procs ensures ProcOk(t, q) { assert ProcOk(s, q); }
  }

  lemma KillInv(s: State, p: Pid)
    requires Inv(s) && Enabled(s, KillStep(p))
    ensures Inv(Do(s, KillStep(p)))
  {
    var t := Do(s, KillStep(p));
    SameWaiters(s, t);
    forall q | q in t.procs ensures ProcOk(t, q) { assert ProcOk(s, q); }
  }

  lemma OutsideInv(s: State, id: Id, b: Buf)
    requires Inv(s) && Enabled(s, OutsideStep(id, b))
    ensures Inv(Do(s, OutsideStep(id, b)))
  {
    var t := Do(s, OutsideStep(id, b));
    forall i | i in t.queue ensures i != id && exists p :: Waiter(t, p, i) {
      var p :| Waiter(s, p, i);
      assert ProcOk(s, p);
      assert Waiter(t, p, i);
    }
    forall q | q in t.procs ensures ProcOk(t, q) { assert ProcOk(s, q); }
  }

  lemma DoInv(s: State, a: Step)
    requires Inv(s) && Enabled(s, a)
    ensures Inv(Do(s, a))
  {
    match a
    case CallStep(p, id) => CallInv(s, p, id);
    case InterruptStep(fault) => InterruptInv(s, fault);
    case ResumeStep(p) => ResumeInv(s, p);
    case KillStep(p) => KillInv(s, p);
    case OutsideStep(id, b) => OutsideInv(s, id, b);
  }

  lemma {:induction false} RunInv(ss: seq<State>, steps: seq<Step>, i: nat)
    requires Run(ss, steps) && Init(ss[0]) && i < |ss|
    ensures Inv(ss[i])
  {
    if i > 0 {
      RunInv(ss, steps, i - 1);
      assert Enabled(ss[i - 1], steps[i - 1]) && ss[i] == Do(ss[i - 1], steps[i - 1]);
      DoInv(ss[i - 1], steps[i - 1]);
    }
  }

  // --------------------------------------------------------------- the promises

  /** In every run: no request is queued twice, only the head is started, and requests complete once
      each in the order they arrived. */
  lemma InOrder(ss: seq<State>, steps: seq<Step>, i: nat)
    requires Run(ss, steps) && Init(ss[0]) && i < |ss|
    ensures Distinct(ss[i].queue) && ss[i].completed <= ss[i].arrived
    ensures ss[i].arrived == ss[i].completed + ss[i].queue
    ensures if ss[i].queue == [] then ss[i].dev.Quiet? else ss[i].dev.Busy? && ss[i].dev.id == ss[i].queue[0]
  {
    RunInv(ss, steps, i);
  }

  /** A caller leaves iderw only once its own request is done, and then the buffer and the disk agree
      exactly if the request was not harmed by a fault. */
  lemma ReturnsSynced(ss: seq<State>, steps: seq<Step>, i: nat, p: Pid)
    requires Run(ss, steps) && Init(ss[0]) && i < |steps| && p in ss[i].procs && ss[i].procs[p].Waits?
    requires p in ss[i + 1].procs && ss[i + 1].procs[p].Out?
    ensures var id := ss[i].procs[p].id;
      && id in ss[i].bufs && id !in ss[i].queue && NothingToDo(ss[i].bufs[id])
      && (ss[i].disk(ss[i].bufs[id].key) == ss[i].bufs[id].data <==> id !in ss[i].spoilt)
  {
    RunInv(ss, steps, i);
    assert ProcOk(ss[i], p);
    assert ss[i + 1] == Do(ss[i], steps[i]);
  }

  /** Nobody sleeps for a request that is done. */
  lemma NoLostWakeup(ss: seq<State>, steps: seq<Step>, i: nat, p: Pid)
    requires Run(ss, steps) && Init(ss[0]) && i < |ss| && p in ss[i].procs
    requires ss[i].procs[p].Waits? && ss[i].procs[p].asleep
    ensures ss[i].procs[p].id in ss[i].queue && ss[i].dev.Busy?
  {
    RunInv(ss, steps, i);
    assert ProcOk(ss[i], p);
  }

  /** Completing a request does to its buffer and the disk what the memory disk would do exactly when no
      fault harms it: the disk is wrong after a failed write, the buffer after a failed read. */
  lemma CompletesLikeMemide(ss: seq<State>, steps: seq<Step>, i: nat)
    requires Run(ss, steps) && Init(ss[0]) && i < |steps| && steps[i].InterruptStep? && ss[i].queue != []
    ensures var s, t, id := ss[i], ss[i + 1], ss[i].queue[0];
      && id in s.bufs && id in t.bufs
      && var b, fault := s.bufs[id], steps[i].fault;
      && (t.bufs[id] == MemRw(s.disk, b).1 <==> b.dirty || !Harmed(s.disk, b, fault))
      && (t.disk(b.key) == MemRw(s.disk, b).0(b.key) <==> !b.dirty || !Harmed(s.disk, b, fault))
      && (id in t.spoilt <==> Harmed(s.disk, b, fault))
      && (forall k | k != b.key :: t.disk(k) == s.disk(k))
      && (forall j | j in s.bufs && j != id :: j in t.bufs && t.bufs[j] == s.bufs[j])
  {
    RunInv(ss, steps, i);
    assert Enabled(ss[i], steps[i]) && ss[i + 1] == Do(ss[i], steps[i]);
  }

  /** One process, one buffer: its request, the answer of the disk, its return. */
  ghost function OneRequest(disk: Disk, b: Buf, fault: Option<Data>): (ss: seq<State>)
    requires !NothingToDo(b)
    ensures |ss| == 4 && Run(ss, [CallStep(0, 0), InterruptStep(fault), ResumeStep(0)]) && Init(ss[0])
    ensures 0 in ss[2].procs && ss[2].procs[0].Waits? && 0 in ss[3].procs && ss[3].procs[0].Out?
    ensures 0 in ss[3].bufs && ss[3].bufs[0] == Finish(disk, b, if b.dirty then Some(b.data) else None, fault).1
    ensures ss[3].disk(b.key) == Finish(disk, b, if b.dirty then Some(b.data) else None, fault).0(b.key)
  {
    var s0 := State(map[0 := b], [], Quiet, disk, map[0 := Out], [], [], {});
    var s1 := Do(s0, CallStep(0, 0));
    var s2 := Do(s1, InterruptStep(fault));
    [s0, s1, s2, Do(s2, ResumeStep(0))]
  }

  /** A read the disk fails: the caller returns with a valid buffer that has its old data. */
  lemma FailedRead(disk: Disk, key: Key, data: Data)
    requires data != disk(key)
    ensures var ss := OneRequest(disk, Buf(key, false, false, data), Some([]));
      && ss[3].bufs[0] == Buf(key, true, false, data)
      && ss[3].disk(key) == disk(key) != ss[3].bufs[0].data
  {
  }

  /** A write the disk fails: the caller returns with a clean buffer, and the block holds something else. */
  lemma FailedWrite(disk: Disk, key: Key, data: Data, torn: Data)
    requires torn != data
    ensures var ss := OneRequest(disk, Buf(key, true, true, data), Some(torn));
      && ss[3].bufs[0] == Buf(key, true, false, data)
      && ss[3].disk(key) == torn != ss[3].bufs[0].data
  {
  }

  // --------------------------------------------------------------- the queue itself

  /** idequeue and the qnext links. */
  class Queue {
    var first: Option<Id>
    var qnext: map<Id, Option<Id>>
    ghost var queue: seq<Id>

    ghost predicate LinkAt(i: nat)
      requires i < |queue|
      reads this
    {
      queue[i] in qnext && qnext[queue[i]] == if i + 1 < |queue| then Some(queue[i + 1]) else None
    }

    /** The links spell the queue: no cycle, no request twice. */
    ghost predicate Valid()
      reads this
    {
      && Distinct(queue)
      && first == (if queue == [] then None else Some(queue[0]))
      && forall i | 0 <= i < |queue| :: LinkAt(i)
    }

    constructor ()
      ensures Valid() && queue == []
    {
      first, qnext, queue := None, map[], [];
    }

    /** Walks to the end of the list and links b in there. */
    method Append(b: Id) returns (alone: bool)
      requires Valid() && b !in queue
      modifies this
      ensures Valid() && queue == old(queue) + [b] && (alone <==> old(queue) == [])
    {
      qnext := qnext[b := None];
      if first.None? {
        first := Some(b);
        queue := [b];
        return true;
      }
      var p := first.value;
      ghost var k := 0;
      forall i | 0 <= i < |queue| ensures LinkAt(i) { assert old(LinkAt(i)) && queue[i] in queue; }
      assert LinkAt(0);
      while qnext[p].Some?
        invariant 0 <= k < |queue| && queue[k] == p && p in qnext && queue == old(queue)
        invariant forall i | 0 <= i < |queue| :: LinkAt(i)
        decreases |queue| - k
      {
        assert LinkAt(k) && (k + 1 < |queue| ==> LinkAt(k + 1));
        p, k := qnext[p].value, k + 1;
      }
      assert LinkAt(k);
      ghost var links := qnext;
      qnext := qnext[p := Some(b)];
      queue := queue + [b];
      alone := false;
      forall i | 0 <= i < |queue| ensures LinkAt(i) {
        if i < |queue| - 1 {
          assert old(LinkAt(i));
          assert links[queue[i]] == old(qnext)[queue[i]];
        }
      }
    }

    /** Takes the first request off. */
    method Pop() returns (b: Option<Id>)
      requires Valid()
      modifies this
      ensures Valid()
      ensures if old(queue) == [] then b.None? && queue == [] else b == Some(old(queue)[0]) && queue == old(queue)[1..]
    {
      b := first;
      if b.Some? {
        assert LinkAt(0);
        first := qnext[b.value];
        ghost var was := queue;
        queue := queue[1..];
        forall i | 0 <= i < |queue| ensures LinkAt(i) {
          assert old(LinkAt(i + 1));
        }
      }
    }
  }
}
