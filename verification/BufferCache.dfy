/** kernel/bio.c: the buffer cache.

    Any number of processes read, change, write and release blocks.  Each stretch under the cache's
    lock, and each disk transfer, is one step.  Transfers may fail, as those of the disk queue may. */
module BufferCache {
  import opened Types
  import Ide = IdeQueue

  type Pid = nat
  type Id = nat
  type Key = Ide.Key
  type Data = Ide.Data

  const ZERO: Key := (0, 0)

  /** A buffer and its reference count. */
  datatype Slot = Slot(io: Ide.Buf, refcnt: nat)

  /** Where a process is between bget and the end of brelse. */
  datatype Pc =
    | Idle
    | Wants(id: Id, key: Key)
    | Locked(id: Id, key: Key)
    | Holds(id: Id, key: Key, changed: bool)
    | Writes(id: Id, key: Key)
    | Leaves(id: Id)

  predicate Uses(pc: Pc, id: Id) { !pc.Idle? && pc.id == id }

  predicate IsOwner(pc: Pc) { pc.Locked? || pc.Holds? || pc.Writes? }

  predicate Owns(pc: Pc, id: Id) { IsOwner(pc) && pc.id == id }

  /** The owner may have changed the data since it was last on the disk. */
  predicate Ahead(pc: Pc, id: Id) { Owns(pc, id) && (pc.Writes? || (pc.Holds? && pc.changed)) }

  /** `order` is the list of buffers, most recently released first; `log` the releases so far; `spoilt` the
      blocks with a transfer that a fault harmed, and no unharmed write since. */
  datatype State = State(
    order: seq<Id>, slots: seq<Slot>, disk: Ide.Disk, procs: map<Pid, Pc>, log: seq<Id>, spoilt: set<Key>)

  // --------------------------------------------------------------- choosing a buffer

  predicate Unused(b: Slot) { b.refcnt == 0 && !b.io.dirty }

  /** The first buffer of the list with this key. */
  function Lookup(order: seq<Id>, slots: seq<Slot>, key: Key): (r: Option<nat>)
    requires forall i | 0 <= i < |order| :: order[i] < |slots|
    ensures r.Some? ==> r.value < |order| && slots[order[r.value]].io.key == key
    ensures forall i | 0 <= i < |order| && (r.Some? ==> i < r.value) :: slots[order[i]].io.key != key
  {
    if order == [] then None
    else if slots[order[0]].io.key == key then Some(0)
    else match Lookup(order[1..], slots, key) case None => None case Some(i) => Some(i + 1)
  }

  /** The last buffer of the list that nobody references and that is clean. */
  function Victim(order: seq<Id>, slots: seq<Slot>): (r: Option<nat>)
    requires forall i | 0 <= i < |order| :: order[i] < |slots|
    ensures r.Some? ==> r.value < |order| && Unused(slots[order[r.value]])
    ensures forall i | 0 <= i < |order| && (r.Some? ==> r.value < i) :: !Unused(slots[order[i]])
  {
    if order == [] then None
    else
      var n := |order| - 1;
      if Unused(slots[order[n]]) then Some(n) else Victim(order[..n], slots)
  }

  function Assign(b: Slot, key: Key): Slot { Slot(b.io.(key := key, valid := false, dirty := false), 1) }

  /** bget under the lock: the slots afterwards and the buffer found, or nothing if all are in use. */
  function Get(order: seq<Id>, slots: seq<Slot>, key: Key): (r: Option<(seq<Slot>, Id)>)
    requires forall i | 0 <= i < |order| :: order[i] < |slots|
  {
    match Lookup(order, slots, key)
    case Some(i) =>
      var id := order[i];
      Some((slots[id := slots[id].(refcnt := slots[id].refcnt + 1)], id))
    case None =>
      match Victim(order, slots)
      case Some(i) => Some((slots[order[i] := Assign(slots[order[i]], key)], order[i]))
      case None => None
  }

  /** To the front of the list. */
  function ToFront(order: seq<Id>, i: nat): seq<Id>
    requires i < |order|
  {
    [order[i]] + order[..i] + order[i + 1..]
  }

  function IndexOf(order: seq<Id>, id: Id): (i: nat)
    requires id in order
    ensures i < |order| && order[i] == id
  {
    if order[0] == id then 0 else 1 + IndexOf(order[1..], id)
  }

  // --------------------------------------------------------------- steps

  datatype Step =
    | GetStep(p: Pid, key: Key)
    | LockStep(p: Pid)
    | LoadStep(p: Pid, fault: Option<Data>)
    | ChangeStep(p: Pid, data: Data)
    | MarkStep(p: Pid)
    | WriteStep(p: Pid, fault: Option<Data>)
    | UnlockStep(p: Pid)
    | LeaveStep(p: Pid)

  predicate Shape(s: State)
  {
    && |s.order| == |s.slots|
    && (forall i | 0 <= i < |s.order| :: s.order[i] < |s.slots|)
    && (forall i, j | 0 <= i < j < |s.order| :: s.order[i] != s.order[j])
    && (forall id | 0 <= id < |s.slots| :: id in s.order)
    && (forall p | p in s.procs && !s.procs[p].Idle? :: s.procs[p].id < |s.slots|)
  }

  /** A step may be taken; a holder unlocks only what it has written since changing it. */
  predicate Enabled(s: State, a: Step)
    requires Shape(s)
  {
    a.p in s.procs &&
    var pc := s.procs[a.p];
    match a
    case GetStep(p, key) => pc.Idle? && Get(s.order, s.slots, key).Some?
    case LockStep(p) => pc.Wants? && forall q | q in s.procs :: !Owns(s.procs[q], pc.id)
    case LoadStep(p, _) => pc.Locked?
    case ChangeStep(p, data) => pc.Holds?
    case MarkStep(p) => pc.Holds?
    case WriteStep(p, _) => pc.Writes?
    case UnlockStep(p) => pc.Holds? && !pc.changed
    case LeaveStep(p) => pc.Leaves? && s.slots[pc.id].refcnt > 0
  }

  /** The process at p moves on and its buffer changes. */
  function Update(s: State, p: Pid, pc: Pc, id: Id, b: Slot): State
    requires id < |s.slots|
  {
    s.(procs := s.procs[p := pc], slots := s.slots[id := b])
  }

  /** iderw for the buffer of p, which holds it afterwards. */
  function Transfer(s: State, p: Pid, id: Id, key: Key, fault: Option<Data>): State
    requires id < |s.slots|
  {
    var b := s.slots[id];
    var (disk, io) := Ide.Finish(s.disk, b.io, if b.io.dirty then Some(b.io.data) else None, fault);
    var spoilt := if Ide.Harmed(s.disk, b.io, fault) then s.spoilt + {b.io.key}
                  else if b.io.dirty then s.spoilt - {b.io.key} else s.spoilt;
    Update(s, p, Holds(id, key, false), id, b.(io := io)).(disk := disk, spoilt := spoilt)
  }

  function Do(s: State, a: Step): State
    requires Shape(s) && Enabled(s, a)
  {
    var p := a.p;
    var pc := s.procs[p];
    match a
    case GetStep(_, key) =>
      var (slots, id) := Get(s.order, s.slots, key).value;
      s.(slots := slots, procs := s.procs[p := Wants(id, key)])
    case LockStep(_) => s.(procs := s.procs[p := Locked(pc.id, pc.key)])
    case LoadStep(_, fault) =>
      if s.slots[pc.id].io.valid then s.(procs := s.procs[p := Holds(pc.id, pc.key, false)])
      else Transfer(s, p, pc.id, pc.key, fault)
    case ChangeStep(_, data) =>
      var b := s.slots[pc.id];
      Update(s, p, pc.(changed := true), pc.id, b.(io := b.io.(data := data)))
    case MarkStep(_) =>
      var b := s.slots[pc.id];
      Update(s, p, Writes(pc.id, pc.key), pc.id, b.(io := b.io.(dirty := true)))
    case WriteStep(_, fault) => Transfer(s, p, pc.id, pc.key, fault)
    case UnlockStep(_) => s.(procs := s.procs[p := Leaves(pc.id)])
    case LeaveStep(_) =>
      var b := s.slots[pc.id];
      var t := Update(s, p, Idle, pc.id, b.(refcnt := b.refcnt - 1));
      if b.refcnt > 1 then t
      else t.(order := ToFront(s.order, IndexOf(s.order, pc.id)), log := s.log + [pc.id])
  }

  ghost predicate Run(ss: seq<State>, steps: seq<Step>)
  {
    && |ss| == |steps| + 1
    && forall i | 0 <= i < |steps| :: Shape(ss[i]) && Enabled(ss[i], steps[i]) && ss[i + 1] == Do(ss[i], steps[i])
  }

  // --------------------------------------------------------------- what every step keeps

  function Users(procs: map<Pid, Pc>, id: Id): set<Pid> { set p | p in procs && Uses(procs[p], id) }

  /** Of a referenced buffer, one process at most owns the lock, and each user has the key it asked for. */
  ghost predicate ProcOk(s: State, p: Pid)
    requires Shape(s) && p in s.procs
  {
    var pc := s.procs[p];
    && (!pc.Idle? && !pc.Leaves? ==> s.slots[pc.id].io.key == pc.key)
    && (pc.Holds? || pc.Writes? ==> s.slots[pc.id].io.valid)
    && (pc.Writes? ==> s.slots[pc.id].io.dirty)
  }

  ghost predicate Exclusive(s: State)
  {
    forall p, q, id | p in s.procs && q in s.procs && Owns(s.procs[p], id) && Owns(s.procs[q], id) :: p == q
  }

  ghost predicate Someone(s: State, id: Id) { exists p | p in s.procs :: Ahead(s.procs[p], id) }

  ghost predicate Writer(s: State, id: Id) { exists p | p in s.procs :: Owns(s.procs[p], id) && s.procs[p].Writes? }

  ghost predicate SlotOk(s: State, id: Id)
    requires id < |s.slots|
  {
    var b := s.slots[id];
    && b.refcnt == |Users(s.procs, id)|
    && (b.io.dirty ==> Writer(s, id))
    && (b.io.valid && !Someone(s, id) && b.io.key !in s.spoilt ==> b.io.data == s.disk(b.io.key))
  }

  predicate Fresh(b: Slot) { b.refcnt == 0 && !b.io.valid && !b.io.dirty }

  /** Two buffers share a key only if it is the zero key they all start with, and then the later one
      of the list has not been used yet. */
  ghost predicate UniqueAt(s: State, i: nat, j: nat)
    requires Shape(s) && i < j < |s.order|
  {
    var b, c := s.slots[s.order[i]], s.slots[s.order[j]];
    b.io.key == c.io.key ==> b.io.key == ZERO && Fresh(c)
  }

  ghost predicate Unique(s: State)
    requires Shape(s)
  {
    forall i, j | 0 <= i < j < |s.order| :: UniqueAt(s, i, j)
  }

  /** When a buffer was last released, counting from 1; 0 if never. */
  function LastRelease(log: seq<Id>, id: Id): (r: nat)
    ensures r <= |log|
  {
    if log == [] then 0 else if log[|log| - 1] == id then |log| else LastRelease(log[..|log| - 1], id)
  }

  ghost predicate Recent(order: seq<Id>, log: seq<Id>)
  {
    forall i, j | 0 <= i < j < |order| :: LastRelease(log, order[i]) >= LastRelease(log, order[j])
  }

  ghost predicate Inv(s: State)
  {
    && Shape(s) && Exclusive(s) && Unique(s) && Recent(s.order, s.log)
    && (forall p | p in s.procs :: ProcOk(s, p))
    && (forall id | 0 <= id < |s.slots| :: SlotOk(s, id))
  }

  ghost predicate Init(s: State)
  {
    && Shape(s) && s.log == [] && s.spoilt == {}
    && (forall p | p in s.procs :: s.procs[p].Idle?)
    && (forall id | 0 <= id < |s.slots| :: Fresh(s.slots[id]) && s.slots[id].io.key == ZERO)
  }

  // --------------------------------------------------------------- counting users

  lemma UsersAdd(procs: map<Pid, Pc>, p: Pid, pc: Pc, id: Id)
    requires p in procs && !Uses(procs[p], id) && Uses(pc, id)
    ensures |Users(procs[p := pc], id)| == |Users(procs, id)| + 1
  {
    assert Users(procs[p := pc], id) == Users(procs, id) + {p};
  }

  lemma UsersDrop(procs: map<Pid, Pc>, p: Pid, pc: Pc, id: Id)
    requires p in procs && Uses(procs[p], id) && !Uses(pc, id)
    ensures |Users(procs[p := pc], id)| == |Users(procs, id)| - 1
  {
    assert Users(procs[p := pc], id) == Users(procs, id) - {p};
  }

  lemma UsersSame(procs: map<Pid, Pc>, p: Pid, pc: Pc, id: Id)
    requires p in procs && (Uses(procs[p], id) <==> Uses(pc, id))
    ensures Users(procs[p := pc], id) == Users(procs, id)
  {
  }

  lemma Referenced(s: State, p: Pid)
    requires Inv(s) && p in s.procs && !s.procs[p].Idle?
    ensures s.slots[s.procs[p].id].refcnt > 0
  {
    var id := s.procs[p].id;
    assert SlotOk(s, id);
    assert p in Users(s.procs, id);
  }

  lemma Unreferenced(s: State, id: Id, p: Pid)
    requires Inv(s) && id < |s.slots| && s.slots[id].refcnt == 0 && p in s.procs
    ensures !Uses(s.procs[p], id)
  {
    assert SlotOk(s, id);
    assert Users(s.procs, id) == {};
    assert p !in Users(s.procs, id);
  }

  /** While a buffer is referenced, no other buffer holds a copy of its block. */
  lemma OthersInvalid(s: State, id: Id, other: Id)
    requires Inv(s) && id < |s.slots| && other < |s.slots| && id != other && s.slots[id].refcnt > 0
    requires s.slots[id].io.key == s.slots[other].io.key
    ensures Fresh(s.slots[other])
  {
    var i, j := IndexOf(s.order, id), IndexOf(s.order, other);
    assert i < j ==> UniqueAt(s, i, j);
    assert j < i ==> UniqueAt(s, j, i);
  }

  // --------------------------------------------------------------- one slot at a time

  /** A slot the moving process does not touch. */
  lemma SlotFrame(s: State, t: State, p: Pid, pc: Pc, i: Id)
    requires p in s.procs && t.procs == s.procs[p := pc] && i < |s.slots| && i < |t.slots| && t.slots[i] == s.slots[i]
    requires !Uses(s.procs[p], i) && !Uses(pc, i) && SlotOk(s, i)
    requires s.slots[i].io.valid ==> t.disk(s.slots[i].io.key) == s.disk(s.slots[i].io.key)
    requires s.slots[i].io.valid ==> (s.slots[i].io.key in s.spoilt ==> s.slots[i].io.key in t.spoilt)
    ensures SlotOk(t, i)
  {
    UsersSame(s.procs, p, pc, i);
    if Writer(s, i) {
      var q :| q in s.procs && Owns(s.procs[q], i) && s.procs[q].Writes?;
      assert q in t.procs && Owns(t.procs[q], i);
    }
    if Someone(s, i) {
      var q :| q in s.procs && Ahead(s.procs[q], i);
      assert q in t.procs && Ahead(t.procs[q], i);
    }
  }

  /** Another user of p's slot: no second owner. */
  lemma NotOwner(s: State, p: Pid, q: Pid)
    requires Inv(s) && p in s.procs && q in s.procs && p != q && IsOwner(s.procs[p])
    ensures !Owns(s.procs[q], s.procs[p].id)
  {
  }

  /** What an owner knows of its buffer: clean unless it is writing, and the block's contents unless
      it changed them. */
  lemma OwnerKnows(s: State, p: Pid)
    requires Inv(s) && p in s.procs && IsOwner(s.procs[p])
    ensures var b := s.slots[s.procs[p].id].io;
      && (b.dirty ==> s.procs[p].Writes?)
      && (b.valid && !Ahead(s.procs[p], s.procs[p].id) && b.key !in s.spoilt ==> b.data == s.disk(b.key))
  {
    var id := s.procs[p].id;
    assert SlotOk(s, id);
    forall q | q in s.procs && q != p ensures !Owns(s.procs[q], id) { NotOwner(s, p, q); }
  }

  /** The steps of an owner: p stays on its buffer, which keeps its key and reference count. */
  lemma OwnerMoves(s: State, t: State, p: Pid, pc: Pc, io: Ide.Buf)
    requires Inv(s) && p in s.procs && IsOwner(s.procs[p])
    requires var id := s.procs[p].id;
      && io.key == s.slots[id].io.key && (s.slots[id].io.valid ==> io.valid)
      && t.order == s.order && t.log == s.log && t.procs == s.procs[p := pc]
      && t.slots == s.slots[id := s.slots[id].(io := io)]
      && (forall k | k != io.key :: t.disk(k) == s.disk(k) && (k in s.spoilt ==> k in t.spoilt))
      && Uses(pc, id) && (Owns(pc, id) || pc.Leaves?)
      && (!pc.Leaves? ==> pc.key == s.procs[p].key)
      && (pc.Holds? || pc.Writes? ==> io.valid) && (pc.Writes? <==> io.dirty)
      && (io.valid && !Ahead(pc, id) && io.key !in t.spoilt ==> io.data == t.disk(io.key))
    ensures Inv(t)
  {
    var id := s.procs[p].id;
    Referenced(s, p);
    assert Shape(t);
    assert Exclusive(t) by {
      forall q | q in s.procs && q != p ensures !Owns(s.procs[q], id) { NotOwner(s, p, q); }
    }
    assert Unique(t) by {
      forall i, j | 0 <= i < j < |t.order| ensures UniqueAt(t, i, j) { assert UniqueAt(s, i, j); }
    }
    forall q | q in t.procs ensures ProcOk(t, q) {
      assert ProcOk(s, q) && ProcOk(s, p);
      if q != p { NotOwner(s, p, q); }
    }
    forall i | 0 <= i < |t.slots| ensures SlotOk(t, i) {
      assert SlotOk(s, i);
      if i != id {
        if s.slots[i].io.key == io.key { OthersInvalid(s, id, i); }
        SlotFrame(s, t, p, pc, i);
      } else {
        UsersSame(s.procs, p, pc, id);
        assert t.procs[p] == pc && p in t.procs;
      }
    }
  }

  // --------------------------------------------------------------- the steps keep the invariant

  lemma LockSlot(s: State, t: State, p: Pid)
    requires p in s.procs && s.procs[p].Wants? && s.procs[p].id < |s.slots|
    requires t == s.(procs := s.procs[p := Locked(s.procs[p].id, s.procs[p].key)]) && SlotOk(s, s.procs[p].id)
    ensures SlotOk(t, s.procs[p].id)
  {
    var id := s.procs[p].id;
    UsersSame(s.procs, p, Locked(id, s.procs[p].key), id);
    if Writer(s, id) {
      var q :| q in s.procs && Owns(s.procs[q], id) && s.procs[q].Writes?;
      assert q in t.procs && Owns(t.procs[q], id);
    }
    if Someone(s, id) {
      var q :| q in s.procs && Ahead(s.procs[q], id);
      assert q in t.procs && Ahead(t.procs[q], id);
    }
  }

  lemma LockInv(s: State, a: Step)
    requires Inv(s) && a.LockStep? && Enabled(s, a)
    ensures Inv(Do(s, a))
  {
    var p := a.p;
    var id, pc, t := s.procs[p].id, Locked(s.procs[p].id, s.procs[p].key), Do(s, a);
    assert Unique(t) by {
      forall i, j | 0 <= i < j < |t.order| ensures UniqueAt(t, i, j) { assert UniqueAt(s, i, j); }
    }
    forall q | q in t.procs ensures ProcOk(t, q) { assert ProcOk(s, q) && ProcOk(s, p); }
    forall i | 0 <= i < |t.slots| ensures SlotOk(t, i) {
      assert SlotOk(s, i);
      if i != id { SlotFrame(s, t, p, pc, i); } else { LockSlot(s, t, p); }
    }
  }

  lemma OwnerInv(s: State, a: Step)
    requires Inv(s) && (a.LoadStep? || a.ChangeStep? || a.MarkStep? || a.WriteStep? || a.UnlockStep?) && Enabled(s, a)
    ensures Inv(Do(s, a))
  {
    var p := a.p;
    var id, t := s.procs[p].id, Do(s, a);
    assert ProcOk(s, p);
    OwnerKnows(s, p);
    OwnerMoves(s, t, p, t.procs[p], t.slots[id].io);
  }

  /** A process that owns nothing before or after does not change who owns a buffer. */
  lemma SameOwners(s: State, t: State, p: Pid, id: Id)
    requires p in s.procs && p in t.procs && t.procs == s.procs[p := t.procs[p]]
    requires !IsOwner(s.procs[p]) && !IsOwner(t.procs[p])
    ensures Someone(t, id) <==> Someone(s, id)
    ensures Writer(t, id) <==> Writer(s, id)
  {
    if Writer(s, id) {
      var q :| q in s.procs && Owns(s.procs[q], id) && s.procs[q].Writes?;
      assert q in t.procs && Owns(t.procs[q], id);
    }
    if Someone(s, id) {
      var q :| q in s.procs && Ahead(s.procs[q], id);
      assert q in t.procs && Ahead(t.procs[q], id);
    }
  }

  lemma GetFound(s: State, p: Pid, key: Key, i: nat)
    requires Inv(s) && p in s.procs && s.procs[p].Idle? && Lookup(s.order, s.slots, key) == Some(i)
    ensures Enabled(s, GetStep(p, key)) && Inv(Do(s, GetStep(p, key)))
  {
    hide Lookup, Victim, LastRelease, Recent, Transfer, Ahead;
    var t, id := Do(s, GetStep(p, key)), s.order[i];
    var pc := Wants(id, key);
    assert Unique(t) by {
      forall m, n | 0 <= m < n < |t.order| ensures UniqueAt(t, m, n) {
        assert UniqueAt(s, m, n);
        assert s.order[n] == id ==> n == i;
      }
    }
    forall q | q in t.procs ensures ProcOk(t, q) { assert ProcOk(s, q); }
    forall m | 0 <= m < |t.slots| ensures SlotOk(t, m) {
      assert SlotOk(s, m);
      if m != id {
        SlotFrame(s, t, p, pc, m);
      } else {
        UsersAdd(s.procs, p, pc, id);
        SameOwners(s, t, p, id);
      }
    }
  }

  lemma GetVictim(s: State, p: Pid, key: Key, i: nat)
    requires Inv(s) && p in s.procs && s.procs[p].Idle?
    requires Lookup(s.order, s.slots, key).None? && Victim(s.order, s.slots) == Some(i)
    ensures Enabled(s, GetStep(p, key)) && Inv(Do(s, GetStep(p, key)))
  {
    hide Lookup, Victim, LastRelease, Recent, Transfer, Ahead;
    var t, id := Do(s, GetStep(p, key)), s.order[i];
    var pc := Wants(id, key);
    assert Unique(t) by {
      forall m, n | 0 <= m < n < |t.order| ensures UniqueAt(t, m, n) { assert UniqueAt(s, m, n); }
    }
    forall q | q in t.procs ensures ProcOk(t, q) {
      assert ProcOk(s, q);
      Unreferenced(s, id, q);
    }
    forall m | 0 <= m < |t.slots| ensures SlotOk(t, m) {
      assert SlotOk(s, m);
      if m != id { SlotFrame(s, t, p, pc, m); } else { UsersAdd(s.procs, p, pc, id); }
    }
  }

  lemma GetInv(s: State, a: Step)
    requires Inv(s) && a.GetStep? && Enabled(s, a)
    ensures Inv(Do(s, a))
  {
    match Lookup(s.order, s.slots, a.key)
    case Some(i) => GetFound(s, a.p, a.key, i);
    case None => GetVictim(s, a.p, a.key, Victim(s.order, s.slots).value);
  }

  // --------------------------------------------------------------- releasing

  lemma ToFrontAt(order: seq<Id>, i: nat)
    requires i < |order|
    ensures var o := ToFront(order, i);
      && |o| == |order| && o[0] == order[i]
      && (forall k | 1 <= k <= i :: o[k] == order[k - 1]) && (forall k | i < k < |o| :: o[k] == order[k])
  {
  }

  /** Where an entry of the new list was in the old one. */
  function Was(i: nat, k: nat): nat { if k == 0 then i else if k <= i then k - 1 else k }

  lemma ToFrontShape(s: State, i: nat)
    requires Shape(s) && i < |s.order|
    ensures Shape(s.(order := ToFront(s.order, i)))
  {
    hide ToFront;
    ToFrontAt(s.order, i);
    var o := ToFront(s.order, i);
    assert forall k | 0 <= k < |o| :: o[k] == s.order[Was(i, k)];
    forall id | 0 <= id < |s.slots| ensures id in o {
      var k := IndexOf(s.order, id);
      var k' := if k == i then 0 else if k < i then k + 1 else k;
      assert o[k'] == id;
    }
  }

  lemma ToFrontRecent(order: seq<Id>, log: seq<Id>, i: nat)
    requires Recent(order, log) && i < |order| && forall j, k | 0 <= j < k < |order| :: order[j] != order[k]
    ensures Recent(ToFront(order, i), log + [order[i]])
  {
  }

  /** Dropping a reference, without moving the buffer. */
  lemma DropInv(s: State, p: Pid)
    requires Inv(s) && p in s.procs && s.procs[p].Leaves?
    ensures var id := s.procs[p].id;
      s.slots[id].refcnt > 0 && Inv(Update(s, p, Idle, id, s.slots[id].(refcnt := s.slots[id].refcnt - 1)))
  {
    Referenced(s, p);
    var id := s.procs[p].id;
    var t := Update(s, p, Idle, id, s.slots[id].(refcnt := s.slots[id].refcnt - 1));
    assert Unique(t) by {
      forall m, n | 0 <= m < n < |t.order| ensures UniqueAt(t, m, n) { assert UniqueAt(s, m, n); }
    }
    forall q | q in t.procs ensures ProcOk(t, q) { assert ProcOk(s, q); }
    forall m | 0 <= m < |t.slots| ensures SlotOk(t, m) {
      assert SlotOk(s, m);
      if m != id {
        SlotFrame(s, t, p, Idle, m);
      } else {
        UsersDrop(s.procs, p, Idle, id);
        SameOwners(s, t, p, id);
      }
    }
  }

  /** Moving a buffer to the front when no earlier one shares its key. */
  lemma FrontInv(s: State, i: nat)
    requires Inv(s) && i < |s.order|
    requires forall k | 0 <= k < i :: s.slots[s.order[k]].io.key != s.slots[s.order[i]].io.key
    ensures Inv(s.(order := ToFront(s.order, i), log := s.log + [s.order[i]]))
  {
    hide ToFront, LastRelease;
    var t := s.(order := ToFront(s.order, i), log := s.log + [s.order[i]]);
    ToFrontShape(s, i);
    ToFrontRecent(s.order, s.log, i);
    ToFrontAt(s.order, i);
    assert Unique(t) by {
      forall m, n | 0 <= m < n < |t.order| ensures UniqueAt(t, m, n) {
        assert t.order[m] == s.order[Was(i, m)] && t.order[n] == s.order[Was(i, n)];
        if Was(i, m) < Was(i, n) { assert UniqueAt(s, Was(i, m), Was(i, n)); }
      }
    }
    forall q | q in t.procs ensures ProcOk(t, q) { assert ProcOk(s, q); }
    forall m | 0 <= m < |t.slots| ensures SlotOk(t, m) { assert SlotOk(s, m); }
  }

  lemma LeaveInv(s: State, a: Step)
    requires Inv(s) && a.LeaveStep? && Enabled(s, a)
    ensures Inv(Do(s, a))
  {
    hide ToFront, LastRelease;
    var p := a.p;
    var id := s.procs[p].id;
    Referenced(s, p);
    DropInv(s, p);
    if s.slots[id].refcnt == 1 {
      var t := Update(s, p, Idle, id, s.slots[id].(refcnt := 0));
      var i := IndexOf(s.order, id);
      forall k | 0 <= k < i ensures s.slots[s.order[k]].io.key != s.slots[id].io.key { assert UniqueAt(s, k, i); }
      FrontInv(t, i);
    }
  }

  lemma DoInv(s: State, a: Step)
    requires Inv(s) && Enabled(s, a)
    ensures Inv(Do(s, a))
  {
    match a
    case GetStep(_, _) => GetInv(s, a);
    case LockStep(_) => LockInv(s, a);
    case LeaveStep(_) => LeaveInv(s, a);
    case _ => OwnerInv(s, a);
  }

  lemma InitInv(s: State)
    requires Init(s)
    ensures Inv(s)
  {
  }

  lemma {:induction false} RunInv(ss: seq<State>, steps: seq<Step>, i: nat)
    requires Run(ss, steps) && Init(ss[0]) && i < |ss|
    ensures Inv(ss[i])
  {
    if i == 0 {
      InitInv(ss[0]);
    } else {
      RunInv(ss, steps, i - 1);
      DoInv(ss[i - 1], steps[i - 1]);
    }
  }

  // --------------------------------------------------------------- the promises

  lemma SoleOwner(s: State, p: Pid, q: Pid)
    requires Inv(s) && p in s.procs && q in s.procs && IsOwner(s.procs[p]) && IsOwner(s.procs[q])
    requires s.procs[p].key == s.procs[q].key
    ensures p == q
  {
    hide Recent, Unique, UniqueAt;
    assert ProcOk(s, p) && ProcOk(s, q);
    Referenced(s, p);
    Referenced(s, q);
    if s.procs[q].id != s.procs[p].id {
      OthersInvalid(s, s.procs[p].id, s.procs[q].id);
      assert false;
    }
    assert Owns(s.procs[p], s.procs[q].id) && Owns(s.procs[q], s.procs[q].id);
  }

  /** The end of a bread: the caller alone holds a buffer of that block, with the disk's contents unless
      the block is spoilt. */
  lemma LoadFacts(ss: seq<State>, steps: seq<Step>, i: nat)
    requires Run(ss, steps) && Init(ss[0]) && i < |steps| && steps[i].LoadStep?
    ensures var p, s := steps[i].p, ss[i + 1];
      && s.procs[p].Holds? && s.procs[p].key == ss[i].procs[p].key && s.procs[p].id < |s.slots|
      && var key, io := s.procs[p].key, s.slots[s.procs[p].id].io;
      && io.key == key && io.valid && (key !in s.spoilt ==> io.data == s.disk(key))
      && (forall k :: s.disk(k) == ss[i].disk(k)) && ss[i].spoilt <= s.spoilt
      && (forall q | q in s.procs && IsOwner(s.procs[q]) && s.procs[q].key == key :: q == p)
  {
    RunInv(ss, steps, i);
    RunInv(ss, steps, i + 1);
    var p, s := steps[i].p, ss[i + 1];
    assert s == Do(ss[i], steps[i]);
    assert ProcOk(s, p) && ProcOk(ss[i], p);
    OwnerKnows(s, p);
    OwnerKnows(ss[i], p);
    forall q | q in s.procs && IsOwner(s.procs[q]) && s.procs[q].key == s.procs[p].key ensures q == p {
      SoleOwner(s, p, q);
    }
  }

  /** The block and the data that a bwrite step of p writes. */
  ghost function Written(s: State, p: Pid): (Key, Data)
    requires Shape(s) && p in s.procs && s.procs[p].Writes?
  {
    (s.procs[p].key, s.slots[s.procs[p].id].io.data)
  }

  /** bwrite puts the holder's data on its block exactly if no fault harms it, and touches no other block. */
  lemma BwriteWrites(ss: seq<State>, steps: seq<Step>, i: nat)
    requires Run(ss, steps) && Init(ss[0]) && i < |steps| && steps[i].WriteStep?
    ensures var s, t := ss[i], ss[i + 1];
      var (key, data) := Written(s, steps[i].p);
      && (t.disk(key) == data <==> key !in t.spoilt)
      && (key in t.spoilt <==> steps[i].fault.Some? && steps[i].fault.value != data)
      && (forall k | k != key :: t.disk(k) == s.disk(k) && (k in t.spoilt <==> k in s.spoilt))
  {
    RunInv(ss, steps, i);
    assert ss[i + 1] == Do(ss[i], steps[i]);
    assert ProcOk(ss[i], steps[i].p);
  }

  /** The data of the last bwrite of the block in the first i steps, or what the disk had at the start. */
  ghost function LastWritten(ss: seq<State>, steps: seq<Step>, key: Key, i: nat): Data
    requires Run(ss, steps) && i < |ss|
  {
    if i == 0 then ss[0].disk(key)
    else if steps[i - 1].WriteStep? && Written(ss[i - 1], steps[i - 1].p).0 == key then
      Written(ss[i - 1], steps[i - 1].p).1
    else LastWritten(ss, steps, key, i - 1)
  }

  lemma DiskUntouched(s: State, a: Step)
    requires Shape(s) && Enabled(s, a) && !a.WriteStep? && !a.LoadStep?
    ensures Do(s, a).disk == s.disk && Do(s, a).spoilt == s.spoilt
  {
  }

  /** A block that is not spoilt holds what was last written to it. */
  lemma {:induction false} DiskIsLastWritten(ss: seq<State>, steps: seq<Step>, key: Key, i: nat)
    requires Run(ss, steps) && Init(ss[0]) && i < |ss| && key !in ss[i].spoilt
    ensures ss[i].disk(key) == LastWritten(ss, steps, key, i)
  {
    hide Do, Init;
    if i > 0 {
      var a := steps[i - 1];
      if a.WriteStep? {
        BwriteWrites(ss, steps, i - 1);
        if Written(ss[i - 1], a.p).0 != key { DiskIsLastWritten(ss, steps, key, i - 1); }
      } else {
        if a.LoadStep? { LoadFacts(ss, steps, i - 1); } else { DiskUntouched(ss[i - 1], a); }
        DiskIsLastWritten(ss, steps, key, i - 1);
      }
    }
  }

  /** In every run, what a process reads with bread is what the last bwrite of that block put there, unless a
      fault harmed a transfer of the block since; and nobody else has a buffer of it. */
  lemma BreadReturnsLastWritten(ss: seq<State>, steps: seq<Step>, i: nat)
    requires Run(ss, steps) && Init(ss[0]) && i < |steps| && steps[i].LoadStep?
    ensures var p, s := steps[i].p, ss[i + 1];
      && s.procs[p].Holds? && s.procs[p].key == ss[i].procs[p].key && s.procs[p].id < |s.slots|
      && var key, io := s.procs[p].key, s.slots[s.procs[p].id].io;
      && io.key == key && io.valid && (key !in s.spoilt ==> io.data == LastWritten(ss, steps, key, i))
      && (forall q | q in s.procs && IsOwner(s.procs[q]) && s.procs[q].key == key :: q == p)
  {
    hide Init;
    LoadFacts(ss, steps, i);
    var key := ss[i].procs[steps[i].p].key;
    if key !in ss[i + 1].spoilt { DiskIsLastWritten(ss, steps, key, i); }
  }

  /** Over a disk that never fails nothing is spoilt. */
  lemma {:induction false} NothingSpoilt(ss: seq<State>, steps: seq<Step>, i: nat)
    requires Run(ss, steps) && Init(ss[0]) && i < |ss|
    requires forall j | 0 <= j < |steps| :: (steps[j].LoadStep? || steps[j].WriteStep?) ==> steps[j].fault.None?
    ensures ss[i].spoilt == {}
  {
    if i > 0 {
      NothingSpoilt(ss, steps, i - 1);
      assert ss[i] == Do(ss[i - 1], steps[i - 1]);
    }
  }

  /** The list stays a permutation of all buffers, a block has one buffer at most, and every count is
      the number of processes between bget and the end of brelse on that buffer. */
  lemma Bookkeeping(ss: seq<State>, steps: seq<Step>, i: nat)
    requires Run(ss, steps) && Init(ss[0]) && i < |ss|
    ensures var s := ss[i];
      && Shape(s)
      && (forall b | 0 <= b < |s.slots| :: s.slots[b].refcnt == |Users(s.procs, b)|)
      && (forall b, c | 0 <= b < |s.slots| && 0 <= c < |s.slots| && b != c && s.slots[b].io.key == s.slots[c].io.key ::
            s.slots[b].io.key == ZERO && (Fresh(s.slots[b]) || Fresh(s.slots[c])))
  {
    RunInv(ss, steps, i);
    var s := ss[i];
    forall b | 0 <= b < |s.slots| ensures s.slots[b].refcnt == |Users(s.procs, b)| { assert SlotOk(s, b); }
    forall b, c | 0 <= b < |s.slots| && 0 <= c < |s.slots| && b != c && s.slots[b].io.key == s.slots[c].io.key
      ensures s.slots[b].io.key == ZERO && (Fresh(s.slots[b]) || Fresh(s.slots[c]))
    {
      var m, n := IndexOf(s.order, b), IndexOf(s.order, c);
      assert m < n ==> UniqueAt(s, m, n);
      assert n < m ==> UniqueAt(s, n, m);
    }
  }

  lemma Oldest(s: State, k: nat)
    requires Shape(s) && Recent(s.order, s.log) && Victim(s.order, s.slots) == Some(k)
    ensures forall c | 0 <= c < |s.slots| && Unused(s.slots[c]) ::
      LastRelease(s.log, s.order[k]) <= LastRelease(s.log, c)
  {
    hide LastRelease;
    forall c | 0 <= c < |s.slots| && Unused(s.slots[c])
      ensures LastRelease(s.log, s.order[k]) <= LastRelease(s.log, c)
    {
      var j := IndexOf(s.order, c);
      assert j <= k;
    }
  }

  /** A buffer is taken away from its block only if nobody references it, it is clean, and no other
      such buffer was released longer ago. */
  lemma VictimIsOldest(ss: seq<State>, steps: seq<Step>, i: nat, b: Id)
    requires Run(ss, steps) && Init(ss[0]) && i < |steps| && b < |ss[i].slots| && b < |ss[i + 1].slots|
    requires ss[i + 1].slots[b].io.key != ss[i].slots[b].io.key
    ensures Unused(ss[i].slots[b])
    ensures forall c | 0 <= c < |ss[i].slots| && Unused(ss[i].slots[c]) ::
      LastRelease(ss[i].log, b) <= LastRelease(ss[i].log, c)
  {
    hide LastRelease, Lookup, Victim, Unique, Exclusive, ProcOk, SlotOk, Recent;
    RunInv(ss, steps, i);
    var s := ss[i];
    assert Shape(s) && Enabled(s, steps[i]) && ss[i + 1] == Do(s, steps[i]);
    var k := Victim(s.order, s.slots).value;
    assert s.order[k] == b;
    Oldest(s, k);
  }

  // --------------------------------------------------------------- the list

  const NBUF := 30
  const HEAD := NBUF

  /** The ring: the head, the buffers in order, and the head again. */
  function At(order: seq<Id>, k: nat): (n: nat)
    requires k <= |order| + 1
  {
    if 1 <= k <= |order| then order[k - 1] else HEAD
  }

  ghost predicate LinkAt(next: seq<nat>, prev: seq<nat>, order: seq<Id>, k: nat)
    requires k <= |order|
  {
    var a, b := At(order, k), At(order, k + 1);
    a < |next| && b < |prev| && next[a] == b && prev[b] == a
  }

  /** The links spell the list in both directions. */
  ghost predicate Links(next: seq<nat>, prev: seq<nat>, order: seq<Id>)
  {
    && |next| == |prev| == NBUF + 1
    && (forall i | 0 <= i < |order| :: order[i] < NBUF)
    && (forall i, j | 0 <= i < j < |order| :: order[i] != order[j])
    && (forall k | 0 <= k <= |order| :: LinkAt(next, prev, order, k))
  }

  lemma InsertLinks(next: seq<nat>, prev: seq<nat>, order: seq<Id>, b: Id)
    requires Links(next, prev, order) && b < NBUF && b !in order
    ensures next[HEAD] < |prev|
    ensures Links(next[b := next[HEAD]][HEAD := b], prev[b := HEAD][next[HEAD] := b], [b] + order)
  {
    assert LinkAt(next, prev, order, 0);
    var f, o := next[HEAD], [b] + order;
    var next', prev' := next[b := f][HEAD := b], prev[b := HEAD][f := b];
    forall k | 0 <= k <= |o| ensures LinkAt(next', prev', o, k) {
      if k >= 2 {
        assert LinkAt(next, prev, order, k - 1);
        assert At(o, k) == At(order, k - 1) && At(o, k + 1) == At(order, k);
        assert At(order, k) != f by { assert f == At(order, 1); }
      } else if k == 1 {
        assert At(o, 2) == At(order, 1) == f;
      }
    }
  }

  lemma RemoveLinks(next: seq<nat>, prev: seq<nat>, order: seq<Id>, i: nat)
    requires Links(next, prev, order) && i < |order|
    ensures var b := order[i];
      && next[b] < |prev| && prev[b] < |next|
      && Links(next[prev[b] := next[b]], prev[next[b] := prev[b]], order[..i] + order[i + 1..])
  {
    var b, o := order[i], order[..i] + order[i + 1..];
    assert LinkAt(next, prev, order, i) && LinkAt(next, prev, order, i + 1);
    var next', prev' := next[prev[b] := next[b]], prev[next[b] := prev[b]];
    forall k | 0 <= k <= |o| ensures LinkAt(next', prev', o, k) {
      var k' := if k < i then k else k + 1;
      assert LinkAt(next, prev, order, k');
      assert At(o, k) == At(order, if k <= i then k else k + 1) && At(o, k + 1) == At(order, k' + 1);
    }
  }

  lemma LinksFacts(next: seq<nat>, prev: seq<nat>, order: seq<Id>, i: nat)
    requires Links(next, prev, order) && i < |order|
    ensures |next| == |prev| == NBUF + 1 && order[i] < NBUF && next[order[i]] != order[i] && prev[order[i]] != order[i]
    ensures order[i] !in order[..i] + order[i + 1..]
  {
    assert LinkAt(next, prev, order, i) && LinkAt(next, prev, order, i + 1);
  }

  lemma FrontKeeps(order: seq<Id>, i: nat, id: Id)
    requires i < |order| && id in order
    ensures id in ToFront(order, i)
  {
  }

  class Cache {
    const next: array<nat>
    const prev: array<nat>
    const slots: array<Slot>
    ghost var order: seq<Id>

    ghost predicate Valid()
      reads this, next, prev, slots
    {
      && slots.Length == NBUF && next != prev
      && Links(next[..], prev[..], order) && |order| == NBUF && (forall id | 0 <= id < NBUF :: id in order)
    }

    /** Links b in behind the head. */
    method Insert(b: Id)
      requires next != prev && Links(next[..], prev[..], order) && b < NBUF && b !in order
      modifies next, prev, `order
      ensures Links(next[..], prev[..], order) && order == [b] + old(order)
    {
      InsertLinks(next[..], prev[..], order, b);
      next[b] := next[HEAD];
      prev[b] := HEAD;
      prev[next[HEAD]] := b;
      next[HEAD] := b;
      order := [b] + order;
      assert next[..] == old(next[..])[b := old(next[HEAD])][HEAD := b];
      assert prev[..] == old(prev[..])[b := HEAD][old(next[HEAD]) := b];
    }

    /** binit: an empty ring, then each buffer at the front; all with the zero key. */
    constructor ()
      ensures Valid() && fresh(next) && fresh(prev) && fresh(slots)
      ensures forall id | 0 <= id < NBUF :: Fresh(slots[id]) && slots[id].io.key == ZERO
    {
      next := new nat[NBUF + 1](_ => HEAD);
      prev := new nat[NBUF + 1](_ => HEAD);
      slots := new Slot[NBUF](_ => Slot(Ide.Buf(ZERO, false, false, []), 0));
      order := [];
      new;
      assert LinkAt(next[..], prev[..], [], 0);
      for b := 0 to NBUF
        invariant Links(next[..], prev[..], order) && |order| == b && next != prev && slots.Length == NBUF
        invariant forall id :: id in order <==> 0 <= id < b
        invariant forall id | 0 <= id < NBUF :: Fresh(slots[id]) && slots[id].io.key == ZERO
      {
        Insert(b);
      }
    }

    /** bget up to its acquiresleep: a search forward for the block, then one backward for a victim. */
    method GetBuf(key: Key) returns (r: Option<Id>)
      requires Valid()
      modifies slots
      ensures Valid()
      ensures match Get(order, old(slots[..]), key)
        case Some((after, id)) => r == Some(id) && slots[..] == after
        case None => r.None? && slots[..] == old(slots[..])
    {
      hide Lookup, Victim;
      ghost var found, victim := Lookup(order, slots[..], key), Victim(order, slots[..]);
      assert LinkAt(next[..], prev[..], order, 0);
      var b := next[HEAD];
      ghost var k: nat := 0;
      while b != HEAD
        invariant k <= |order| && b == At(order, k + 1)
        invariant forall i | 0 <= i < k :: slots[order[i]].io.key != key
        decreases |order| - k
      {
        if slots[b].io.key == key {
          assert found == Some(k);
          slots[b] := slots[b].(refcnt := slots[b].refcnt + 1);
          return Some(b);
        }
        assert LinkAt(next[..], prev[..], order, k + 1);
        b, k := next[b], k + 1;
      }
      assert found.None?;
      k := |order|;
      assert LinkAt(next[..], prev[..], order, k);
      b := prev[HEAD];
      while b != HEAD
        invariant k <= |order| && b == At(order, k)
        invariant forall i | k <= i < |order| :: !Unused(slots[order[i]])
        decreases k
      {
        if slots[b].refcnt == 0 && !slots[b].io.dirty {
          assert victim == Some(k - 1);
          slots[b] := Assign(slots[b], key);
          return Some(b);
        }
        assert LinkAt(next[..], prev[..], order, k - 1);
        b, k := prev[b], k - 1;
      }
      return None;
    }

    /** Takes the entry i out of the list. */
    method Remove(b: Id, ghost i: nat)
      requires next != prev && Links(next[..], prev[..], order) && i < |order| && order[i] == b
      modifies next, prev, `order
      ensures Links(next[..], prev[..], order) && order == old(order)[..i] + old(order)[i + 1..] && b !in order
    {
      hide Links;
      LinksFacts(next[..], prev[..], order, i);
      RemoveLinks(next[..], prev[..], order, i);
      prev[next[b]] := prev[b];
      next[prev[b]] := next[b];
      order := order[..i] + order[i + 1..];
      assert next[..] == old(next[..])[old(prev[b]) := old(next[b])];
      assert prev[..] == old(prev[..])[old(next[b]) := old(prev[b])];
    }

    /** The end of brelse: one reference less, and to the front of the list when it was the last. */
    method Drop(b: Id)
      requires Valid() && b < NBUF && slots[b].refcnt > 0
      modifies next, prev, slots, `order
      ensures Valid()
      ensures slots[..] == old(slots[..])[b := old(slots[b]).(refcnt := old(slots[b]).refcnt - 1)]
      ensures order == if old(slots[b]).refcnt == 1 then ToFront(old(order), IndexOf(old(order), b)) else old(order)
    {
      slots[b] := slots[b].(refcnt := slots[b].refcnt - 1);
      if slots[b].refcnt == 0 {
        ghost var i := IndexOf(order, b);
        Remove(b, i);
        Insert(b);
        assert order == ToFront(old(order), i);
        forall id | 0 <= id < NBUF ensures id in order { FrontKeeps(old(order), i, id); }
      }
    }
  }
}
