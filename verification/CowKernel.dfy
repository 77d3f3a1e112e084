/** The in-place code of kernel/vspace.c, kernel/proc.c and kernel/trap.c over the core map, proved against
    the functions of CowSpace, CowMachine, CowSteps, CowFork and CowRuns. */
module CowKernel {
  import opened Types
  import opened CoreMap
  import opened CowSpace
  import opened CowMachine
  import opened CowView
  import opened CowSteps
  import opened CowFork
  import opened CowRuns
  import opened CowLoad
  import opened CowProgress

  datatype SlotResult = SlotFound | SlotNoMemory | SlotCrash

  lemma FreeNothing(ph: Phys)
    requires |ph.core| == |ph.data|
    ensures KfreeAll(ph, []) == ph
  {
  }

  ghost predicate CopyReady(rg: Region, n: nat)
  {
    ChunkShape(rg) && forall k | 0 <= k < |rg.slots| && rg.slots[k].used :: rg.slots[k].ppn < n
  }

  lemma CopyReadyAll(s: State, p: nat)
    requires Inv(s) && Live(s, p)
    ensures forall r | 0 <= r < |s.procs[p].value.regions| :: CopyReady(s.procs[p].value.regions[r], |s.ph.core|)
  {
    hide Total, RegionsClaims, PhysOk;
    RestAndOwn(s, p);
    var sp := s.procs[p].value;
    forall r | 0 <= r < |sp.regions| ensures CopyReady(sp.regions[r], |s.ph.core|) {
      assert RegionShape(sp.regions[r]);
      RegionBelow(sp, r, Rest(s, p));
      forall k | 0 <= k < |sp.regions[r].slots| && sp.regions[r].slots[k].used
        ensures sp.regions[r].slots[k].ppn < |s.ph.core|
      {
        SlotClaimed(sp.regions[r], k, All(s));
        LedgerBound(s.ph, All(s), sp.regions[r].slots[k].ppn);
      }
    }
  }

  /** Once the copy has stopped, the remaining regions are left as the first memmove made them. */
  lemma {:induction false} CopyStopped(ph: Phys, regions: seq<Region>, r: nat)
    requires r <= |regions| && forall i | 0 <= i < |regions| :: ChunkShape(regions[i])
    ensures var c := CopyRegions(ph, regions[..r]);
      r < |regions| && !c.ok ==>
        CopyRegions(ph, regions) == Copied(c.ph, c.src + regions[r..], c.dst + regions[r..], false)
    decreases |regions|
  {
    var n := |regions| - 1;
    if r < n {
      assert regions[..n][..r] == regions[..r];
      CopyStopped(ph, regions[..n], r);
      assert regions[r..] == regions[..n][r..] + [regions[n]];
    } else if r == n {
      assert regions[r..] == [regions[n]];
    }
  }

  lemma MapAppend(f: Vpi -> Vpi, a: seq<Vpi>, b: seq<Vpi>)
    ensures MapSlots(f, a + b) == MapSlots(f, a) + MapSlots(f, b)
  {
  }

  lemma ChunksAssoc(pages: seq<nat>, pg: nat, rest: seq<nat>)
    ensures pages + ([pg] + rest) == pages + [pg] + rest
  {
  }

  lemma {:induction false} KfreeAllAppend(ph: Phys, a: seq<nat>, b: seq<nat>)
    requires |ph.core| == |ph.data| && InRange(a, |ph.core|) && InRange(b, |ph.core|)
    ensures InRange(a + b, |ph.core|) && KfreeAll(ph, a + b) == KfreeAll(KfreeAll(ph, a), b)
    decreases a
  {
    if a == [] {
      assert a + b == b;
    } else {
      assert (a + b)[1..] == a[1..] + b;
      KfreeAllAppend(Kfree(ph, a[0]), a[1..], b);
    }
  }

  lemma ReapFacts(s: State, p: nat)
    requires Inv(s) && Live(s, p)
    ensures Reap(s, p).Done?
    ensures |s.ph.core| == |s.ph.data| && InRange(ReapList(s.procs[p].value), |s.ph.core|)
    ensures InRange(ChunkPages(s.procs[p].value.regions), |s.ph.core|)
    ensures InRange(MappedPages(s.procs[p].value.hw), |s.ph.core|)
    ensures InRange(s.procs[p].value.userTables + s.procs[p].value.kernTables + [s.procs[p].value.kstack], |s.ph.core|)
  {
    hide Inv, KfreeAll, ChunkPages, MappedPages;
    ReapRefines(s, p);
    var sp := s.procs[p].value;
    var a, b := ChunkPages(sp.regions), MappedPages(sp.hw);
    var c := sp.userTables + sp.kernTables + [sp.kstack];
    var l := ReapList(sp);
    assert l == a + b + c;
    forall i | 0 <= i < |a| ensures a[i] < |s.ph.core| { assert l[i] == a[i]; }
    forall i | 0 <= i < |b| ensures b[i] < |s.ph.core| { assert l[|a| + i] == b[i]; }
    forall i | 0 <= i < |c| ensures c[i] < |s.ph.core| { assert l[|a| + |b| + i] == c[i]; }
  }

  lemma {:induction false} ChunksInRange(regions: seq<Region>, r: nat, n: nat)
    requires r < |regions| && InRange(ChunkPages(regions), n)
    ensures InRange(regions[r].chunks, n)
  {
    var m := |regions| - 1;
    var a, b := ChunkPages(regions[..m]), regions[m].chunks;
    forall i | 0 <= i < |a| ensures a[i] < n { assert ChunkPages(regions)[i] == a[i]; }
    forall i | 0 <= i < |b| ensures b[i] < n { assert ChunkPages(regions)[|a| + i] == b[i]; }
    if r < m {
      ChunksInRange(regions[..m], r, n);
    }
  }

  lemma ExtendLabel(s: State, p: nat, r: nat, size': nat, need: nat)
    requires Live(s, p) && r < |s.procs[p].value.regions| && s.procs[p].value.regions[r].size <= size'
    ensures var o := Extend(s, p, r, size', need); o.Done? && |s.ph.core| == |s.ph.data| ==>
        o.did == if Grow(s.ph, s.procs[p].value.regions[r], size').Grew? then Grown(p, r, size') else Silent
  {
  }

  lemma FinishIgnoresMemory(s: State, s': State, p: nat, ph: Phys, sp: Space, need: nat, l: Label)
    requires s'.boot == s.boot && s'.procs == s.procs && p < |s.procs|
    ensures Finish(s, p, ph, sp, need, l) == Finish(s', p, ph, sp, need, l)
  {
  }

  lemma EmptyGrowReady(ph: Phys, rg: Region, size': nat, m: multiset<nat>)
    requires Ledger(ph, m) && rg == Region(rg.down, rg.base, 0, [], []) && Aligned(rg.down, rg.base, size')
    ensures GrowReady(ph, rg, size', m)
  {
    NoClaims(rg, m);
  }

  lemma StoreAllStep(data: seq<Page>, ps: seq<nat>, cs: seq<Page>, i: nat)
    requires |ps| == |cs| && InRange(ps, |data|) && i < |ps|
    ensures StoreAll(data, ps[i..], cs[i..]) == StoreAll(data[ps[i] := cs[i]], ps[i + 1..], cs[i + 1..])
  {
    assert ps[i..][1..] == ps[i + 1..] && cs[i..][1..] == cs[i + 1..];
  }

  lemma StoreNothing(data: seq<Page>)
    ensures StoreAll(data, [], []) == data
  {
  }

  lemma ProcFacts(s: State, p: nat)
    requires Inv(s) && Live(s, p)
    ensures RegionsShape(s.procs[p].value.regions) && SpaceShape(s.procs[p].value)
    ensures InRange(s.procs[p].value.userTables, |s.ph.core|) && |s.ph.core| == |s.ph.data|
  {
    hide RegionShape, Total, RegionsClaims, PhysOk;
    RestAndOwn(s, p);
    LedgerShape(s.ph, All(s));
    var t := s.procs[p].value.userTables;
    forall i | 0 <= i < |t| ensures t[i] < |s.ph.core| {
      assert t[i] in multiset(t) && t[i] in Claims(s.procs[p]);
      LedgerBound(s.ph, All(s), t[i]);
    }
  }

  /** A copy-on-write slot names an allocated page. */
  lemma FaultSlot(s: State, p: nat, r: nat, va: nat)
    requires Inv(s) && Live(s, p) && r < |s.procs[p].value.regions|
    requires var rg := s.procs[p].value.regions[r]; Contains(rg.down, rg.base, rg.size, va)
    ensures var rg := s.procs[p].value.regions[r];
      var k := SlotIndex(rg.down, rg.base, va);
      && k < |rg.slots|
      && (rg.slots[k].cow && !rg.slots[k].writable ==>
        && rg.slots[k].used && rg.slots[k].present
        && rg.slots[k].ppn < |s.ph.core| && s.ph.core[rg.slots[k].ppn].refCount >= 1
        && !s.ph.core[rg.slots[k].ppn].available)
  {
    hide Total, RegionsClaims, AvailableIn, AllocatedIn;
    RestAndOwn(s, p);
    var sp := s.procs[p].value;
    var rg := sp.regions[r];
    IndexInRange(rg.down, rg.base, rg.size, va);
    var k := SlotIndex(rg.down, rg.base, va);
    assert RegionShape(rg);
    assert SlotShape(rg.slots[k], k < Backed(rg.size));
    RegionBelow(sp, r, Rest(s, p));
    if rg.slots[k].used {
      SlotClaimed(rg, k, All(s));
      LedgerBound(s.ph, All(s), rg.slots[k].ppn);
    }
  }

  lemma ExtendReady(s: State, p: nat, r: nat, size': nat, need: nat)
    requires Inv(s) && Live(s, p) && r < |s.procs[p].value.regions|
    requires s.procs[p].value.regions[r].size <= size'
    requires Aligned(s.procs[p].value.regions[r].down, s.procs[p].value.regions[r].base, size')
    ensures GrowReady(s.ph, s.procs[p].value.regions[r], size', Rest(s, p) + Beside(s.procs[p].value, r))
    ensures |s.ph.core| == |s.ph.data| && InRange(s.procs[p].value.userTables, |s.ph.core|)
  {
    hide Ledger, Claims, RegionClaims, Rest, Beside, RegionShape;
    ProcFacts(s, p);
    RestAndOwn(s, p);
    var sp := s.procs[p].value;
    BesideSplit(sp, r, sp.regions[r]);
    assert Rest(s, p) + Claims(Some(sp)) == Rest(s, p) + Beside(sp, r) + RegionClaims(sp.regions[r]);
  }

  ghost function Prepend(pages: seq<nat>, r: (Phys, Option<seq<nat>>)): (Phys, Option<seq<nat>>)
  {
    (r.0, if r.1.None? then None else Some(pages + r.1.value))
  }

  lemma PrependNothing(r: (Phys, Option<seq<nat>>))
    ensures Prepend([], r) == r
  {
    if r.1.Some? {
      assert [] + r.1.value == r.1.value;
    }
  }

  lemma PrependMore(pages: seq<nat>, pg: nat, r: (Phys, Option<seq<nat>>))
    ensures Prepend(pages, (r.0, if r.1.None? then None else Some([pg] + r.1.value))) == Prepend(pages + [pg], r)
  {
    if r.1.Some? {
      assert pages + ([pg] + r.1.value) == pages + [pg] + r.1.value;
    }
  }

  ghost function Later(r: Added, i: nat): Added
  {
    if r.AddCrash? then r else Added(r.ph, r.rg, r.done + i)
  }

  /** Page i of a mapping that starts at address `start` belongs to slot first + i. */
  ghost predicate Addressed(rg: Region, start: nat, first: nat, k: nat)
  {
    forall i | 0 <= i < k ::
      (if rg.down then start + i * PGSIZE < rg.base else rg.base <= start + i * PGSIZE)
      && SlotIndex(rg.down, rg.base, start + i * PGSIZE) == first + i
  }

  lemma AddressedAt(rg: Region, start: nat, first: nat, k: nat, i: nat)
    requires Addressed(rg, start, first, k) && i < k
    ensures if rg.down then start + i * PGSIZE < rg.base else rg.base <= start + i * PGSIZE
    ensures SlotIndex(rg.down, rg.base, start + i * PGSIZE) == first + i
  {
  }

  /** The i-th page address of the request and the slot it falls in. */
  lemma PageAddresses(rg: Region, from: nat, sz: nat, i: nat)
    requires rg.base % PGSIZE == 0 && 0 < sz
    requires if rg.down then sz == PGSIZE && rg.size % PGSIZE == 0 && from + rg.size + PGSIZE == rg.base
             else from == rg.base + rg.size
    ensures var a := (from + PGSIZE - 1) / PGSIZE * PGSIZE + i * PGSIZE;
      && (a < from + sz <==> i < Backed(rg.size + sz) - Backed(rg.size))
      && (a < from + sz ==>
        && (if rg.down then a < rg.base else rg.base <= a)
        && SlotIndex(rg.down, rg.base, a) == Backed(rg.size) + i)
    ensures Backed(rg.size) <= Backed(rg.size + sz)
  {
    var q := rg.base / PGSIZE;
    assert rg.base == q * PGSIZE;
    if rg.down {
      var t := rg.size / PGSIZE;
      assert rg.size == t * PGSIZE && from == (q - t - 1) * PGSIZE;
      assert (from + PGSIZE - 1) / PGSIZE == q - t - 1;
      assert Backed(rg.size) == t && Backed(rg.size + sz) == t + 1;
    } else {
      assert (from + PGSIZE - 1) / PGSIZE == q + Backed(rg.size);
    }
  }

  lemma GrowStartsReady(ph: Phys, rg: Region, size': nat, rest: multiset<nat>)
    requires GrowReady(ph, rg, size', rest)
    ensures AddReady(ph, rg, Backed(rg.size), rest)
    ensures rg.base % PGSIZE == 0 && (rg.down ==> rg.size % PGSIZE == 0)
  {
  }

  lemma UnrollAdd(ph: Phys, rg: Region, idx: nat, n: nat)
    requires |ph.core| == |ph.data| && n > 0
    ensures var e := EnsureSlot(ph, rg, idx);
      AddPages(ph, rg, idx, Zeros(n)) ==
        if e.Crash? then AddCrash
        else if e.NoMemory? then Added(e.ph, e.rg, 0)
        else if Kalloc(e.ph).1.None? then Added(Kalloc(e.ph).0, e.rg, 0)
        else
          var (ph3, rg3) := AddFirst(ph, rg, idx, Filled(0));
          Later(AddPages(ph3, rg3, idx + 1, Zeros(n - 1)), 1)
  {
    hide EnsureSlot, Kalloc;
    assert Zeros(n)[0] == Filled(0);
    assert Zeros(n)[1..] == Zeros(n - 1);
  }

  lemma AddFirstReadyIf(ph: Phys, rg: Region, idx: nat, rest: multiset<nat>)
    requires AddReady(ph, rg, idx, rest)
    ensures |ph.core| == |ph.data|
    ensures var e := EnsureSlot(ph, rg, idx);
      e.Found? && Kalloc(e.ph).1.Some? ==>
        var (ph3, rg3) := AddFirst(ph, rg, idx, Filled(0));
        AddReady(ph3, rg3, idx + 1, rest) && e.rg.slots[idx] == EMPTY
  {
    AddReadyFacts(ph, rg, idx, rest);
    var e := EnsureSlot(ph, rg, idx);
    if e.Found? && Kalloc(e.ph).1.Some? {
      AddFirstReady(ph, rg, idx, Filled(0), rest);
      assert e.rg.slots[idx] == EMPTY by {
        if idx < |rg.slots| {
          assert e.rg.slots[..|rg.slots|][idx] == rg.slots[idx];
        }
      }
    }
  }

  lemma NothingLeft(ph: Phys, rg: Region, idx: nat)
    requires |ph.core| == |ph.data|
    ensures AddPages(ph, rg, idx, Zeros(0)) == Added(ph, rg, 0)
  {
  }

  lemma UndoAddresses(rg: Region, rg1: Region, from: nat, sz: nat, k: nat)
    requires rg.base % PGSIZE == 0 && 0 < sz && (rg1.down, rg1.base) == (rg.down, rg.base)
    requires if rg.down then sz == PGSIZE && rg.size % PGSIZE == 0 && from + rg.size + PGSIZE == rg.base
             else from == rg.base + rg.size
    requires k <= Backed(rg.size + sz) - Backed(rg.size)
    ensures var start := (from + PGSIZE - 1) / PGSIZE * PGSIZE;
      start % PGSIZE == 0 && from <= start && Addressed(rg1, start, Backed(rg.size), k)
  {
    var start := (from + PGSIZE - 1) / PGSIZE * PGSIZE;
    forall i | 0 <= i < k
      ensures if rg1.down then start + i * PGSIZE < rg1.base else rg1.base <= start + i * PGSIZE
      ensures SlotIndex(rg1.down, rg1.base, start + i * PGSIZE) == Backed(rg.size) + i
    {
      PageAddresses(rg, from, sz, i);
    }
  }

  /** What growing comes to, once the outcome of the mapping loop is known. */
  lemma GrowFromAdd(ph: Phys, rg: Region, size': nat, rest: multiset<nat>)
    requires GrowReady(ph, rg, size', rest)
    ensures |ph.core| == |ph.data| && Backed(rg.size) <= Backed(size')
    ensures var first, n := Backed(rg.size), Backed(size') - Backed(rg.size);
      var a := AddPages(ph, rg, first, Zeros(n));
      && (a.AddCrash? ==> Grow(ph, rg, size') == GrowCrash)
      && (a.Added? && a.done == n ==> Grow(ph, rg, size') == Grew(a.ph, a.rg.(size := size')))
      && (a.Added? ==>
        && first + a.done <= |a.rg.slots| && |a.ph.core| == |a.ph.data|
        && (forall i | first <= i < first + a.done :: a.rg.slots[i].ppn < |a.ph.core|)
        && (a.rg.down, a.rg.base) == (rg.down, rg.base)
        && (a.done < n ==>
          var (ph2, rg2) := RollBack(a.ph, a.rg, first, a.done);
          Grow(ph, rg, size') == if FromZero(rg, size') then GrowCrash else Kept(ph2, rg2)))
  {
    hide Ledger, RegionClaims, FreshClaims, SameData, Contents, RollBack, AddPages, RegionShape;
    LedgerShape(ph, rest + RegionClaims(rg));
    BackedMono(rg.size, size');
    GrowStartsReady(ph, rg, size', rest);
    var first, n := Backed(rg.size), Backed(size') - Backed(rg.size);
    AddPagesLedger(ph, rg, first, Zeros(n), rest);
    var a := AddPages(ph, rg, first, Zeros(n));
    if a.Added? {
      RollBackLedger(a.ph, a.rg, first, a.done, rest);
    }
  }

  // ------------------------------------------------------ the kernel, in place

  class Kernel {
    const mem: PhysMem
    ghost const boot: multiset<nat>
    var procs: seq<Option<Space>>

    constructor (mem: PhysMem, nproc: nat)
      requires mem.Shape() && Ledger(mem.Value(), multiset{})
      ensures this.mem == mem && fresh(this)
      ensures Init(St())
    {
      this.mem := mem;
      boot := multiset{};
      procs := seq(nproc, i => None);
    }

    ghost function V(): Phys
      reads mem, mem.coreMap, mem.data
    {
      mem.Value()
    }

    ghost function St(): State
      reads this, mem, mem.coreMap, mem.data
    {
      State(V(), boot, procs)
    }

    /** va2vpage_info: walk the chunk list, adding chunks until slot `idx` exists. */
    method FindSlot(rg: Region, idx: nat) returns (kind: SlotResult, rg': Region)
      requires mem.Shape()
      modifies mem, mem.coreMap
      ensures mem.data[..] == old(mem.data[..])
      ensures match kind
        case SlotFound => EnsureSlot(old(V()), rg, idx) == Found(V(), rg')
        case SlotNoMemory => EnsureSlot(old(V()), rg, idx) == NoMemory(V(), rg')
        case SlotCrash => EnsureSlot(old(V()), rg, idx) == Crash
    {
      rg' := rg;
      while idx >= |rg'.slots|
        invariant mem.data[..] == old(mem.data[..])
        invariant EnsureSlot(old(V()), rg, idx) == EnsureSlot(V(), rg', idx)
        decreases idx - |rg'.slots|
      {
        var pg := mem.AllocPage();
        if pg.None? {
          return if rg'.chunks == [] then SlotCrash else SlotNoMemory, rg';
        }
        rg' := rg'.(chunks := rg'.chunks + [pg.value], slots := rg'.slots + seq(VPIPPAGE, i => EMPTY));
      }
      kind := SlotFound;
    }

    method PutPage(pg: nat, page: Page)
      requires mem.Shape() && pg < mem.data.Length
      modifies mem.data
      ensures V() == Store(old(V()), pg, page)
    {
      mem.data[pg] := page;
      assert mem.data[..] == old(mem.data[..])[pg := page];
    }

    /** vregionaddmap on the bytes [from, from + sz) just beyond a region: page by page, and back
        again, highest address first, when a page cannot be had.  The stack grows by one page. */
    method AddMap(rg: Region, from: nat, sz: nat, ghost rest: multiset<nat>)
      returns (ok: bool, crash: bool, rg': Region)
      requires mem.Shape() && GrowReady(V(), rg, rg.size + sz, rest)
      requires 0 < sz && from + sz < KERNBASE
      requires if rg.down then sz == PGSIZE && from + rg.size + PGSIZE == rg.base else from == rg.base + rg.size
      modifies mem, mem.coreMap, mem.data
      ensures mem.Shape() && |old(V()).core| == |old(V()).data|
      ensures match Grow(old(V()), rg, rg.size + sz)
        case GrowCrash => crash
        case Kept(ph, kept) => !crash && !ok && V() == ph && rg' == kept
        case Grew(ph, grown) => !crash && ok && V() == ph && rg'.(size := rg.size + sz) == grown
    {
      hide AddReady, GrowReady, Grow, AddPages, RollBack, Addressed, Zeros;
      GrowFromAdd(V(), rg, rg.size + sz, rest);
      GrowStartsReady(V(), rg, rg.size + sz, rest);
      var a;
      ghost var i;
      crash, a, rg', i := MapPages(rg, from, sz, rest);
      ok := !crash && a >= from + sz;
      if !crash && !ok && from == 0 {
        crash := true;  // an unsigned address is never below 0: the rollback loop has no end
      } else if !crash && !ok {
        UndoAddresses(rg, rg', from, sz, i);
        rg' := Undo(rg', (from + PGSIZE - 1) / PGSIZE * PGSIZE, a, Backed(rg.size), i);
      }
    }

    /** The mapping loop; it ends at the first address `a` it could not map. */
    method MapPages(rg: Region, from: nat, sz: nat, ghost rest: multiset<nat>)
      returns (crash: bool, a: nat, rg': Region, ghost i: nat)
      requires mem.Shape() && AddReady(V(), rg, Backed(rg.size), rest) && rg.base % PGSIZE == 0 && 0 < sz
      requires if rg.down then sz == PGSIZE && rg.size % PGSIZE == 0 && from + rg.size + PGSIZE == rg.base
               else from == rg.base + rg.size
      modifies mem, mem.coreMap, mem.data
      ensures mem.Shape() && Backed(rg.size) <= Backed(rg.size + sz)
      ensures var n := Backed(rg.size + sz) - Backed(rg.size);
        && i <= n && a == (from + PGSIZE - 1) / PGSIZE * PGSIZE + i * PGSIZE && (a >= from + sz <==> i == n)
        && AddPages(old(V()), rg, Backed(rg.size), Zeros(n)) == if crash then AddCrash else Added(V(), rg', i)
    {
      hide AddReady, AddPages, EnsureSlot, Kalloc, Zeros, AddFirst;
      ghost var first, n := Backed(rg.size), Backed(rg.size + sz) - Backed(rg.size);
      a, i, rg', crash := (from + PGSIZE - 1) / PGSIZE * PGSIZE, 0, rg, false;
      PageAddresses(rg, from, sz, 0);
      ghost var was := V();
      while a < from + sz
        invariant mem.Shape() && a == (from + PGSIZE - 1) / PGSIZE * PGSIZE + i * PGSIZE && 0 <= i <= n
        invariant (a < from + sz <==> i < n) && !crash
        invariant (rg'.down, rg'.base) == (rg.down, rg.base)
        invariant AddReady(V(), rg', first + i, rest)
        invariant AddPages(was, rg, first, Zeros(n)) == Later(AddPages(V(), rg', first + i, Zeros(n - i)), i)
        decreases n - i
      {
        PageAddresses(rg, from, sz, i);
        PageAddresses(rg, from, sz, i + 1);
        UnrollAdd(V(), rg', first + i, n - i);
        var mapped;
        mapped, crash, rg' := MapOne(rg', SlotIndex(rg.down, rg.base, a), rest);
        if crash || !mapped {
          return;
        }
        a := a + PGSIZE;
        i := i + 1;
      }
      NothingLeft(V(), rg', first + i);
      assert i == n && Zeros(n - i) == Zeros(0);
    }

    /** One turn of the loop: find the slot, get a page, clear it, fill in the slot. */
    method MapOne(rg: Region, idx: nat, ghost rest: multiset<nat>) returns (mapped: bool, crash: bool, rg': Region)
      requires mem.Shape() && AddReady(V(), rg, idx, rest)
      modifies mem, mem.coreMap, mem.data
      ensures mem.Shape()
      ensures var e := EnsureSlot(old(V()), rg, idx);
        && (crash <==> e.Crash?)
        && (e.NoMemory? ==> !mapped && (V(), rg') == (e.ph, e.rg))
        && (e.Found? && Kalloc(e.ph).1.None? ==> !mapped && (V(), rg') == (Kalloc(e.ph).0, e.rg))
        && (e.Found? && Kalloc(e.ph).1.Some? ==> mapped && (V(), rg') == AddFirst(old(V()), rg, idx, Filled(0)))
      ensures mapped ==> AddReady(V(), rg', idx + 1, rest) && (rg'.down, rg'.base) == (rg.down, rg.base)
    {
      AddFirstReadyIf(V(), rg, idx, rest);
      hide AddReady, EnsureSlot, Kalloc;
      mapped, crash := false, false;
      var kind;
      kind, rg' := FindSlot(rg, idx);
      if kind == SlotCrash {
        crash := true;
      } else if kind == SlotFound {
        var pg := mem.AllocPage();
        if pg.Some? {
          PutPage(pg.value, seq(PGSIZE, j => 0));
          var v := rg'.slots[idx].(used := true, present := true, writable := true, ppn := pg.value);
          rg' := rg'.(slots := rg'.slots[idx := v]);
          mapped := true;
        }
      }
    }

    /** The addmap_failure loop: `a` is the first address that was not mapped. */
    method Undo(rg: Region, start: nat, end: nat, ghost first: nat, ghost k: nat) returns (rg': Region)
      requires mem.Shape() && first + k <= |rg.slots|
      requires forall i | first <= i < first + k :: rg.slots[i].ppn < mem.coreMap.Length
      requires start % PGSIZE == 0 && start > 0 && end == start + k * PGSIZE && Addressed(rg, start, first, k)
      modifies mem, mem.coreMap, mem.data
      ensures mem.Shape() && (V(), rg') == RollBack(old(V()), rg, first, k)
    {
      hide Kfree, Addressed;
      rg' := rg;
      ghost var j := k;
      var a := end - PGSIZE;
      while a >= start
        invariant mem.Shape() && 0 <= j <= k && a == start + (j - 1) * PGSIZE
        invariant (rg'.down, rg'.base, |rg'.slots|) == (rg.down, rg.base, |rg.slots|)
        invariant forall i | first <= i < first + j :: rg'.slots[i] == rg.slots[i]
        invariant RollBack(old(V()), rg, first, k) == RollBack(V(), rg', first, j)
        decreases j
      {
        AddressedAt(rg, start, first, k, j - 1);
        var idx := SlotIndex(rg'.down, rg'.base, a);
        mem.FreePage(rg'.slots[idx].ppn);
        var v := rg'.slots[idx].(used := false, present := false, writable := false, ppn := 0);
        rg' := rg'.(slots := rg'.slots[idx := v]);
        a := a - PGSIZE;
        j := j - 1;
      }
    }

    method FreeAll(pages: seq<nat>)
      requires mem.Shape() && InRange(pages, mem.coreMap.Length)
      modifies mem, mem.coreMap, mem.data
      ensures mem.Shape() && V() == KfreeAll(old(V()), pages)
    {
      var i := 0;
      while i < |pages|
        invariant 0 <= i <= |pages| && mem.Shape()
        invariant KfreeAll(old(V()), pages) == KfreeAll(V(), pages[i..])
      {
        mem.FreePage(pages[i]);
        i := i + 1;
      }
    }

    method AllocMany(n: nat) returns (r: Option<seq<nat>>)
      requires mem.Shape()
      modifies mem, mem.coreMap
      ensures mem.Shape() && (V(), r) == KallocN(old(V()), n)
    {
      var pages: seq<nat> := [];
      ghost var was := V();
      PrependNothing(KallocN(was, n));
      while |pages| < n
        invariant |pages| <= n && mem.Shape()
        invariant KallocN(was, n) == Prepend(pages, KallocN(V(), n - |pages|))
      {
        ghost var left := KallocN(V(), n - |pages|);
        var pg := mem.AllocPage();
        if pg.None? {
          return None;
        }
        PrependMore(pages, pg.value, KallocN(V(), n - |pages| - 1));
        pages := pages + [pg.value];
      }
      assert pages + [] == pages;
      r := Some(pages);
    }

    /** vspaceinvalidate at the level of pages: the old tables go back, `need` new ones are taken. */
    method Invalidate(sp: Space, need: nat) returns (panicked: bool, sp': Space)
      requires mem.Shape() && InRange(sp.userTables, mem.coreMap.Length)
      modifies mem, mem.coreMap, mem.data
      ensures mem.Shape()
      ensures var r := Rebuild(old(V()), sp, need);
        && (panicked <==> r.None?)
        && (r.Some? ==> (V(), sp') == r.value)
    {
      hide KfreeAll, KallocN, InstallAll, Disjoint;
      FreeAll(sp.userTables);
      var tables := AllocMany(need);
      panicked := tables.None? || !Disjoint(sp.regions);
      sp' := sp;
      if !panicked {
        sp' := sp.(userTables := tables.value, hw := InstallAll(sp.regions));
      }
    }

    /** The end of every call that changed a region. */
    method Complete(p: nat, sp: Space, need: nat, ghost l: Label) returns (stuck: bool)
      requires mem.Shape() && p < |procs| && InRange(sp.userTables, mem.coreMap.Length)
      modifies this, mem, mem.coreMap, mem.data
      ensures mem.Shape() && |procs| == old(|procs|)
      ensures match Finish(old(St()), p, old(V()), sp, need, l)
        case Stuck => stuck
        case Done(s, _) => !stuck && St() == s
    {
      hide Rebuild;
      var sp';
      stuck, sp' := Invalidate(sp, need);
      if !stuck {
        procs := procs[p := Some(sp')];
      }
    }

    /** Shared page: a copy of its own for the faulting process. */
    method CopyOnWrite(p: nat, r: nat, k: nat, need: nat) returns (stuck: bool)
      requires mem.Shape() && Live(St(), p) && r < |procs[p].value.regions| && k < |procs[p].value.regions[r].slots|
      requires InRange(procs[p].value.userTables, mem.coreMap.Length)
      requires procs[p].value.regions[r].slots[k].ppn < mem.coreMap.Length
      requires mem.coreMap[procs[p].value.regions[r].slots[k].ppn].refCount > 1
      requires !mem.coreMap[procs[p].value.regions[r].slots[k].ppn].available
      modifies this, mem, mem.coreMap, mem.data
      ensures mem.Shape()
      ensures var sp := old(procs[p].value);
        var c := CopyPage(old(V()), sp.regions[r], k);
        if c.None? then !stuck && St() == old(St())
        else match Finish(old(St()), p, c.value.0, WithRegion(sp, r, c.value.1), need, Silent)
          case Stuck => stuck
          case Done(s, _) => !stuck && St() == s
    {
      hide Finish;
      ghost var s0 := St();
      var sp := procs[p].value;
      var rg := sp.regions[r];
      var v := rg.slots[k];
      var data := mem.AllocPage();
      if data.None? {
        return false;
      }
      PutPage(data.value, mem.data[v.ppn]);
      mem.coreMap[v.ppn] := mem.coreMap[v.ppn].(refCount := mem.coreMap[v.ppn].refCount - 1);
      var v' := v.(used := true, writable := true, present := true, cow := false, ppn := data.value);
      var rg' := rg.(slots := rg.slots[k := v']);
      ghost var c := CopyPage(s0.ph, rg, k);
      assert c == Some((V(), rg')) by {
        assert mem.coreMap[..] == Unshare(Store(Kalloc(s0.ph).0, data.value, s0.ph.data[v.ppn]), v.ppn).core;
      }
      FinishIgnoresMemory(s0, St(), p, V(), sp.(regions := sp.regions[r := rg']), need, Silent);
      stuck := Complete(p, sp.(regions := sp.regions[r := rg']), need, Silent);
    }

    /** Grow region `r` to `size'`, the bytes from `from` on being new. */
    method ExtendRegion(p: nat, r: nat, from: nat, sz: nat, need: nat) returns (stuck: bool, failed: bool)
      requires mem.Shape() && Inv(St()) && Live(St(), p) && r < |procs[p].value.regions|
      requires 0 < sz && from + sz < KERNBASE
      requires var rg := procs[p].value.regions[r];
        && Aligned(rg.down, rg.base, rg.size + sz)
        && (if rg.down then sz == PGSIZE && from + rg.size + PGSIZE == rg.base else from == rg.base + rg.size)
      modifies this, mem, mem.coreMap, mem.data
      ensures mem.Shape()
      ensures match Extend(old(St()), p, r, old(procs[p].value.regions[r].size) + sz, need)
        case Stuck => stuck
        case Done(s, l) => !stuck && St() == s && (failed <==> l.Silent?)
    {
      hide Inv, Finish, Grow, RegionShape, SpaceShape, Midway, Claims, Rest, Ledger, RegionClaims;
      ghost var s0 := St();
      var sp := procs[p].value;
      var rg := sp.regions[r];
      ghost var rest := Rest(s0, p) + Beside(sp, r);
      ExtendReady(s0, p, r, rg.size + sz, need);
      var ok, crash, rg' := AddMap(rg, from, sz, rest);
      if crash {
        return true, true;
      }
      if !ok {
        procs := procs[p := Some(sp.(regions := sp.regions[r := rg']))];
        return false, true;
      }
      rg' := rg'.(size := rg.size + sz);
      FinishIgnoresMemory(s0, St(), p, V(), WithRegion(sp, r, rg'), need, Grown(p, r, rg.size + sz));
      ExtendLabel(s0, p, r, rg.size + sz, need);
      stuck := Complete(p, sp.(regions := sp.regions[r := rg']), need, Grown(p, r, rg.size + sz));
      failed := false;
    }

    /** growuserstack, and the kill of a process whose fault nothing can answer. */
    method GrowOnFault(p: nat, va: nat, need: nat) returns (stuck: bool)
      requires mem.Shape() && Inv(St()) && Live(St(), p)
      requires RegionsShape(procs[p].value.regions)
      modifies this, mem, mem.coreMap, mem.data
      ensures mem.Shape()
      ensures match StackFault(old(St()), p, va, need)
        case Stuck => stuck
        case Done(s, _) => !stuck && St() == s
    {
      hide Inv, Extend;
      var sp := procs[p].value;
      var rg := sp.regions[VR_USTACK];
      assert RegionShape(rg);
      stuck := false;
      if SZ_2G - MAXSTACK * PGSIZE <= va < SZ_2G && rg.size < MAXSTACK * PGSIZE {
        if rg.base < rg.size + PGSIZE {
          return true;
        }
        var bound := rg.base - rg.size - PGSIZE;
        if bound + PGSIZE < KERNBASE {
          var failed;
          stuck, failed := ExtendRegion(p, VR_USTACK, bound, PGSIZE, need);
        }
      }
    }

    /** The page-fault branch of trap. */
    method PageFault(p: nat, va: nat, need: nat) returns (stuck: bool)
      requires mem.Shape() && Inv(St()) && Live(St(), p)
      modifies this, mem, mem.coreMap, mem.data
      ensures mem.Shape()
      ensures match Fault(old(St()), p, va, need)
        case Stuck => stuck
        case Done(s, _) => !stuck && St() == s
    {
      hide Inv, Finish, StackFault, CopyPage, RegionShape;
      var sp := procs[p].value;
      ProcFacts(St(), p);
      ghost var s0 := St();
      var r := 0;
      while r < |sp.regions| && !Contains(sp.regions[r].down, sp.regions[r].base, sp.regions[r].size, va)
        invariant 0 <= r <= |sp.regions|
        invariant RegionFind(sp.regions, va) == r + RegionFind(sp.regions[r..], va)
      {
        assert sp.regions[r..][1..] == sp.regions[r + 1..];
        r := r + 1;
      }
      assert RegionFind(sp.regions, va) == r;
      if r < |sp.regions| {
        var rg := sp.regions[r];
        var k := SlotIndex(rg.down, rg.base, va);
        FaultSlot(s0, p, r, va);
        var v := rg.slots[k];
        if v.cow && !v.writable {
          if mem.coreMap[v.ppn].refCount > 1 {
            stuck := CopyOnWrite(p, r, k, need);
          } else {
            var rg' := rg.(slots := rg.slots[k := v.(writable := true, cow := false)]);
            assert rg' == SetSlot(rg, k, NewSlot(v.ppn));
            stuck := Complete(p, sp.(regions := sp.regions[r := rg']), need, Silent);
          }
          return;
        }
      }
      stuck := GrowOnFault(p, va, need);
    }

    /** sbrk for n >= 0. */
    method GrowHeap(p: nat, n: nat, need: nat) returns (stuck: bool, bound: int)
      requires mem.Shape() && Inv(St()) && Live(St(), p)
      requires |procs[p].value.regions| == NREGIONS
      modifies this, mem, mem.coreMap, mem.data
      ensures mem.Shape()
      ensures match Sbrk(old(St()), p, n, need)
        case Stuck => stuck
        case Done(s, l) =>
          && !stuck && St() == s
          && bound == if n > 0 && l.Silent? then -1
                      else old(procs[p].value.regions[VR_HEAP].base + procs[p].value.regions[VR_HEAP].size)
    {
      hide Inv, Finish, Extend, RegionShape;
      ProcFacts(St(), p);
      var sp := procs[p].value;
      var rg := sp.regions[VR_HEAP];
      HeapAligned(sp, n);
      bound := rg.base + rg.size;
      if n == 0 {
        stuck := Complete(p, sp, need, Silent);
      } else if n + bound >= KERNBASE {
        stuck, bound := false, -1;
      } else {
        var failed;
        ExtendLabel(St(), p, VR_HEAP, rg.size + n, need);
        stuck, failed := ExtendRegion(p, VR_HEAP, bound, n, need);
        if failed {
          bound := -1;
        }
      }
    }

    /** The inner loop of copy_vpi_page: share every used slot of one chunk. */
    method ShareChunk(slots: seq<Vpi>) returns (src: seq<Vpi>, dst: seq<Vpi>)
      requires mem.Shape() && forall k | 0 <= k < |slots| && slots[k].used :: slots[k].ppn < mem.coreMap.Length
      modifies mem.coreMap
      ensures mem.Shape() && V() == ShareAll(old(V()), slots)
      ensures src == MapSlots(SourceSlot, slots) && dst == MapSlots(ChildSlot, slots)
    {
      src, dst := slots, seq(|slots|, i => EMPTY);
      var i := 0;
      assert slots[..0] == [];
      while i < |slots|
        invariant 0 <= i <= |slots| == |src| == |dst| && mem.Shape()
        invariant V() == ShareAll(old(V()), slots[..i])
        invariant forall k | 0 <= k < |slots| ::
          && src[k] == (if k < i then SourceSlot(slots[k]) else slots[k])
          && dst[k] == (if k < i then ChildSlot(slots[k]) else EMPTY)
      {
        var v := src[i];
        ghost var before := V();
        if v.used {
          dst := dst[i := Vpi(v.used, v.present, false, true, v.ppn)];
          src := src[i := v.(cow := true, writable := false)];
          mem.coreMap[v.ppn] := mem.coreMap[v.ppn].(refCount := mem.coreMap[v.ppn].refCount + 1);
          assert mem.coreMap[..] == before.core[v.ppn := mem.coreMap[v.ppn]];
        }
        assert slots[..i + 1][..i] == slots[..i];
        i := i + 1;
      }
      assert slots[..|slots|] == slots;
    }

    /** copy_vpi_page: a new chunk for each chunk of the parent, as long as pages last. */
    method CopyVpiPages(rg: Region) returns (pages: seq<nat>, src: seq<Vpi>, dst: seq<Vpi>)
      requires mem.Shape() && ChunkShape(rg)
      requires forall k | 0 <= k < |rg.slots| && rg.slots[k].used :: rg.slots[k].ppn < mem.coreMap.Length
      modifies mem, mem.coreMap
      ensures mem.Shape()
      ensures var c := CopyChunks(old(V()), rg.slots, |rg.chunks|);
        && V() == c.ph && pages == c.pages
        && var k := VPIPPAGE * |pages|;
        && k <= |rg.slots|
        && src == MapSlots(SourceSlot, rg.slots[..k]) + rg.slots[k..]
        && dst == MapSlots(ChildSlot, rg.slots[..k])
    {
      hide ShareAll, Kalloc, CopyChunks;
      pages, src, dst := [], [], [];
      ghost var was := V();
      ghost var n := |rg.chunks|;
      assert rg.slots[0..] == rg.slots;
      assert [] + CopyChunks(was, rg.slots, n).pages == CopyChunks(was, rg.slots, n).pages;
      while |pages| < |rg.chunks|
        invariant mem.Shape() && |pages| <= n && VPIPPAGE * |pages| <= |rg.slots|
        invariant src == MapSlots(SourceSlot, rg.slots[..VPIPPAGE * |pages|])
        invariant dst == MapSlots(ChildSlot, rg.slots[..VPIPPAGE * |pages|])
        invariant CopyChunks(was, rg.slots, n) ==
          var c := CopyChunks(V(), rg.slots[VPIPPAGE * |pages|..], n - |pages|); Chunks(c.ph, pages + c.pages)
      {
        var k := VPIPPAGE * |pages|;
        ghost var rest := rg.slots[k..];
        CopyUnroll(V(), rest, n - |pages|);
        var pg := mem.AllocPage();
        if pg.None? {
          assert pages + [] == pages;
          src := src + rg.slots[k..];
          return;
        }
        var chunk := rg.slots[k..k + VPIPPAGE];
        assert rest[..VPIPPAGE] == chunk && rest[VPIPPAGE..] == rg.slots[k + VPIPPAGE..];
        var s, d := ShareChunk(chunk);
        MapAppend(SourceSlot, rg.slots[..k], chunk);
        MapAppend(ChildSlot, rg.slots[..k], chunk);
        assert rg.slots[..k] + chunk == rg.slots[..k + VPIPPAGE];
        src, dst := src + s, dst + d;
        ChunksAssoc(pages, pg.value, CopyChunks(V(), rg.slots[k + VPIPPAGE..], n - |pages| - 1).pages);
        pages := pages + [pg.value];
      }
      CopyUnroll(V(), rg.slots[VPIPPAGE * |pages|..], 0);
      assert pages + [] == pages;
      src := src + rg.slots[VPIPPAGE * |pages|..];
    }

    /** vspacecopy up to the rebuilds: region by region, stopping at the first failure. */
    method CopyVspace(regions: seq<Region>) returns (ok: bool, src: seq<Region>, dst: seq<Region>)
      requires mem.Shape() && forall r | 0 <= r < |regions| :: CopyReady(regions[r], mem.coreMap.Length)
      requires forall r | 0 <= r < |regions| :: ChunkShape(regions[r])
      modifies mem, mem.coreMap
      ensures mem.Shape() && CopyRegions(old(V()), regions) == Copied(V(), src, dst, ok)
    {
      hide CopyChunks, MapSlots;
      ok, src, dst := true, [], [];
      ghost var was := V();
      var r := 0;
      assert regions[..0] == [];
      while r < |regions| && ok
        invariant 0 <= r <= |regions| && mem.Shape()
        invariant CopyRegions(was, regions[..r]) == Copied(V(), src, dst, ok)
      {
        var rg := regions[r];
        assert CopyReady(rg, mem.coreMap.Length);
        assert regions[..r + 1][..r] == regions[..r];
        var pages, srcSlots, dstSlots := CopyVpiPages(rg);
        src := src + [rg.(slots := srcSlots)];
        dst := dst + [rg.(chunks := pages, slots := dstSlots)];
        ok := |pages| == |rg.chunks|;
        r := r + 1;
      }
      assert regions[..|regions|] == regions;
      CopyStopped(was, regions, r);
      src, dst := src + regions[r..], dst + regions[r..];
      assert r == |regions| ==> regions[r..] == [];
    }

    /** vradddata for the code of a new process: map zeroed pages from address 0 on, then copy the code. */
    method LoadCode(code: seq<Page>, ghost m: multiset<nat>) returns (ok: bool, rg: Region)
      requires mem.Shape() && Ledger(V(), m) && |code| * PGSIZE < KERNBASE
      modifies mem, mem.coreMap, mem.data
      ensures mem.Shape() && |old(V()).core| == |old(V()).data|
      ensures var a := NewRegion(old(V()), false, 0, code);
        (ok <==> a.Added? && a.done == |code|) && (ok ==> (V(), rg) == (a.ph, a.rg))
    {
      hide Ledger, Grow, StoreAll, GrowReady;
      rg := Region(false, 0, 0, [], []);
      if |code| == 0 {
        return true, rg;
      }
      LoadsAs(V(), false, 0, code, m);
      EmptyGrowReady(V(), rg, |code| * PGSIZE, m);
      ghost var a := NewRegion(V(), false, 0, code);
      var crash;
      ok, crash, rg := AddMap(rg, 0, |code| * PGSIZE, m);
      ok := ok && !crash;
      if ok {
        rg := rg.(size := |code| * PGSIZE);
        ghost var ps := Frames(rg.slots, 0, |code|);
        var i := 0;
        while i < |code|
          invariant 0 <= i <= |code| && mem.Shape() && SameFrames(V(), a.ph)
          invariant a.ph.data == StoreAll(V().data, ps[i..], code[i..])
        {
          StoreAllStep(V().data, ps, code, i);
          PutPage(rg.slots[i].ppn, code[i]);
          i := i + 1;
        }
        StoreNothing(V().data);
      }
    }

    /** The one stack page of a new process. */
    method InitStack(top: nat, ghost m: multiset<nat>) returns (ok: bool, rg: Region)
      requires mem.Shape() && Ledger(V(), m) && PGSIZE <= top < KERNBASE && top % PGSIZE == 0
      modifies mem, mem.coreMap, mem.data
      ensures mem.Shape() && |old(V()).core| == |old(V()).data|
      ensures var a := NewRegion(old(V()), true, top, [Filled(0)]);
        (ok <==> a.Added? && a.done == 1) && (ok ==> (V(), rg) == (a.ph, a.rg))
    {
      hide Ledger, Grow, GrowReady;
      rg := Region(true, top, 0, [], []);
      assert [Filled(0)] == Zeros(1);
      LoadsAs(V(), true, top, [Filled(0)], m);
      EmptyGrowReady(V(), rg, PGSIZE, m);
      var crash;
      ok, crash, rg := AddMap(rg, top - PGSIZE, PGSIZE, m);
      ok, rg := ok && !crash, rg.(size := PGSIZE);
    }

    /** A new process: kernel stack, setupkvm, its code and its first stack page.  The kernel panics when
        it cannot be made. */
    method MakeProcess(p: nat, code: seq<Page>, lay: Layout, kmap: nat, need: nat) returns (stuck: bool)
      requires mem.Shape() && Inv(St()) && p < |procs| && procs[p].None? && PageLayout(lay)
      modifies this, mem, mem.coreMap, mem.data
      ensures mem.Shape() && |old(V()).core| == |old(V()).data|
      ensures match Spawn(old(St()), p, code, lay, kmap, need)
        case Stuck => stuck
        case Done(s, _) => !stuck && St() == s
    {
      hide Inv, Finish, Kalloc, KallocN, Ledger, All, NewRegion, NewPages, RegionClaims;
      ghost var s0 := St();
      SpawnIff(s0, p, code, lay, kmap, need);
      KallocLedger(s0.ph, All(s0)) by { InvLedger(s0); }
      if |code| * PGSIZE >= KERNBASE {
        return true;
      }
      var ks := mem.AllocPage();
      if ks.None? {
        return true;
      }
      ghost var m := All(s0) + multiset{ks.value};
      KallocNLedger(V(), kmap, m);
      var kt := AllocMany(kmap);
      if kt.None? {
        return true;
      }
      m := m + multiset(kt.value);
      NewRegionLedger(V(), false, 0, code, m);
      var ok, c := LoadCode(code, m);
      if !ok {
        return true;
      }
      m := m + RegionClaims(c);
      NewRegionLedger(V(), true, lay.stack, [Filled(0)], m);
      var t;
      ok, t := InitStack(lay.stack, m);
      if !ok {
        return true;
      }
      var sp := Space(ks.value, kt.value, [], [c, Region(false, lay.heap, 0, [], []), t], []);
      FinishIgnoresMemory(s0, St(), p, V(), sp, need, Spawned(p, FirstSpace(code, lay)));
      stuck := Complete(p, sp, need, Spawned(p, FirstSpace(code, lay)));
    }

    /** fork: allocproc's kernel stack, setupkvm, vspacecopy.  The result of vspacecopy is ignored. */
    method ForkProcess(p: nat, c: nat, kmap: nat, needC: nat, needP: nat) returns (stuck: bool)
      requires mem.Shape() && Inv(St()) && Live(St(), p) && c < |procs| && procs[c].None?
      requires forall r | 0 <= r < |procs[p].value.regions| :: ChunkShape(procs[p].value.regions[r])
      modifies this, mem, mem.coreMap, mem.data
      ensures mem.Shape()
      ensures match Fork(old(St()), p, c, kmap, needC, needP)
        case Stuck => stuck
        case Done(s, _) => !stuck && St() == s
    {
      hide Inv, Finish, CopyRegions, Kalloc, KallocN;
      ghost var s0 := St();
      CopyReadyAll(s0, p);
      ProcFacts(s0, p);
      var sp := procs[p].value;
      var ks := mem.AllocPage();
      if ks.None? {
        return false;
      }
      var kt := AllocMany(kmap);
      if kt.None? {
        return true;
      }
      var ok, src, dst := CopyVspace(sp.regions);
      var child := Space(ks.value, kt.value, [], dst, []);
      if !ok {
        procs := procs[p := Some(sp.(regions := src))][c := Some(child)];
        return false;
      }
      FinishIgnoresMemory(s0, St(), c, V(), child, needC, Silent);
      stuck := Complete(c, child, needC, Silent);
      if !stuck {
        stuck := Complete(p, sp.(regions := src), needP, Forked(p, c));
      }
    }

    /** vspacefree and the end of wait: give back everything the process holds. */
    method FreeSpace(p: nat)
      requires mem.Shape() && Inv(St()) && Live(St(), p)
      modifies this, mem, mem.coreMap, mem.data
      ensures mem.Shape() && Reap(old(St()), p) == Done(St(), Reaped(p))
    {
      hide Inv, KfreeAll;
      ReapFacts(St(), p);
      ghost var was := V();
      var sp := procs[p].value;
      ghost var n := mem.coreMap.Length;
      var chunks := [];
      var r := 0;
      assert sp.regions[..0] == [];
      FreeNothing(was);
      while r < |sp.regions|
        invariant 0 <= r <= |sp.regions| && mem.Shape() && procs == old(procs)
        invariant chunks == ChunkPages(sp.regions[..r]) && InRange(chunks, n) && V() == KfreeAll(was, chunks)
      {
        assert sp.regions[..r + 1][..r] == sp.regions[..r];
        ChunksInRange(sp.regions, r, n);
        KfreeAllAppend(was, chunks, sp.regions[r].chunks);
        FreeAll(sp.regions[r].chunks);
        chunks := chunks + sp.regions[r].chunks;
        r := r + 1;
      }
      assert sp.regions[..|sp.regions|] == sp.regions;
      var mapped := MappedPages(sp.hw);
      var tables := sp.userTables + sp.kernTables + [sp.kstack];
      assert ReapList(sp) == chunks + mapped + tables;
      KfreeAllAppend(was, chunks, mapped);
      KfreeAllAppend(was, chunks + mapped, tables);
      FreeAll(mapped);
      FreeAll(tables);
      procs := procs[p := None];
    }
  }
}
