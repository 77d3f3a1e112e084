/** kernel/vspace.c, the page-fault branch of kernel/trap.c, sbrk of kernel/proc.c:
    copy-on-write address spaces as a transition system.

    A `Region` holds the descriptor slots (vpage_info) in chunks of VPIPPAGE; `hw` is what
    the four-level table of the process says, a snapshot of the regions taken by the last
    vspaceinvalidate.  User stores go through `hw`; the kernel works on the regions. */
module CowSpace {
  import opened Types
  import opened CoreMap

  const VPIPPAGE := 169
  const NREGIONS := 3
  const VR_HEAP := 1
  const VR_USTACK := 2
  const SZ_2G := 0x8000_0000
  const KERNBASE := 0xFFFF_FFFF_8000_0000
  const MAXSTACK := 10

  datatype Vpi = Vpi(used: bool, present: bool, writable: bool, cow: bool, ppn: nat)

  const EMPTY := Vpi(false, false, false, false, 0)

  datatype Region = Region(down: bool, base: nat, size: nat, chunks: seq<nat>, slots: seq<Vpi>)

  datatype Pte = Pte(ppn: nat, present: bool, writable: bool)

  datatype Mapping = Mapping(down: bool, base: nat, size: nat, ptes: seq<Pte>)

  datatype Space = Space(kstack: nat, kernTables: seq<nat>, userTables: seq<nat>,
                         regions: seq<Region>, hw: seq<Mapping>)

  /** `boot` holds the pages the kernel keeps for itself (its own page table). */
  datatype State = State(ph: Phys, boot: multiset<nat>, procs: seq<Option<Space>>)

  // ------------------------------------------------------------------ addresses

  function Backed(size: nat): (n: nat)
    ensures (n as int - 1) * PGSIZE < size <= n * PGSIZE
  {
    (size + PGSIZE - 1) / PGSIZE
  }

  predicate Contains(down: bool, base: nat, size: nat, va: nat)
  {
    if down then base - size <= va < base else base <= va < base + size
  }

  function SlotIndex(down: bool, base: nat, va: nat): (i: nat)
    requires if down then va < base else base <= va
  {
    if down then (base - 1 - va) / PGSIZE else (va - base) / PGSIZE
  }

  ghost predicate Aligned(down: bool, base: nat, size: nat)
  {
    base % PGSIZE == 0 && (down ==> size % PGSIZE == 0 && size <= base)
  }

  /** Inside a region every address has a backed slot. */
  lemma IndexInRange(down: bool, base: nat, size: nat, va: nat)
    requires Contains(down, base, size, va)
    ensures SlotIndex(down, base, va) < Backed(size)
  {
  }

  /** Two addresses of one region share a slot exactly when they lie in the same page. */
  lemma SlotIsPage(down: bool, base: nat, size: nat, va: nat, vb: nat)
    requires Aligned(down, base, size)
    requires Contains(down, base, size, va) && Contains(down, base, size, vb)
    ensures SlotIndex(down, base, va) == SlotIndex(down, base, vb) <==> va / PGSIZE == vb / PGSIZE
  {
    var q := base / PGSIZE;
    assert base == PGSIZE * q;
    if down {
      assert (base - 1 - va) / PGSIZE == q - 1 - va / PGSIZE;
      assert (base - 1 - vb) / PGSIZE == q - 1 - vb / PGSIZE;
    } else {
      assert (va - base) / PGSIZE == va / PGSIZE - q;
      assert (vb - base) / PGSIZE == vb / PGSIZE - q;
    }
  }

  // --------------------------------------------------------------------- claims

  ghost function One(v: Vpi): multiset<nat>
  {
    if v.used then multiset{v.ppn} else multiset{}
  }

  ghost function Named(slots: seq<Vpi>): multiset<nat>
  {
    if slots == [] then multiset{} else Named(slots[..|slots| - 1]) + One(slots[|slots| - 1])
  }

  ghost function RegionClaims(rg: Region): multiset<nat>
  {
    multiset(rg.chunks) + Named(rg.slots)
  }

  ghost function RegionsClaims(regions: seq<Region>): multiset<nat>
  {
    if regions == [] then multiset{}
    else RegionsClaims(regions[..|regions| - 1]) + RegionClaims(regions[|regions| - 1])
  }

  ghost function Claims(p: Option<Space>): multiset<nat>
  {
    if p.None? then multiset{}
    else multiset{p.value.kstack} + multiset(p.value.kernTables) + multiset(p.value.userTables)
         + RegionsClaims(p.value.regions)
  }

  ghost function Total(procs: seq<Option<Space>>): multiset<nat>
  {
    if procs == [] then multiset{}
    else Total(procs[..|procs| - 1]) + Claims(procs[|procs| - 1])
  }

  ghost function All(s: State): multiset<nat>
  {
    s.boot + Total(s.procs)
  }

  /** Replacing the part `o` of `a` by `v` commutes with adding `l`. */
  lemma SwapPart(a: multiset<nat>, o: multiset<nat>, v: multiset<nat>, l: multiset<nat>)
    requires o <= a
    ensures a - o + v + l == a + l - o + v
    ensures o <= a + l
  {
  }

  lemma SwapLast(a: multiset<nat>, o: multiset<nat>, v: multiset<nat>)
    ensures a + v == a + o - o + v
    ensures o <= a + o
  {
  }

  lemma {:induction false} NamedUpdate(slots: seq<Vpi>, k: nat, v: Vpi)
    requires k < |slots|
    ensures Named(slots[k := v]) == Named(slots) - One(slots[k]) + One(v)
    ensures One(slots[k]) <= Named(slots)
  {
    hide One;
    var n := |slots| - 1;
    if k == n {
      assert slots[k := v][..n] == slots[..n];
      SwapLast(Named(slots[..n]), One(slots[k]), One(v));
    } else {
      assert slots[k := v][..n] == slots[..n][k := v];
      NamedUpdate(slots[..n], k, v);
      SwapPart(Named(slots[..n]), One(slots[k]), One(v), One(slots[n]));
    }
  }

  lemma NamedTwo(slots: seq<Vpi>, i: nat, j: nat)
    requires i < |slots| && j < |slots| && i != j
    ensures One(slots[i]) + One(slots[j]) <= Named(slots)
  {
    NamedUpdate(slots, i, EMPTY);
    NamedUpdate(slots[i := EMPTY], j, EMPTY);
  }

  lemma {:induction false} NamedAppend(a: seq<Vpi>, b: seq<Vpi>)
    ensures Named(a + b) == Named(a) + Named(b)
  {
    if b == [] {
      assert a + b == a;
    } else {
      var n := |b| - 1;
      assert (a + b)[..|a| + n] == a + b[..n];
      NamedAppend(a, b[..n]);
    }
  }

  /** Slots that make the same claims one by one make the same claims together. */
  lemma {:induction false} NamedSame(a: seq<Vpi>, b: seq<Vpi>)
    requires |a| == |b| && forall k | 0 <= k < |a| :: One(a[k]) == One(b[k])
    ensures Named(a) == Named(b)
  {
    if a != [] {
      NamedSame(a[..|a| - 1], b[..|b| - 1]);
    }
  }

  lemma {:induction false} NamedNothing(slots: seq<Vpi>)
    requires forall k | 0 <= k < |slots| :: !slots[k].used
    ensures Named(slots) == multiset{}
  {
    if slots != [] {
      NamedNothing(slots[..|slots| - 1]);
    }
  }

  lemma {:induction false} RegionsUpdate(regions: seq<Region>, k: nat, rg: Region)
    requires k < |regions|
    ensures RegionsClaims(regions[k := rg]) == RegionsClaims(regions) - RegionClaims(regions[k]) + RegionClaims(rg)
    ensures RegionClaims(regions[k]) <= RegionsClaims(regions)
  {
    hide RegionClaims;
    var n := |regions| - 1;
    if k == n {
      assert regions[k := rg][..n] == regions[..n];
      SwapLast(RegionsClaims(regions[..n]), RegionClaims(regions[k]), RegionClaims(rg));
    } else {
      assert regions[k := rg][..n] == regions[..n][k := rg];
      RegionsUpdate(regions[..n], k, rg);
      SwapPart(RegionsClaims(regions[..n]), RegionClaims(regions[k]), RegionClaims(rg), RegionClaims(regions[n]));
    }
  }

  lemma {:induction false} TotalUpdate(procs: seq<Option<Space>>, i: nat, p: Option<Space>)
    requires i < |procs|
    ensures Total(procs[i := p]) == Total(procs) - Claims(procs[i]) + Claims(p)
    ensures Claims(procs[i]) <= Total(procs)
  {
    hide Claims;
    var n := |procs| - 1;
    if i == n {
      assert procs[i := p][..n] == procs[..n];
      SwapLast(Total(procs[..n]), Claims(procs[i]), Claims(p));
    } else {
      assert procs[i := p][..n] == procs[..n][i := p];
      TotalUpdate(procs[..n], i, p);
      SwapPart(Total(procs[..n]), Claims(procs[i]), Claims(p), Claims(procs[n]));
    }
  }

  // ------------------------------------------------------------ descriptor slots

  /** Result of va2vpage_info: the slot exists, a later chunk could not be had, or the very
      first chunk could not be had (the code then clears page 0 through a null pointer). */
  datatype Slot = Found(ph: Phys, rg: Region) | NoMemory(ph: Phys, rg: Region) | Crash

  ghost function EmptyChunk(): (c: seq<Vpi>)
    ensures |c| == VPIPPAGE
  {
    seq(VPIPPAGE, i => EMPTY)
  }

  ghost function WithChunk(rg: Region, pg: nat): Region
  {
    rg.(chunks := rg.chunks + [pg], slots := rg.slots + EmptyChunk())
  }

  ghost function EnsureSlot(ph: Phys, rg: Region, idx: nat): (r: Slot)
    ensures r.Found? ==> idx < |r.rg.slots| && |r.ph.core| == |ph.core| && r.ph.data == ph.data
    decreases idx - |rg.slots|
  {
    if idx < |rg.slots| then Found(ph, rg)
    else
      var (ph1, pg) := Kalloc(ph);
      if pg.None? then (if rg.chunks == [] then Crash else NoMemory(ph1, rg))
      else EnsureSlot(ph1, WithChunk(rg, pg.value), idx)
  }

  /** `m'` is `m` plus claims on pages that nobody claimed, one claim each. */
  ghost predicate FreshClaims(m: multiset<nat>, m': multiset<nat>)
  {
    && (forall x | x in m :: m'[x] == m[x])
    && (forall x | x in m' && x !in m :: m'[x] == 1)
  }

  /** Same region with more empty chunks at the end. */
  ghost predicate Extends(rg: Region, rg': Region)
  {
    && (rg'.down, rg'.base, rg'.size) == (rg.down, rg.base, rg.size)
    && rg.chunks <= rg'.chunks
    && |rg.slots| <= |rg'.slots| == VPIPPAGE * |rg'.chunks|
    && rg'.slots[..|rg.slots|] == rg.slots
    && (forall k | |rg.slots| <= k < |rg'.slots| :: rg'.slots[k] == EMPTY)
  }

  lemma ExtendsTrans(a: Region, b: Region, c: Region)
    requires Extends(a, b) && Extends(b, c)
    ensures Extends(a, c)
  {
    assert forall k | 0 <= k < |a.slots| :: c.slots[..|b.slots|][k] == b.slots[k];
    assert forall k | |a.slots| <= k < |b.slots| :: c.slots[..|b.slots|][k] == EMPTY;
    assert forall k | 0 <= k < |a.slots| :: b.slots[..|a.slots|][k] == a.slots[k];
  }

  lemma FreshTrans(a: multiset<nat>, b: multiset<nat>, c: multiset<nat>)
    requires FreshClaims(a, b) && FreshClaims(b, c)
    ensures FreshClaims(a, c)
  {
    assert forall x | x in a :: x in b && c[x] == b[x];
  }

  lemma ExtraPart(c: multiset<nat>, n: multiset<nat>, x: multiset<nat>)
    ensures c + x + (n + multiset{}) == c + n + x
  {
  }

  lemma AddChunkClaims(rg: Region, pg: nat)
    ensures RegionClaims(WithChunk(rg, pg)) == RegionClaims(rg) + multiset{pg}
  {
    hide Named;
    NamedAppend(rg.slots, EmptyChunk());
    NamedNothing(EmptyChunk());
    ExtraPart(multiset(rg.chunks), Named(rg.slots), multiset{pg});
    assert multiset(rg.chunks + [pg]) == multiset(rg.chunks) + multiset{pg};
  }

  lemma AddChunk(rg: Region, pg: nat)
    requires |rg.slots| == VPIPPAGE * |rg.chunks|
    ensures Extends(rg, WithChunk(rg, pg))
  {
  }

  /** Chunks to add to `have` slots before slot k - 1 exists. */
  ghost function NewChunks(have: nat, k: nat): nat
  {
    if k <= have then 0 else (k - have + VPIPPAGE - 1) / VPIPPAGE
  }

  lemma ChunkStep(have: nat, k: nat)
    requires have < k
    ensures NewChunks(have, k) == 1 + NewChunks(have + VPIPPAGE, k)
  {
  }

  lemma NoChunks(have: nat, k: nat)
    ensures NewChunks(have, k) == 0 <==> k <= have
  {
  }

  ghost predicate ChunkShape(rg: Region)
  {
    |rg.slots| == VPIPPAGE * |rg.chunks|
  }

  /** The slot is found exactly when there is a page for every missing chunk, and the kernel clears a
      null page exactly when there is none for the first. */
  lemma {:induction false} EnsureSlotCount(ph: Phys, rg: Region, idx: nat, rest: multiset<nat>)
    requires Ledger(ph, rest + RegionClaims(rg)) && ChunkShape(rg)
    ensures var r, c := EnsureSlot(ph, rg, idx), NewChunks(|rg.slots|, idx + 1);
      && (r.Found? <==> c <= ph.freePages)
      && (r.Found? ==> r.ph.freePages == ph.freePages - c && |r.rg.slots| == |rg.slots| + VPIPPAGE * c)
      && (r.Crash? <==> c > 0 && rg.chunks == [] && ph.freePages == 0)
    decreases idx - |rg.slots|
  {
    hide Ledger, RegionClaims, NewChunks;
    NoChunks(|rg.slots|, idx + 1);
    FreeCount(ph, rest + RegionClaims(rg));
    if idx >= |rg.slots| {
      ChunkStep(|rg.slots|, idx + 1);
      KallocLedger(ph, rest + RegionClaims(rg));
      var (ph1, pg) := Kalloc(ph);
      if pg.Some? {
        AddChunkClaims(rg, pg.value);
        var rg1 := WithChunk(rg, pg.value);
        assert rest + RegionClaims(rg1) == rest + RegionClaims(rg) + multiset{pg.value};
        EnsureSlotCount(ph1, rg1, idx, rest);
      }
    }
  }

  lemma {:induction false} EnsureSlotLedger(ph: Phys, rg: Region, idx: nat, rest: multiset<nat>)
    requires Ledger(ph, rest + RegionClaims(rg)) && |rg.slots| == VPIPPAGE * |rg.chunks|
    ensures var r := EnsureSlot(ph, rg, idx);
      && (r.Crash? <==> NewChunks(|rg.slots|, idx + 1) > 0 && rg.chunks == [] && ph.freePages == 0)
      && (!r.Crash? ==>
        && Extends(rg, r.rg) && r.ph.data == ph.data && r.ph.lo == ph.lo
        && Ledger(r.ph, rest + RegionClaims(r.rg))
        && FreshClaims(rest + RegionClaims(rg), rest + RegionClaims(r.rg))
        && (r.NoMemory? ==> r.ph.freePages == 0))
    decreases idx - |rg.slots|
  {
    hide Ledger, NewChunks;
    EnsureSlotCount(ph, rg, idx, rest);
    if idx >= |rg.slots| {
      KallocLedger(ph, rest + RegionClaims(rg));
      var (ph1, pg) := Kalloc(ph);
      if pg.Some? {
        AddChunkClaims(rg, pg.value);
        AddChunk(rg, pg.value);
        var rg1 := WithChunk(rg, pg.value);
        assert rest + RegionClaims(rg1) == rest + RegionClaims(rg) + multiset{pg.value};
        EnsureSlotLedger(ph1, rg1, idx, rest);
        var r := EnsureSlot(ph1, rg1, idx);
        if !r.Crash? {
          ExtendsTrans(rg, rg1, r.rg);
          FreshTrans(rest + RegionClaims(rg), rest + RegionClaims(rg1), rest + RegionClaims(r.rg));
        }
      }
    }
  }

  // ------------------------------------------------------- vregionaddmap

  ghost function SetSlot(rg: Region, k: nat, v: Vpi): Region
    requires k < |rg.slots|
  {
    rg.(slots := rg.slots[k := v])
  }

  lemma SwapSecond(c: multiset<nat>, n: multiset<nat>, o: multiset<nat>, v: multiset<nat>)
    requires o <= n
    ensures c + (n - o + v) == c + n - o + v && o <= c + n
  {
  }

  lemma SetSlotClaims(rg: Region, k: nat, v: Vpi)
    requires k < |rg.slots|
    ensures RegionClaims(SetSlot(rg, k, v)) == RegionClaims(rg) - One(rg.slots[k]) + One(v)
    ensures One(rg.slots[k]) <= RegionClaims(rg)
  {
    hide Named, One;
    NamedUpdate(rg.slots, k, v);
    SwapSecond(multiset(rg.chunks), Named(rg.slots), One(rg.slots[k]), One(v));
  }

  /** `done` pages were mapped before the request ended or memory ran out. */
  datatype Added = Added(ph: Phys, rg: Region, done: nat) | AddCrash

  ghost function NewSlot(pg: nat): Vpi
  {
    Vpi(true, true, true, false, pg)
  }

  ghost function AddPages(ph: Phys, rg: Region, idx: nat, contents: seq<Page>): Added
    requires |ph.core| == |ph.data|
    decreases |contents|
  {
    if contents == [] then Added(ph, rg, 0)
    else
      match EnsureSlot(ph, rg, idx)
      case Crash => AddCrash
      case NoMemory(ph1, rg1) => Added(ph1, rg1, 0)
      case Found(ph1, rg1) =>
        var (ph2, pg) := Kalloc(ph1);
        if pg.None? then Added(ph2, rg1, 0)
        else
          match AddPages(Store(ph2, pg.value, contents[0]), SetSlot(rg1, idx, NewSlot(pg.value)),
                         idx + 1, contents[1..])
          case AddCrash => AddCrash
          case Added(ph3, rg3, d) => Added(ph3, rg3, d + 1)
  }

  /** Every slot from `idx` on is empty. */
  ghost predicate EmptyFrom(slots: seq<Vpi>, idx: nat)
  {
    forall k | idx <= k < |slots| :: slots[k] == EMPTY
  }

  /** `rg'` is `rg` with `d` new writable pages from slot `idx` on and empty slots after them. */
  ghost predicate Appended(rg: Region, rg': Region, idx: nat, d: nat)
  {
    && (rg'.down, rg'.base, rg'.size) == (rg.down, rg.base, rg.size)
    && rg.chunks <= rg'.chunks && ChunkShape(rg')
    && idx <= |rg.slots| <= |rg'.slots| && idx + d <= |rg'.slots|
    && rg'.slots[..idx] == rg.slots[..idx]
    && (forall k | idx <= k < idx + d :: rg'.slots[k] == NewSlot(rg'.slots[k].ppn))
    && EmptyFrom(rg'.slots, idx + d)
  }

  lemma AppendedStep(rg: Region, rg1: Region, rg': Region, idx: nat, d: nat, pg: nat)
    requires idx <= |rg.slots| && EmptyFrom(rg.slots, idx)
    requires Extends(rg, rg1) && idx < |rg1.slots|
    requires Appended(SetSlot(rg1, idx, NewSlot(pg)), rg', idx + 1, d)
    ensures Appended(rg, rg', idx, d + 1)
    ensures rg'.slots[idx].ppn == pg
  {
    var rg2 := SetSlot(rg1, idx, NewSlot(pg));
    forall k | 0 <= k <= idx ensures rg'.slots[k] == rg2.slots[k] {
      assert rg'.slots[..idx + 1][k] == rg2.slots[..idx + 1][k];
    }
    forall k | 0 <= k < idx ensures rg'.slots[k] == rg.slots[k] {
      assert rg1.slots[..|rg.slots|][k] == rg.slots[k];
    }
  }

  lemma NewSlotLedger(ph: Phys, rg: Region, idx: nat, pg: nat, page: Page, rest: multiset<nat>)
    requires Ledger(ph, rest + RegionClaims(rg) + multiset{pg}) && pg !in rest + RegionClaims(rg)
    requires idx < |rg.slots| && rg.slots[idx] == EMPTY && pg < |ph.data|
    ensures var rg' := SetSlot(rg, idx, NewSlot(pg));
      && rest + RegionClaims(rg') == rest + RegionClaims(rg) + multiset{pg}
      && Ledger(Store(ph, pg, page), rest + RegionClaims(rg'))
      && FreshClaims(rest + RegionClaims(rg), rest + RegionClaims(rg'))
      && SameData(ph, Store(ph, pg, page), rest + RegionClaims(rg))
  {
    SetSlotClaims(rg, idx, NewSlot(pg));
    var rg' := SetSlot(rg, idx, NewSlot(pg));
    assert RegionClaims(rg') == RegionClaims(rg) + multiset{pg};
    assert rest + RegionClaims(rg') == rest + RegionClaims(rg) + multiset{pg};
  }

  lemma SameDataTrans(a: Phys, b: Phys, c: Phys, m: multiset<nat>, m': multiset<nat>)
    requires SameData(a, b, m) && SameData(b, c, m') && FreshClaims(m, m')
    ensures SameData(a, c, m)
  {
    assert forall x | x in m :: x in m';
  }

  ghost predicate Contents(ph: Phys, slots: seq<Vpi>, idx: nat, contents: seq<Page>)
  {
    forall i | 0 <= i < |contents| && idx + i < |slots| && slots[idx + i].ppn < |ph.data| ::
      ph.data[slots[idx + i].ppn] == contents[i]
  }

  /** One page followed by the rest of the request. */
  lemma AddPagesJoin(ph: Phys, ph1: Phys, ph2: Phys, ph3: Phys, ph': Phys, rg: Region, rg1: Region, rg': Region,
                     idx: nat, contents: seq<Page>, d: nat, pg: nat, rest: multiset<nat>)
    requires idx <= |rg.slots| && EmptyFrom(rg.slots, idx) && contents != [] && d < |contents|
    requires Extends(rg, rg1) && idx < |rg1.slots|
    requires FreshClaims(rest + RegionClaims(rg), rest + RegionClaims(rg1))
    requires SameData(ph, ph1, rest + RegionClaims(rg)) && SameData(ph2, ph3, rest + RegionClaims(rg1))
    requires ph1.data == ph2.data && ph1.lo == ph2.lo
    requires pg < |ph3.data| && ph3.data[pg] == contents[0]
    requires var rg3 := SetSlot(rg1, idx, NewSlot(pg));
      && rest + RegionClaims(rg3) == rest + RegionClaims(rg1) + multiset{pg}
      && FreshClaims(rest + RegionClaims(rg1), rest + RegionClaims(rg3))
      && Appended(rg3, rg', idx + 1, d)
      && FreshClaims(rest + RegionClaims(rg3), rest + RegionClaims(rg'))
      && SameData(ph3, ph', rest + RegionClaims(rg3))
    requires Contents(ph', rg'.slots, idx + 1, contents[1..][..d])
    ensures Appended(rg, rg', idx, d + 1)
    ensures FreshClaims(rest + RegionClaims(rg), rest + RegionClaims(rg'))
    ensures SameData(ph, ph', rest + RegionClaims(rg))
    ensures Contents(ph', rg'.slots, idx, contents[..d + 1])
  {
    hide RegionClaims;
    var rg3 := SetSlot(rg1, idx, NewSlot(pg));
    AppendedStep(rg, rg1, rg', idx, d, pg);
    FreshTrans(rest + RegionClaims(rg), rest + RegionClaims(rg1), rest + RegionClaims(rg3));
    FreshTrans(rest + RegionClaims(rg), rest + RegionClaims(rg3), rest + RegionClaims(rg'));
    SameDataTrans(ph, ph1, ph3, rest + RegionClaims(rg), rest + RegionClaims(rg1));
    SameDataTrans(ph, ph3, ph', rest + RegionClaims(rg), rest + RegionClaims(rg3));
    assert ph'.data[pg] == contents[0];
    forall i | 0 <= i < d + 1 && rg'.slots[idx + i].ppn < |ph'.data|
      ensures ph'.data[rg'.slots[idx + i].ppn] == contents[i]
    {
      if i > 0 {
        assert rg'.slots[idx + 1 + (i - 1)].ppn < |ph'.data|;
        assert contents[1..][..d][i - 1] == contents[i];
      }
    }
  }

  /** Mapping pages claims one new page a slot (and one a chunk), gives each its contents and
      touches no page already claimed; it stops early only when no page is left. */
  ghost predicate AddResult(ph: Phys, rg: Region, idx: nat, contents: seq<Page>, rest: multiset<nat>, r: Added)
    requires r.Added?
  {
    && Appended(rg, r.rg, idx, r.done) && r.done <= |contents|
    && Ledger(r.ph, rest + RegionClaims(r.rg))
    && FreshClaims(rest + RegionClaims(rg), rest + RegionClaims(r.rg))
    && SameData(ph, r.ph, rest + RegionClaims(rg))
    && Contents(r.ph, r.rg.slots, idx, contents[..r.done])
    && (r.done < |contents| ==> r.ph.freePages == 0)
  }

  ghost predicate AddReady(ph: Phys, rg: Region, idx: nat, rest: multiset<nat>)
  {
    && Ledger(ph, rest + RegionClaims(rg)) && ChunkShape(rg)
    && idx <= |rg.slots| && EmptyFrom(rg.slots, idx)
  }

  /** The memory and region after the first page of a request. */
  ghost function AddFirst(ph: Phys, rg: Region, idx: nat, page: Page): (Phys, Region)
    requires |ph.core| == |ph.data|
    requires EnsureSlot(ph, rg, idx).Found? && Kalloc(EnsureSlot(ph, rg, idx).ph).1.Some?
  {
    var e := EnsureSlot(ph, rg, idx);
    var (ph2, pg) := Kalloc(e.ph);
    (Store(ph2, pg.value, page), SetSlot(e.rg, idx, NewSlot(pg.value)))
  }

  lemma AddReadyFacts(ph: Phys, rg: Region, idx: nat, rest: multiset<nat>)
    requires AddReady(ph, rg, idx, rest)
    ensures |ph.core| == |ph.data| && Ledger(ph, rest + RegionClaims(rg))
    ensures Extends(rg, rg) && FreshClaims(rest + RegionClaims(rg), rest + RegionClaims(rg))
    ensures var e := EnsureSlot(ph, rg, idx);
      !e.Crash? ==>
        && Extends(rg, e.rg) && e.ph.data == ph.data && e.ph.lo == ph.lo
        && Ledger(e.ph, rest + RegionClaims(e.rg))
        && FreshClaims(rest + RegionClaims(rg), rest + RegionClaims(e.rg))
        && (e.NoMemory? ==> e.ph.freePages == 0)
        && (e.Found? && Kalloc(e.ph).1.None? ==> Kalloc(e.ph).0 == e.ph && e.ph.freePages == 0)
  {
    hide RegionClaims, PhysOk;
    EnsureSlotLedger(ph, rg, idx, rest);
    var e := EnsureSlot(ph, rg, idx);
    if e.Found? {
      KallocLedger(e.ph, rest + RegionClaims(e.rg));
    }
    LedgerShape(ph, rest + RegionClaims(rg));
  }

  lemma AddFirstReady(ph: Phys, rg: Region, idx: nat, page: Page, rest: multiset<nat>)
    requires AddReady(ph, rg, idx, rest)
    requires EnsureSlot(ph, rg, idx).Found? && Kalloc(EnsureSlot(ph, rg, idx).ph).1.Some?
    ensures |ph.core| == |ph.data|
    ensures var (ph3, rg3) := AddFirst(ph, rg, idx, page); AddReady(ph3, rg3, idx + 1, rest)
  {
    hide Ledger, RegionClaims, EnsureSlot, Kalloc, FreshClaims, SameData;
    AddReadyFacts(ph, rg, idx, rest);
    var e := EnsureSlot(ph, rg, idx);
    KallocLedger(e.ph, rest + RegionClaims(e.rg));
    var (ph2, pg) := Kalloc(e.ph);
    assert e.rg.slots[idx] == EMPTY;
    NewSlotLedger(ph2, e.rg, idx, pg.value, page, rest);
  }

  lemma AddFirstJoin(ph: Phys, rg: Region, idx: nat, contents: seq<Page>, rest: multiset<nat>, r: Added)
    requires AddReady(ph, rg, idx, rest) && contents != []
    requires EnsureSlot(ph, rg, idx).Found? && Kalloc(EnsureSlot(ph, rg, idx).ph).1.Some?
    requires r.Added?
    requires var (ph3, rg3) := AddFirst(ph, rg, idx, contents[0]);
      AddResult(ph3, rg3, idx + 1, contents[1..], rest, r)
    ensures AddResult(ph, rg, idx, contents, rest, Added(r.ph, r.rg, r.done + 1))
  {
    EnsureSlotLedger(ph, rg, idx, rest);
    var e := EnsureSlot(ph, rg, idx);
    KallocLedger(e.ph, rest + RegionClaims(e.rg));
    var (ph2, pg) := Kalloc(e.ph);
    NewSlotLedger(ph2, e.rg, idx, pg.value, contents[0], rest);
    hide Ledger, RegionClaims, FreshClaims, Appended;
    AddPagesJoin(ph, e.ph, ph2, Store(ph2, pg.value, contents[0]), r.ph, rg, e.rg, r.rg, idx, contents, r.done,
                 pg.value, rest);
  }

  /** Nothing mapped: the request was empty, or memory ran out (perhaps after a chunk was added). */
  lemma AddNone(ph: Phys, rg: Region, idx: nat, contents: seq<Page>, rest: multiset<nat>, ph': Phys, rg': Region)
    requires AddReady(ph, rg, idx, rest) && ph'.data == ph.data && ph'.lo == ph.lo
    requires Extends(rg, rg') && Ledger(ph', rest + RegionClaims(rg'))
    requires FreshClaims(rest + RegionClaims(rg), rest + RegionClaims(rg'))
    requires contents == [] || ph'.freePages == 0
    ensures AddResult(ph, rg, idx, contents, rest, Added(ph', rg', 0))
  {
    hide PhysOk, RegionClaims;
  }

  /** The pages a request for n more takes: one each, and one for every chunk that is missing. */
  ghost function PagesFor(rg: Region, idx: nat, n: nat): nat
  {
    if n == 0 then 0 else n + NewChunks(|rg.slots|, idx + n)
  }

  lemma ReadyShape(ph: Phys, rg: Region, idx: nat, rest: multiset<nat>)
    requires AddReady(ph, rg, idx, rest)
    ensures idx <= |rg.slots| == VPIPPAGE * |rg.chunks| && Ledger(ph, rest + RegionClaims(rg)) && ChunkShape(rg)
  {
  }

  /** Going on after the first page. */
  lemma CountStep(rg: Region, idx: nat, n: nat)
    requires idx <= |rg.slots| && n > 0
    ensures var c := NewChunks(|rg.slots|, idx + 1);
      && c <= 1 && NewChunks(|rg.slots|, idx + n) == c + NewChunks(|rg.slots| + VPIPPAGE * c, idx + n)
      && NewChunks(|rg.slots| + VPIPPAGE * c, idx + 1) == 0
  {
    if idx == |rg.slots| { ChunkStep(|rg.slots|, idx + n); }
  }

  /** The request is met exactly when its pages are free, and dies exactly when it needs a first chunk
      and nothing is free. */
  lemma {:induction false} AddPagesCount(ph: Phys, rg: Region, idx: nat, contents: seq<Page>, rest: multiset<nat>)
    requires AddReady(ph, rg, idx, rest)
    ensures |ph.core| == |ph.data|
    ensures var r, n := AddPages(ph, rg, idx, contents), PagesFor(rg, idx, |contents|);
      && (r.AddCrash? <==> contents != [] && rg.chunks == [] && ph.freePages == 0)
      && (r.Added? && r.done == |contents| <==> n <= ph.freePages)
      && (n <= ph.freePages ==> r.ph.freePages == ph.freePages - n)
      && (n <= ph.freePages ==> |r.rg.slots| == |rg.slots| + VPIPPAGE * NewChunks(|rg.slots|, idx + |contents|))
    decreases |contents|
  {
    hide AddReady, Ledger, RegionClaims, EnsureSlot, Kalloc, NewChunks, FreshClaims, Extends;
    AddReadyFacts(ph, rg, idx, rest);
    FreeCount(ph, rest + RegionClaims(rg));
    NoChunks(|rg.slots|, idx + |contents|);
    ReadyShape(ph, rg, idx, rest);
    if contents != [] {
      EnsureSlotCount(ph, rg, idx, rest);
      CountStep(rg, idx, |contents|);
      NoChunks(|rg.slots|, idx + 1);
      var e := EnsureSlot(ph, rg, idx);
      if e.Found? {
        KallocLedger(e.ph, rest + RegionClaims(e.rg));
        if Kalloc(e.ph).1.Some? {
          AddFirstReady(ph, rg, idx, contents[0], rest);
          var (ph3, rg3) := AddFirst(ph, rg, idx, contents[0]);
          ReadyShape(ph3, rg3, idx + 1, rest);
          AddPagesCount(ph3, rg3, idx + 1, contents[1..], rest);
        }
      }
    }
  }

  lemma {:induction false} AddPagesLedger(ph: Phys, rg: Region, idx: nat, contents: seq<Page>, rest: multiset<nat>)
    requires AddReady(ph, rg, idx, rest)
    ensures |ph.core| == |ph.data|
    ensures var r := AddPages(ph, rg, idx, contents);
      && (r.AddCrash? <==> contents != [] && rg.chunks == [] && ph.freePages == 0)
      && (r.Added? ==> AddResult(ph, rg, idx, contents, rest, r))
    decreases |contents|
  {
    hide AddReady, AddResult, FreshClaims, Extends, Ledger, RegionClaims;
    AddPagesCount(ph, rg, idx, contents, rest);
    var e := EnsureSlot(ph, rg, idx);
    AddReadyFacts(ph, rg, idx, rest);
    if contents == [] {
      AddNone(ph, rg, idx, contents, rest, ph, rg);
    } else if !e.Crash? {
      if e.Found? && Kalloc(e.ph).1.Some? {
        AddFirstReady(ph, rg, idx, contents[0], rest);
        var (ph3, rg3) := AddFirst(ph, rg, idx, contents[0]);
        AddPagesLedger(ph3, rg3, idx + 1, contents[1..], rest);
        var r := AddPages(ph3, rg3, idx + 1, contents[1..]);
        if r.Added? {
          AddFirstJoin(ph, rg, idx, contents, rest, r);
        }
      } else {
        AddNone(ph, rg, idx, contents, rest, e.ph, e.rg);
      }
    }
  }

  lemma SameDataEq(ph: Phys, ph': Phys, m: multiset<nat>)
    requires ph.data == ph'.data && ph.lo == ph'.lo
    ensures SameData(ph, ph', m)
  {
  }

  ghost function Cleared(v: Vpi): Vpi
  {
    Vpi(false, false, false, v.cow, 0)
  }

  /** The addmap_failure path: unmap the last `k` pages, highest first. */
  ghost function RollBack(ph: Phys, rg: Region, first: nat, k: nat): (r: (Phys, Region))
    requires |ph.core| == |ph.data| && first + k <= |rg.slots|
    requires forall i | first <= i < first + k :: rg.slots[i].ppn < |ph.core|
    decreases k
  {
    if k == 0 then (ph, rg)
    else
      var v := rg.slots[first + k - 1];
      RollBack(Kfree(ph, v.ppn), SetSlot(rg, first + k - 1, Cleared(v)), first, k - 1)
  }

  lemma RemovePart(rest: multiset<nat>, c: multiset<nat>, o: multiset<nat>)
    requires o <= c
    ensures rest + (c - o + multiset{}) == rest + c - o && o <= rest + c
  {
  }

  lemma ClearLedger(ph: Phys, rg: Region, k: nat, rest: multiset<nat>)
    requires Ledger(ph, rest + RegionClaims(rg)) && k < |rg.slots| && rg.slots[k].used
    ensures rg.slots[k].ppn < |ph.core| == |ph.data|
    ensures var ph', rg' := Kfree(ph, rg.slots[k].ppn), SetSlot(rg, k, Cleared(rg.slots[k]));
      && Ledger(ph', rest + RegionClaims(rg'))
      && SameData(ph, ph', rest + RegionClaims(rg'))
      && rest + RegionClaims(rg') <= rest + RegionClaims(rg)
  {
    hide RegionClaims, PhysOk, Kfree;
    var pg := rg.slots[k].ppn;
    SetSlotClaims(rg, k, Cleared(rg.slots[k]));
    RemovePart(rest, RegionClaims(rg), multiset{pg});
    assert pg in multiset{pg};
    KfreeLedger(ph, rest + RegionClaims(rg), pg);
    LedgerShape(ph, rest + RegionClaims(rg));
  }

  lemma SameDataShrink(a: Phys, b: Phys, c: Phys, m: multiset<nat>, m': multiset<nat>)
    requires SameData(a, b, m) && SameData(b, c, m') && m' <= m
    ensures SameData(a, c, m')
  {
    assert forall x | x in m' :: x in m;
  }

  lemma SameDataRefl(ph: Phys, m: multiset<nat>)
    requires Ledger(ph, m)
    ensures SameData(ph, ph, m) && |ph.core| == |ph.data|
  {
  }

  /** Rolling back returns exactly the pages that were mapped and leaves every other slot alone. */
  lemma {:induction false} RollBackLedger(ph: Phys, rg: Region, first: nat, k: nat, rest: multiset<nat>)
    requires Ledger(ph, rest + RegionClaims(rg)) && first + k <= |rg.slots|
    requires forall i | first <= i < first + k :: rg.slots[i] == NewSlot(rg.slots[i].ppn)
    ensures |ph.core| == |ph.data| && forall i | first <= i < first + k :: rg.slots[i].ppn < |ph.core|
    ensures var (ph', rg') := RollBack(ph, rg, first, k);
      && rg' == rg.(slots := rg'.slots) && |rg'.slots| == |rg.slots|
      && (forall i | 0 <= i < |rg.slots| :: rg'.slots[i] == if first <= i < first + k then EMPTY else rg.slots[i])
      && Ledger(ph', rest + RegionClaims(rg'))
      && SameData(ph, ph', rest + RegionClaims(rg'))
      && rest + RegionClaims(rg') <= rest + RegionClaims(rg)
    decreases k
  {
    hide Ledger;
    hide SameData;
    hide RegionClaims;
    if k > 0 {
      var j := first + k - 1;
      ClearLedger(ph, rg, j, rest);
      var ph1, rg1 := Kfree(ph, rg.slots[j].ppn), SetSlot(rg, j, Cleared(rg.slots[j]));
      RollBackLedger(ph1, rg1, first, k - 1, rest);
      forall i | first <= i < j ensures rg.slots[i].ppn < |ph.core| {
        assert rg1.slots[i] == rg.slots[i];
      }
      var (ph', rg') := RollBack(ph1, rg1, first, k - 1);
      SameDataShrink(ph, ph1, ph', rest + RegionClaims(rg1), rest + RegionClaims(rg'));
    } else {
      SameDataRefl(ph, rest + RegionClaims(rg));
    }
  }
}
