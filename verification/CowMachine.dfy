/** The invariant of the copy-on-write machine, and the two things every call that changes a region
    does: grow the region, and rebuild the hardware table from the regions. */
module CowMachine {
  import opened Types
  import opened CoreMap
  import opened CowSpace

  // ------------------------------------------------------- the hardware view

  function PteOf(v: Vpi): Pte
  {
    Pte(v.ppn, v.present, v.writable)
  }

  /** What vspaceinvalidate writes into the four-level table for one region. */
  function Install(rg: Region): Mapping
  {
    Mapping(rg.down, rg.base, rg.size,
            seq(Backed(rg.size), i requires 0 <= i => if i < |rg.slots| then PteOf(rg.slots[i]) else PteOf(EMPTY)))
  }

  function InstallAll(regions: seq<Region>): seq<Mapping>
  {
    seq(|regions|, r requires 0 <= r < |regions| => Install(regions[r]))
  }

  function Bottom(rg: Region): int
  {
    if rg.down then rg.base - Backed(rg.size) * PGSIZE else rg.base
  }

  /** The two regions have no page in common. */
  predicate Apart(a: Region, b: Region)
  {
    || Backed(a.size) == 0 || Backed(b.size) == 0
    || Bottom(a) + Backed(a.size) * PGSIZE <= Bottom(b) || Bottom(b) + Backed(b.size) * PGSIZE <= Bottom(a)
  }

  /** mappages panics ("remap") when two regions reach the same page. */
  predicate Disjoint(regions: seq<Region>)
  {
    forall a, b | 0 <= a < b < |regions| :: Apart(regions[a], regions[b])
  }

  /** The table maps whole pages. */
  predicate Covers(m: Mapping, va: nat)
  {
    Contains(m.down, m.base, |m.ptes| * PGSIZE, va)
  }

  /** The mapping that translates `va`, if any. */
  ghost function HwFind(hw: seq<Mapping>, va: nat): (r: nat)
    ensures r <= |hw|
    ensures r < |hw| ==> Covers(hw[r], va)
    ensures forall i | 0 <= i < r :: !Covers(hw[i], va)
  {
    if hw == [] then 0
    else if Covers(hw[0], va) then 0
    else 1 + HwFind(hw[1..], va)
  }

  // -------------------------------------------------------------- invariant

  ghost predicate SlotShape(v: Vpi, backed: bool)
  {
    && v.used == backed
    && (backed ==> v.present && v.cow == !v.writable)
    && (!backed ==> v == EMPTY)
  }

  ghost predicate RegionShape(rg: Region)
  {
    && ChunkShape(rg) && Aligned(rg.down, rg.base, rg.size)
    && Backed(rg.size) <= |rg.slots|
    && forall k | 0 <= k < |rg.slots| :: SlotShape(rg.slots[k], k < Backed(rg.size))
  }

  ghost predicate RegionsShape(regions: seq<Region>)
  {
    && |regions| == NREGIONS
    && (forall r | 0 <= r < |regions| :: RegionShape(regions[r]))
    && !regions[VR_HEAP].down && regions[VR_USTACK].down
  }

  ghost predicate SpaceShape(sp: Space)
  {
    RegionsShape(sp.regions) && Disjoint(sp.regions) && sp.hw == InstallAll(sp.regions)
  }

  ghost predicate RegionOwns(rg: Region, pg: nat)
  {
    || pg in rg.chunks
    || exists k | 0 <= k < |rg.slots| :: rg.slots[k].used && rg.slots[k].writable && rg.slots[k].ppn == pg
  }

  /** Pages only this space may hold: its kernel pages and the pages it may write. */
  ghost predicate Owns(sp: Space, pg: nat)
  {
    || pg == sp.kstack || pg in sp.kernTables || pg in sp.userTables
    || exists r | 0 <= r < |sp.regions| :: RegionOwns(sp.regions[r], pg)
  }

  ghost predicate Exclusive(sp: Space, m: multiset<nat>)
  {
    forall pg | Owns(sp, pg) :: m[pg] == 1
  }

  ghost predicate ProcOk(p: Option<Space>, m: multiset<nat>)
  {
    p.Some? ==> SpaceShape(p.value) && Exclusive(p.value, m)
  }

  /** Reference counts are exact, counters are exact, writable pages and kernel pages have a
      single owner, and every installed table agrees with its regions. */
  ghost predicate Inv(s: State)
  {
    && Ledger(s.ph, All(s))
    && (forall i | 0 <= i < |s.procs| :: ProcOk(s.procs[i], All(s)))
    && (forall pg | pg in s.boot :: All(s)[pg] == 1)
  }

  lemma InvLedger(s: State)
    requires Inv(s)
    ensures Ledger(s.ph, All(s))
  {
  }

  lemma {:induction false} RegionInRegions(regions: seq<Region>, r: nat)
    requires r < |regions|
    ensures RegionClaims(regions[r]) <= RegionsClaims(regions)
  {
    RegionsUpdate(regions, r, regions[r]);
  }

  lemma RegionOwnsClaimed(rg: Region, pg: nat)
    requires RegionOwns(rg, pg)
    ensures pg in RegionClaims(rg)
  {
    if pg !in rg.chunks {
      var k :| 0 <= k < |rg.slots| && rg.slots[k].used && rg.slots[k].writable && rg.slots[k].ppn == pg;
      NamedUpdate(rg.slots, k, rg.slots[k]);
      assert pg in One(rg.slots[k]);
    }
  }

  lemma OwnsClaimed(sp: Space, pg: nat)
    requires Owns(sp, pg)
    ensures pg in Claims(Some(sp))
  {
    if pg != sp.kstack && pg !in sp.kernTables && pg !in sp.userTables {
      var r :| 0 <= r < |sp.regions| && RegionOwns(sp.regions[r], pg);
      RegionOwnsClaimed(sp.regions[r], pg);
      RegionInRegions(sp.regions, r);
    }
  }

  /** No page of `rest` that had one owner gets a second one. */
  ghost predicate Gentle(m: multiset<nat>, m': multiset<nat>, rest: multiset<nat>)
  {
    forall pg | pg in rest && m[pg] == 1 :: m'[pg] == 1
  }

  lemma ProcFrame(p: Option<Space>, m: multiset<nat>, m': multiset<nat>, rest: multiset<nat>)
    requires ProcOk(p, m) && Gentle(m, m', rest) && Claims(p) <= rest
    ensures ProcOk(p, m')
  {
    hide SpaceShape, Claims, Owns;
    if p.Some? {
      forall pg | Owns(p.value, pg) ensures m'[pg] == 1 {
        OwnsClaimed(p.value, pg);
      }
    }
  }

  ghost function Rest(s: State, p: nat): multiset<nat>
    requires p < |s.procs|
  {
    All(s) - Claims(s.procs[p])
  }

  lemma RestSplit(s: State, p: nat, v: Option<Space>)
    requires p < |s.procs|
    ensures All(s) == Rest(s, p) + Claims(s.procs[p])
    ensures All(s.(procs := s.procs[p := v])) == Rest(s, p) + Claims(v)
    ensures s.boot <= Rest(s, p)
  {
    hide Claims, Total;
    TotalUpdate(s.procs, p, v);
    var t, c := Total(s.procs), Claims(s.procs[p]);
    assert s.boot + t == s.boot + t - c + c;
    assert s.boot + (t - c + Claims(v)) == s.boot + t - c + Claims(v);
  }

  lemma ClaimsNone()
    ensures Claims(None) == multiset{}
  {
  }

  /** Two different processes make independent claims. */
  lemma OtherClaims(s: State, p: nat, q: nat)
    requires p < |s.procs| && q < |s.procs| && p != q
    ensures Claims(s.procs[q]) <= Rest(s, p)
  {
    hide Claims, Total;
    TotalUpdate(s.procs, p, None);
    var procs' := s.procs[p := None];
    TotalUpdate(procs', q, None);
    assert Claims(None) == multiset{} by { ClaimsNone(); }
    assert Claims(procs'[q]) <= Total(procs') == Total(s.procs) - Claims(s.procs[p]) + multiset{};
  }

  /** Replacing one process keeps the invariant when the new one is in order and the others
      are treated gently. */
  lemma UpdateInv(s: State, p: nat, v: Option<Space>, ph': Phys)
    requires Inv(s) && p < |s.procs|
    requires Ledger(ph', Rest(s, p) + Claims(v)) && ProcOk(v, Rest(s, p) + Claims(v))
    requires Gentle(All(s), Rest(s, p) + Claims(v), Rest(s, p))
    ensures Inv(s.(ph := ph', procs := s.procs[p := v]))
  {
    hide Ledger, Claims, Rest, ProcOk, Total;
    var s' := s.(ph := ph', procs := s.procs[p := v]);
    RestSplit(s, p, v);
    assert All(s') == All(s.(procs := s.procs[p := v]));
    forall i | 0 <= i < |s'.procs| ensures ProcOk(s'.procs[i], All(s')) {
      if i != p {
        OtherClaims(s, p, i);
        ProcFrame(s.procs[i], All(s), All(s'), Rest(s, p));
      }
    }
    forall pg | pg in s'.boot ensures All(s')[pg] == 1 {
      assert pg in Rest(s, p);
    }
  }

  // ------------------------------------------------------ growing a region

  datatype Growth = Grew(ph: Phys, rg: Region) | Kept(ph: Phys, rg: Region) | GrowCrash

  ghost function Zeros(n: nat): (z: seq<Page>)
    ensures |z| == n
  {
    seq(n, i => Filled(0))
  }

  /** The first new byte has address 0: then the unsigned rollback loop has no end. */
  ghost predicate FromZero(rg: Region, size': nat)
  {
    if rg.down then rg.base == size' else rg.base + rg.size == 0
  }

  /** vregionaddmap for the bytes between the old and the new size, with its rollback. */
  ghost function Grow(ph: Phys, rg: Region, size': nat): Growth
    requires |ph.core| == |ph.data| && rg.size <= size'
  {
    var first := Backed(rg.size);
    var n := Backed(size') - first;
    match AddPages(ph, rg, first, Zeros(n))
    case AddCrash => GrowCrash
    case Added(ph1, rg1, d) =>
      if d == n then Grew(ph1, rg1.(size := size'))
      else if !FromZero(rg, size') && |ph1.core| == |ph1.data| && first + d <= |rg1.slots|
              && (forall i | first <= i < first + d :: rg1.slots[i].ppn < |ph1.core|) then
        var (ph2, rg2) := RollBack(ph1, rg1, first, d); Kept(ph2, rg2)
      else GrowCrash
  }

  lemma ExtendsClaims(rg: Region, rg': Region)
    requires Extends(rg, rg')
    ensures RegionClaims(rg) <= RegionClaims(rg')
    ensures Named(rg'.slots) == Named(rg.slots)
  {
    hide Named;
    var tail := rg'.slots[|rg.slots|..];
    assert rg'.slots == rg.slots + tail;
    NamedAppend(rg.slots, tail);
    NamedNothing(tail);
    var c := rg'.chunks[|rg.chunks|..];
    assert rg'.chunks == rg.chunks + c;
    assert multiset(rg'.chunks) == multiset(rg.chunks) + multiset(c);
    ExtraPart(multiset(rg.chunks), Named(rg.slots), multiset(c));
  }

  lemma FreshShrink(m: multiset<nat>, m1: multiset<nat>, m2: multiset<nat>)
    requires FreshClaims(m, m1) && m <= m2 <= m1
    ensures FreshClaims(m, m2)
  {
  }

  lemma SameDataSub(a: Phys, b: Phys, c: Phys, m: multiset<nat>, m2: multiset<nat>)
    requires SameData(a, b, m) && SameData(b, c, m2) && m <= m2
    ensures SameData(a, c, m)
  {
  }

  ghost predicate GrowReady(ph: Phys, rg: Region, size': nat, rest: multiset<nat>)
  {
    && Ledger(ph, rest + RegionClaims(rg)) && RegionShape(rg)
    && rg.size <= size' && Aligned(rg.down, rg.base, size')
  }

  /** The slots of the old size are as before; those added hold distinct pages of zeros. */
  ghost predicate GrewTo(ph: Phys, rg: Region, rg': Region, size': nat)
  {
    && RegionShape(rg') && (rg'.down, rg'.base, rg'.size) == (rg.down, rg.base, size')
    && Backed(rg.size) <= Backed(size') && Backed(rg.size) <= |rg.slots| && rg.chunks <= rg'.chunks
    && rg'.slots[..Backed(rg.size)] == rg.slots[..Backed(rg.size)]
    && forall k | Backed(rg.size) <= k < Backed(size') ::
         rg'.slots[k].writable && (rg'.slots[k].ppn < |ph.data| ==> ph.data[rg'.slots[k].ppn] == Filled(0))
  }

  ghost predicate GrowResult(ph: Phys, rg: Region, size': nat, rest: multiset<nat>, ph': Phys, rg': Region, ok: bool)
  {
    && Ledger(ph', rest + RegionClaims(rg'))
    && FreshClaims(rest + RegionClaims(rg), rest + RegionClaims(rg'))
    && SameData(ph, ph', rest + RegionClaims(rg))
    && GrewTo(ph', rg, rg', if ok then size' else rg.size)
    && (!ok ==> Extends(rg, rg'))
  }

  lemma BackedMono(a: nat, b: nat)
    requires a <= b
    ensures Backed(a) <= Backed(b)
  {
  }

  lemma GrewShape(ph: Phys, rg: Region, rg1: Region, size': nat, contents: seq<Page>)
    requires RegionShape(rg) && rg.size <= size' && Aligned(rg.down, rg.base, size')
    requires contents == Zeros(Backed(size') - Backed(rg.size))
    requires Appended(rg, rg1, Backed(rg.size), |contents|)
    requires Contents(ph, rg1.slots, Backed(rg.size), contents)
    ensures GrewTo(ph, rg, rg1.(size := size'), size')
  {
    var rg' := rg1.(size := size');
    var first := Backed(rg.size);
    forall k | 0 <= k < |rg'.slots| ensures SlotShape(rg'.slots[k], k < Backed(size')) {
      if k < first {
        assert rg1.slots[..first][k] == rg.slots[..first][k];
        assert rg'.slots[k] == rg.slots[k];
      }
    }
    forall k | first <= k < Backed(size') && rg'.slots[k].ppn < |ph.data|
      ensures ph.data[rg'.slots[k].ppn] == Filled(0)
    {
      assert rg1.slots[first + (k - first)].ppn < |ph.data|;
      assert contents[k - first] == Filled(0);
    }
  }

  lemma KeptShape(rg: Region, rg1: Region, rg2: Region, d: nat)
    requires RegionShape(rg) && Appended(rg, rg1, Backed(rg.size), d)
    requires rg2 == rg1.(slots := rg2.slots) && |rg2.slots| == |rg1.slots|
    requires forall i | 0 <= i < |rg1.slots| ::
      rg2.slots[i] == if Backed(rg.size) <= i < Backed(rg.size) + d then EMPTY else rg1.slots[i]
    ensures Extends(rg, rg2) && RegionShape(rg2)
  {
  }

  /** The pages growth takes are free. */
  ghost predicate GrowFits(ph: Phys, rg: Region, size': nat)
    requires rg.size <= size'
  {
    BackedMono(rg.size, size');
    PagesFor(rg, Backed(rg.size), Backed(size') - Backed(rg.size)) <= ph.freePages
  }

  /** Growth that fails without returning: it cannot get the first chunk, or it would roll back past
      address 0. */
  ghost predicate GrowDies(ph: Phys, rg: Region, size': nat)
    requires rg.size <= size'
  {
    !GrowFits(ph, rg, size') && (FromZero(rg, size') || (rg.chunks == [] && ph.freePages == 0))
  }

  /** A request cut short can be rolled back. */
  lemma AddedFits(ph: Phys, rg: Region, first: nat, contents: seq<Page>, rest: multiset<nat>)
    requires AddReady(ph, rg, first, rest)
    ensures |ph.core| == |ph.data|
    ensures var a := AddPages(ph, rg, first, contents);
      a.Added? ==>
        && |a.ph.core| == |a.ph.data| && first + a.done <= |a.rg.slots|
        && (forall i | first <= i < first + a.done :: a.rg.slots[i].ppn < |a.ph.core|)
  {
    hide Ledger, RegionClaims, AddReady, AddPages, FreshClaims, SameData, Contents, RollBack;
    AddPagesLedger(ph, rg, first, contents, rest);
    var a := AddPages(ph, rg, first, contents);
    if a.Added? { RollBackLedger(a.ph, a.rg, first, a.done, rest); }
  }

  lemma NothingNeedsNothing(ph: Phys, rg: Region, first: nat, rest: multiset<nat>)
    requires Ledger(ph, rest + RegionClaims(rg))
    ensures ph.freePages >= 0 && PagesFor(rg, first, 0) == 0
  {
    FreeCount(ph, rest + RegionClaims(rg));
  }

  /** The three outcomes of growth are told apart by what is free. */
  lemma GrowOutcomes(ph: Phys, rg: Region, size': nat, rest: multiset<nat>)
    requires GrowReady(ph, rg, size', rest)
    ensures |ph.core| == |ph.data|
    ensures var g := Grow(ph, rg, size');
      && (g.Grew? <==> GrowFits(ph, rg, size'))
      && (g.GrowCrash? <==> GrowDies(ph, rg, size'))
      && (g.Grew? ==> g.ph.freePages == ph.freePages - PagesFor(rg, Backed(rg.size), Backed(size') - Backed(rg.size)))
      && (g.Grew? ==> |g.rg.slots| == |rg.slots| + VPIPPAGE * NewChunks(|rg.slots|, Backed(size')))
  {
    hide Ledger, RegionClaims, AddPages, AddResult, NewChunks, PagesFor, RollBack;
    var first := Backed(rg.size);
    BackedMono(rg.size, size');
    var z := Zeros(Backed(size') - first);
    LedgerShape(ph, rest + RegionClaims(rg));
    AddPagesCount(ph, rg, first, z, rest);
    NothingNeedsNothing(ph, rg, first, rest);
    AddedFits(ph, rg, first, z, rest);
  }

  lemma GrowReadyAdd(ph: Phys, rg: Region, size': nat, rest: multiset<nat>)
    requires GrowReady(ph, rg, size', rest)
    ensures |ph.core| == |ph.data| && AddReady(ph, rg, Backed(rg.size), rest)
  {
    LedgerShape(ph, rest + RegionClaims(rg));
  }

  lemma SizeIsNoClaim(rg: Region, size': nat)
    ensures RegionClaims(rg.(size := size')) == RegionClaims(rg)
  {
  }

  lemma GrowFailed(ph: Phys, rg: Region, ph1: Phys, rg1: Region, ph2: Phys, rg2: Region, rest: multiset<nat>)
    requires RegionShape(rg) && RegionShape(rg2) && Extends(rg, rg2)
    requires FreshClaims(rest + RegionClaims(rg), rest + RegionClaims(rg1))
    requires rest + RegionClaims(rg2) <= rest + RegionClaims(rg1)
    requires SameData(ph, ph1, rest + RegionClaims(rg)) && SameData(ph1, ph2, rest + RegionClaims(rg2))
    ensures FreshClaims(rest + RegionClaims(rg), rest + RegionClaims(rg2))
    ensures SameData(ph, ph2, rest + RegionClaims(rg))
    ensures GrewTo(ph2, rg, rg2, rg.size)
  {
    hide RegionClaims, FreshClaims, SameData;
    ExtendsClaims(rg, rg2);
    assert rest + RegionClaims(rg) <= rest + RegionClaims(rg2);
    FreshShrink(rest + RegionClaims(rg), rest + RegionClaims(rg1), rest + RegionClaims(rg2));
    SameDataSub(ph, ph1, ph2, rest + RegionClaims(rg), rest + RegionClaims(rg2));
    assert rg2.slots[..Backed(rg.size)] == rg2.slots[..|rg.slots|][..Backed(rg.size)];
  }

  /** Growth is all or nothing, unless it dies.  If its pages are free, exactly the slots of the new size
      are backed and the new ones hold zeros.  If not, size, mapped slots and the reference count of
      every page are as before; only empty descriptor chunks may have been added. */
  lemma GrowAllOrNothing(ph: Phys, rg: Region, size': nat, rest: multiset<nat>)
    requires GrowReady(ph, rg, size', rest)
    ensures |ph.core| == |ph.data|
    ensures var g := Grow(ph, rg, size');
      && (g.Grew? <==> GrowFits(ph, rg, size'))
      && (g.GrowCrash? <==> GrowDies(ph, rg, size'))
      && (!GrowDies(ph, rg, size') ==> GrowResult(ph, rg, size', rest, g.ph, g.rg, GrowFits(ph, rg, size')))
  {
    hide Ledger, RegionClaims, FreshClaims, SameData, Contents, GrowFits, GrowDies, AddReady;
    GrowOutcomes(ph, rg, size', rest);
    GrowReadyAdd(ph, rg, size', rest);
    var first := Backed(rg.size);
    BackedMono(rg.size, size');
    var z := Zeros(Backed(size') - first);
    AddPagesLedger(ph, rg, first, z, rest);
    var a := AddPages(ph, rg, first, z);
    if a.Added? {
      if a.done == |z| {
        assert z[..a.done] == z;
        GrewShape(a.ph, rg, a.rg, size', z);
        assert RegionClaims(a.rg.(size := size')) == RegionClaims(a.rg) by { SizeIsNoClaim(a.rg, size'); }
      } else {
        RollBackLedger(a.ph, a.rg, first, a.done, rest);
        var (ph2, rg2) := RollBack(a.ph, a.rg, first, a.done);
        KeptShape(rg, a.rg, rg2, a.done);
        GrowFailed(ph, rg, a.ph, a.rg, ph2, rg2, rest);
      }
    }
  }

  /** No memory at all: a heap that starts one page up cannot get its first chunk. */
  lemma DiesWithoutChunk()
    ensures var ph := Phys(0, [], [], 0, 0);
      var rg := Region(false, PGSIZE, 0, [], []);
      GrowReady(ph, rg, 1, multiset{}) && Grow(ph, rg, 1).GrowCrash?
  {
    hide Grow;
    var ph, rg := Phys(0, [], [], 0, 0), Region(false, PGSIZE, 0, [], []);
    assert multiset{} + RegionClaims(rg) == multiset{};
    GrowAllOrNothing(ph, rg, 1, multiset{});
  }

  /** One free page, spent on the chunk: a heap at address 0 cannot be rolled back. */
  lemma DiesRollingBack()
    ensures var ph := Phys(0, [CoreEntry(true, 0)], [Filled(0)], 1, 0);
      var rg := Region(false, 0, 0, [], []);
      GrowReady(ph, rg, 1, multiset{}) && Grow(ph, rg, 1).GrowCrash?
  {
    hide Grow, Filled;
    var ph, rg := Phys(0, [CoreEntry(true, 0)], [Filled(0)], 1, 0), Region(false, 0, 0, [], []);
    assert multiset{} + RegionClaims(rg) == multiset{};
    assert AvailableIn(ph.core) == 1 && AllocatedIn(ph.core) == 0 by { assert ph.core[..0] == []; }
    GrowAllOrNothing(ph, rg, 1, multiset{});
    assert Backed(1) == 1 && Backed(0) == 0;
    assert PagesFor(rg, 0, 1) == 2;
  }

  // ---------------------------------------------- changing one region of a space

  lemma MoreNamed(a: seq<Vpi>, b: seq<Vpi>, first: nat)
    requires first <= |a| && first <= |b| && a[..first] == b[..first]
    requires forall k | first <= k < |a| :: !a[k].used
    ensures Named(b) == Named(a) + Named(b[first..])
  {
    assert a == a[..first] + a[first..];
    assert b == a[..first] + b[first..];
    NamedAppend(a[..first], a[first..]);
    NamedNothing(a[first..]);
    NamedAppend(a[..first], b[first..]);
  }

  lemma NamedHas(slots: seq<Vpi>, k: nat)
    requires k < |slots| && slots[k].used
    ensures slots[k].ppn in Named(slots)
  {
  }

  lemma NewSlotClaim(a: seq<Vpi>, b: seq<Vpi>, first: nat, k: nat)
    requires first <= |a| && first <= k < |b| && a[..first] == b[..first] && b[k].used
    requires forall k | first <= k < |a| :: !a[k].used
    ensures Named(a)[b[k].ppn] < Named(b)[b[k].ppn]
  {
    MoreNamed(a, b, first);
    NamedHas(b[first..], k - first);
  }

  lemma PrefixCounts(a: seq<nat>, b: seq<nat>, x: nat)
    requires a <= b
    ensures multiset(a)[x] <= multiset(b)[x]
    ensures x in b && x !in a ==> multiset(a)[x] < multiset(b)[x]
  {
    assert b == a + b[|a|..];
  }

  lemma MoreNamedCounts(a: seq<Vpi>, b: seq<Vpi>, first: nat, x: nat)
    requires first <= |a| && first <= |b| && a[..first] == b[..first]
    requires forall k | first <= k < |a| :: !a[k].used
    ensures Named(a)[x] <= Named(b)[x]
  {
    MoreNamed(a, b, first);
  }

  /** A page the grown region owns and the old one did not is claimed once more than before. */
  lemma GrewNewClaim(ph: Phys, rg: Region, rg': Region, size': nat, pg: nat)
    requires RegionShape(rg) && GrewTo(ph, rg, rg', size') && RegionOwns(rg', pg) && !RegionOwns(rg, pg)
    ensures RegionClaims(rg)[pg] < RegionClaims(rg')[pg]
  {
    hide Named;
    var first := Backed(rg.size);
    assert rg.slots[..first] == rg'.slots[..first];
    forall j | 0 <= j < first ensures rg.slots[j] == rg'.slots[j] {
      assert rg.slots[..first][j] == rg'.slots[..first][j];
    }
    PrefixCounts(rg.chunks, rg'.chunks, pg);
    MoreNamedCounts(rg.slots, rg'.slots, first, pg);
    if pg !in rg'.chunks {
      var k :| 0 <= k < |rg'.slots| && rg'.slots[k].used && rg'.slots[k].writable && rg'.slots[k].ppn == pg;
      NewSlotClaim(rg.slots, rg'.slots, first, k);
    }
  }

  ghost function WithRegion(sp: Space, r: nat, rg: Region): Space
    requires r < |sp.regions|
  {
    sp.(regions := sp.regions[r := rg])
  }

  /** Everything the process claims besides region `r`. */
  ghost function Beside(sp: Space, r: nat): multiset<nat>
    requires r < |sp.regions|
  {
    Claims(Some(sp)) - RegionClaims(sp.regions[r])
  }

  lemma BesideSplit(sp: Space, r: nat, rg: Region)
    requires r < |sp.regions|
    ensures Claims(Some(sp)) == Beside(sp, r) + RegionClaims(sp.regions[r])
    ensures Claims(Some(WithRegion(sp, r, rg))) == Beside(sp, r) + RegionClaims(rg)
  {
    hide RegionClaims, RegionsClaims;
    RegionsUpdate(sp.regions, r, rg);
    var k := multiset{sp.kstack} + multiset(sp.kernTables) + multiset(sp.userTables);
    var t, c := RegionsClaims(sp.regions), RegionClaims(sp.regions[r]);
    assert k + t == k + t - c + c;
    assert k + (t - c + RegionClaims(rg)) == k + t - c + RegionClaims(rg);
  }

  /** State of a process part way through a system call: its regions are in order, its table
      may be stale, and nobody else was disturbed since (ph, sp). */
  ghost predicate Midway(ph: Phys, sp: Space, ph': Phys, sp': Space, rest: multiset<nat>)
  {
    && Ledger(ph', rest + Claims(Some(sp')))
    && RegionsShape(sp'.regions) && Exclusive(sp', rest + Claims(Some(sp')))
    && Gentle(rest + Claims(Some(sp)), rest + Claims(Some(sp')), rest)
    && SameData(ph, ph', rest)
  }

  lemma OwnsAfter(sp: Space, r: nat, rg: Region, pg: nat)
    requires r < |sp.regions| && Owns(WithRegion(sp, r, rg), pg)
    ensures Owns(sp, pg) || RegionOwns(rg, pg)
  {
  }

  lemma GrowExclusive(ph: Phys, sp: Space, r: nat, rg': Region, size': nat, m: multiset<nat>, m': multiset<nat>)
    requires r < |sp.regions| && Exclusive(sp, m)
    requires RegionShape(sp.regions[r]) && GrewTo(ph, sp.regions[r], rg', size')
    requires Claims(Some(sp)) <= m && Claims(Some(WithRegion(sp, r, rg'))) <= m'
    requires FreshClaims(m, m')
    requires forall x :: m'[x] + RegionClaims(sp.regions[r])[x] == m[x] + RegionClaims(rg')[x]
    ensures Exclusive(WithRegion(sp, r, rg'), m')
  {
    hide Claims, RegionClaims, GrewTo, RegionShape;
    forall pg | Owns(WithRegion(sp, r, rg'), pg) ensures m'[pg] == 1 {
      OwnsAfter(sp, r, rg', pg);
      if Owns(sp, pg) {
        OwnsClaimed(sp, pg);
        assert pg in m;
      } else {
        assert !RegionOwns(sp.regions[r], pg);
        GrewNewClaim(ph, sp.regions[r], rg', size', pg);
        OwnsClaimed(WithRegion(sp, r, rg'), pg);
        assert pg in m';
      }
    }
  }

  lemma FreshGentle(m: multiset<nat>, m': multiset<nat>, rest: multiset<nat>)
    requires FreshClaims(m, m')
    ensures Gentle(m, m', rest)
  {
  }

  lemma SameDataPart(a: Phys, b: Phys, m: multiset<nat>, part: multiset<nat>)
    requires SameData(a, b, m) && part <= m
    ensures SameData(a, b, part)
  {
  }

  lemma GrewRegionShape(ph: Phys, rg: Region, rg': Region, size': nat)
    requires GrewTo(ph, rg, rg', size')
    ensures RegionShape(rg') && (rg'.down, rg'.base, rg'.size) == (rg.down, rg.base, size')
  {
  }

  lemma GrowMidway(ph: Phys, sp: Space, r: nat, size': nat, rest: multiset<nat>)
    requires r < |sp.regions| && Ledger(ph, rest + Claims(Some(sp)))
    requires SpaceShape(sp) && Exclusive(sp, rest + Claims(Some(sp)))
    requires sp.regions[r].size <= size' && Aligned(sp.regions[r].down, sp.regions[r].base, size')
    ensures |ph.core| == |ph.data|
    ensures var g := Grow(ph, sp.regions[r], size');
      !g.GrowCrash? ==>
        && Midway(ph, sp, g.ph, WithRegion(sp, r, g.rg), rest)
        && GrewTo(g.ph, sp.regions[r], g.rg, if g.Grew? then size' else sp.regions[r].size)
        && SameData(ph, g.ph, rest + Claims(Some(sp)))
  {
    hide Ledger, Claims, RegionClaims, RegionShape, GrewTo, FreshClaims, SameData, Exclusive, Gentle, Grow, Extends;
    var rg := sp.regions[r];
    var rest' := rest + Beside(sp, r);
    BesideSplit(sp, r, rg);
    assert rest + Claims(Some(sp)) == rest' + RegionClaims(rg);
    GrowAllOrNothing(ph, rg, size', rest');
    var g := Grow(ph, rg, size');
    if !g.GrowCrash? {
      BesideSplit(sp, r, g.rg);
      var sp' := WithRegion(sp, r, g.rg);
      assert rest + Claims(Some(sp')) == rest' + RegionClaims(g.rg);
      var m, m' := rest + Claims(Some(sp)), rest + Claims(Some(sp'));
      GrowExclusive(g.ph, sp, r, g.rg, if g.Grew? then size' else rg.size, m, m');
      FreshGentle(m, m', rest);
      SameDataPart(ph, g.ph, m, rest);
      GrewRegionShape(g.ph, rg, g.rg, if g.Grew? then size' else rg.size);
    }
  }

  // -------------------------------------------------------------- vspaceinvalidate

  /** vspaceinvalidate: free the user tables, build new ones from the regions.  How many table
      pages that takes is decided by the tree (module PageTable) and is a parameter here; the
      kernel panics when they cannot be had or when two regions meet. */
  ghost function Rebuild(ph: Phys, sp: Space, need: nat): Option<(Phys, Space)>
    requires |ph.core| == |ph.data| && InRange(sp.userTables, |ph.core|)
  {
    if !Disjoint(sp.regions) then None
    else
      var (ph2, tables) := KallocN(KfreeAll(ph, sp.userTables), need);
      if tables.None? then None
      else Some((ph2, sp.(userTables := tables.value, hw := InstallAll(sp.regions))))
  }

  ghost function BesideTables(sp: Space): multiset<nat>
  {
    multiset{sp.kstack} + multiset(sp.kernTables) + RegionsClaims(sp.regions)
  }

  lemma TablesSplit(sp: Space)
    ensures Claims(Some(sp)) == BesideTables(sp) + multiset(sp.userTables)
  {
  }

  lemma KallocNFresh(m: multiset<nat>, pages: seq<nat>)
    requires NewPages(m, pages)
    ensures FreshClaims(m, m + multiset(pages))
    ensures forall x | x in pages :: (m + multiset(pages))[x] == 1
  {
  }

  lemma BesideTablesSame(sp: Space, sp': Space)
    requires (sp.kstack, sp.kernTables, sp.regions) == (sp'.kstack, sp'.kernTables, sp'.regions)
    ensures BesideTables(sp) == BesideTables(sp')
  {
  }

  lemma RebuildLedger(ph: Phys, sp: Space, need: nat, rest: multiset<nat>)
    requires Ledger(ph, rest + Claims(Some(sp)))
    ensures |ph.core| == |ph.data| && InRange(sp.userTables, |ph.core|)
    ensures var r := Rebuild(ph, sp, need);
      r.Some? ==>
        var (ph', sp') := r.value;
        && sp' == sp.(userTables := sp'.userTables, hw := InstallAll(sp.regions))
        && Ledger(ph', rest + Claims(Some(sp')))
        && rest + Claims(Some(sp')) == rest + BesideTables(sp) + multiset(sp'.userTables)
        && NewPages(rest + BesideTables(sp), sp'.userTables)
        && SameData(ph, ph', rest + BesideTables(sp))
  {
    hide Ledger, SameData, Claims, BesideTables, NewPages;
    var t := multiset(sp.userTables);
    var m0 := rest + BesideTables(sp);
    TablesSplit(sp);
    assert rest + Claims(Some(sp)) == m0 + t;
    assert m0 + t - t == m0;
    KfreeAllLedger(ph, sp.userTables, m0 + t);
    LedgerShape(ph, m0 + t);
    var ph1 := KfreeAll(ph, sp.userTables);
    KallocNLedger(ph1, need, m0);
    var r := Rebuild(ph, sp, need);
    if r.Some? {
      var (ph', sp') := r.value;
      TablesSplit(sp');
      BesideTablesSame(sp, sp');
      assert rest + Claims(Some(sp')) == m0 + multiset(sp'.userTables);
      SameDataEq(ph1, ph', m0);
      SameDataShrink(ph, ph1, ph', m0, m0);
    }
  }

  lemma OwnsBesideTables(sp: Space, pg: nat)
    requires Owns(sp.(userTables := []), pg)
    ensures pg in BesideTables(sp)
  {
    OwnsClaimed(sp.(userTables := []), pg);
    TablesSplit(sp.(userTables := []));
    BesideTablesSame(sp, sp.(userTables := []));
  }

  lemma GentleRebuild(rest: multiset<nat>, m0: multiset<nat>, m: multiset<nat>, m': multiset<nat>, t: multiset<nat>)
    requires rest <= m0 && m == m0 + t && FreshClaims(m0, m')
    ensures Gentle(m, m', rest)
  {
  }

  lemma RebuildExclusive(sp: Space, sp': Space, m0: multiset<nat>, m: multiset<nat>, m': multiset<nat>)
    requires sp' == sp.(userTables := sp'.userTables, hw := sp'.hw)
    requires BesideTables(sp) <= m0 && m == m0 + multiset(sp.userTables)
    requires FreshClaims(m0, m') && (forall x | x in sp'.userTables :: m'[x] == 1)
    requires Exclusive(sp, m)
    ensures Exclusive(sp', m')
  {
    hide BesideTables;
    forall pg | Owns(sp', pg) ensures m'[pg] == 1 {
      if pg !in sp'.userTables {
        assert Owns(sp.(userTables := []), pg) && Owns(sp, pg);
        OwnsBesideTables(sp, pg);
        assert pg in m0 && m[pg] == 1;
        assert m0[pg] == 1;
      }
    }
  }

  /** A rebuild after a midway state gives a process in order, with its regions' pages untouched. */
  lemma RebuildProc(ph: Phys, sp: Space, need: nat, rest: multiset<nat>)
    requires Ledger(ph, rest + Claims(Some(sp)))
    requires RegionsShape(sp.regions) && Exclusive(sp, rest + Claims(Some(sp)))
    ensures |ph.core| == |ph.data| && InRange(sp.userTables, |ph.core|)
    ensures var r := Rebuild(ph, sp, need);
      r.Some? ==>
        var (ph', sp') := r.value;
        && sp'.regions == sp.regions
        && Ledger(ph', rest + Claims(Some(sp'))) && ProcOk(Some(sp'), rest + Claims(Some(sp')))
        && Gentle(rest + Claims(Some(sp)), rest + Claims(Some(sp')), rest)
        && SameData(ph, ph', rest + BesideTables(sp))
  {
    hide Ledger, SameData, Claims, BesideTables, RegionsShape, NewPages, FreshClaims;
    RebuildLedger(ph, sp, need, rest);
    var r := Rebuild(ph, sp, need);
    if r.Some? {
      var (ph', sp') := r.value;
      var m0 := rest + BesideTables(sp);
      var m, m' := rest + Claims(Some(sp)), rest + Claims(Some(sp'));
      TablesSplit(sp);
      assert m == m0 + multiset(sp.userTables);
      KallocNFresh(m0, sp'.userTables);
      RebuildExclusive(sp, sp', m0, m, m');
      GentleRebuild(rest, m0, m, m', multiset(sp.userTables));
    }
  }

  /** The rebuild succeeds exactly when the regions are apart and there are pages for the new tables,
      the old ones counted in. */
  lemma RebuildIff(ph: Phys, sp: Space, need: nat, rest: multiset<nat>)
    requires Ledger(ph, rest + Claims(Some(sp))) && Exclusive(sp, rest + Claims(Some(sp)))
    ensures |ph.core| == |ph.data| && InRange(sp.userTables, |ph.core|)
    ensures var r := Rebuild(ph, sp, need);
      && (r.Some? <==> Disjoint(sp.regions) && need <= ph.freePages + |sp.userTables|)
      && (r.Some? ==>
        && r.value.0.freePages == ph.freePages + |sp.userTables| - need
        && r.value.1 == sp.(userTables := r.value.1.userTables, hw := InstallAll(sp.regions))
        && |r.value.1.userTables| == need)
  {
    hide Ledger, Claims, Disjoint, InstallAll, BesideTables;
    var t, m0 := multiset(sp.userTables), rest + BesideTables(sp);
    TablesSplit(sp);
    assert rest + Claims(Some(sp)) == m0 + t && m0 + t - t == m0;
    KfreeAllLedger(ph, sp.userTables, m0 + t);
    LedgerShape(ph, m0 + t);
    forall x | x in sp.userTables ensures (m0 + t)[x] == 1 { assert Owns(sp, x); }
    KfreeAllFrees(ph, sp.userTables, m0 + t);
    KallocNLedger(KfreeAll(ph, sp.userTables), need, m0);
  }
}
