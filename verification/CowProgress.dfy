/** When steps of the copy-on-write machine succeed: a store after a fault, growth of a region, a new
    process; each told by what is free and where the regions lie.  At the end, runs in which heap and
    stack grow. */
module CowProgress {
  import opened Types
  import opened CoreMap
  import opened CowSpace
  import opened CowMachine
  import opened CowView
  import opened CowSteps
  import opened CowFork
  import opened CowRuns

  // ------------------------------------------------------------- the final rebuild

  ghost predicate Rebuilt(s: State, p: nat, ph1: Phys, sp1: Space, need: nat, s': State)
    requires p < |s.procs|
  {
    && |s'.procs| == |s.procs| && s'.procs[p].Some?
    && s'.ph.freePages == ph1.freePages + |sp1.userTables| - need
    && |s'.procs[p].value.userTables| == need
    && s'.procs[p].value.regions == sp1.regions && s'.procs[p].value.hw == InstallAll(sp1.regions)
  }

  /** The end of a call succeeds exactly when the regions are apart and the new tables can be had. */
  lemma FinishIff(s: State, p: nat, ph1: Phys, sp1: Space, need: nat, l: Label)
    requires Inv(s) && Live(s, p) && Midway(s.ph, s.procs[p].value, ph1, sp1, Rest(s, p))
    ensures var o := Finish(s, p, ph1, sp1, need, l);
      && (o.Done? <==> Disjoint(sp1.regions) && need <= ph1.freePages + |sp1.userTables|)
      && (o.Done? ==> o.did == l && Rebuilt(s, p, ph1, sp1, need, o.s))
  {
    hide Ledger, Claims, Rest, Inv, Disjoint, InstallAll, Gentle, SameData, Rebuild, Exclusive;
    RebuildIff(ph1, sp1, need, Rest(s, p));
  }

  // ---------------------------------------------------------- a store after a fault

  lemma CoverUnique(regions: seq<Region>, a: nat, b: nat, va: nat)
    requires Disjoint(regions) && a < |regions| && b < |regions|
    requires Covers(Install(regions[a]), va) && Covers(Install(regions[b]), va)
    ensures a == b
  {
  }

  lemma ContainsCovers(rg: Region, va: nat)
    requires Contains(rg.down, rg.base, rg.size, va)
    ensures Covers(Install(rg), va)
  {
  }

  /** The region the kernel finds is the one the table uses. */
  lemma RegionFindAgrees(regions: seq<Region>, va: nat)
    requires Disjoint(regions) && RegionFind(regions, va) < |regions|
    ensures HwFind(InstallAll(regions), va) == RegionFind(regions, va)
  {
    hide Disjoint, Covers, Install;
    var r, h := RegionFind(regions, va), HwFind(InstallAll(regions), va);
    ContainsCovers(regions[r], va);
    assert InstallAll(regions)[r] == Install(regions[r]);
    assert h <= r;
    CoverUnique(regions, h, r, va);
  }

  /** The slot behind a readable address. */
  lemma ReadableSlot(s: State, p: nat, va: nat)
    requires Inv(s) && Live(s, p) && CowRead(s, p, va).Some?
    ensures var sp := s.procs[p].value;
      var r := HwFind(sp.hw, va);
      && r < |sp.hw| == |sp.regions| && sp.hw[r] == Install(sp.regions[r])
      && var k := SlotIndex(sp.regions[r].down, sp.regions[r].base, va);
      && k < |sp.regions[r].slots| && SlotShape(sp.regions[r].slots[k], true) && k < Backed(sp.regions[r].size)
      && k < |sp.hw[r].ptes| && sp.hw[r].ptes[k] == PteOf(sp.regions[r].slots[k])
      && |s.ph.core| == |s.ph.data| && sp.regions[r].slots[k].ppn < |s.ph.core|
      && s.ph.core[sp.regions[r].slots[k].ppn].refCount >= 1
  {
    hide PhysOk, Claims, Owns, Total, Disjoint;
    var sp := s.procs[p].value;
    assert ProcOk(s.procs[p], All(s));
    var r := HwFind(sp.hw, va);
    var k := SlotIndex(sp.regions[r].down, sp.regions[r].base, va);
    assert RegionShape(sp.regions[r]);
    AllPresent(sp, r, k);
    assert SlotShape(sp.regions[r].slots[k], k < Backed(sp.regions[r].size));
    OwnRegionsBelow(s, p);
    RegionBelow(sp, r, multiset{});
    assert RegionClaims(sp.regions[r]) <= All(s);
    SlotClaimed(sp.regions[r], k, All(s));
    LedgerShape(s.ph, All(s));
  }

  /** A store goes through exactly where the slot behind the address is writable. */
  lemma WriteIff(s: State, p: nat, va: nat, b: Byte)
    requires Inv(s) && Live(s, p) && CowRead(s, p, va).Some?
    ensures var sp := s.procs[p].value;
      var r := HwFind(sp.hw, va);
      && r < |sp.regions| && (if sp.regions[r].down then va < sp.regions[r].base else sp.regions[r].base <= va)
      && var k := SlotIndex(sp.regions[r].down, sp.regions[r].base, va);
      k < |sp.regions[r].slots| && (Write(s, p, va, b).Done? <==> sp.regions[r].slots[k].writable)
  {
    hide Inv;
    ReadableSlot(s, p, va);
  }

  lemma {:induction false} RegionFindSame(a: seq<Region>, b: seq<Region>, va: nat)
    requires |a| == |b|
    requires forall r | 0 <= r < |a| :: (a[r].down, a[r].base, a[r].size) == (b[r].down, b[r].base, b[r].size)
    ensures RegionFind(a, va) == RegionFind(b, va)
  {
    if a != [] {
      RegionFindSame(a[1..], b[1..], va);
    }
  }

  lemma SlotNowWritable(s: State, p: nat, r: nat, k: nat, pg: nat, s': State, va: nat, b: Byte)
    requires Inv(s) && Live(s, p) && Inv(s') && Live(s', p)
    requires r == RegionFind(s.procs[p].value.regions, va) < |s.procs[p].value.regions|
    requires var rg := s.procs[p].value.regions[r];
      && k == SlotIndex(rg.down, rg.base, va) && k < |rg.slots| && k < Backed(rg.size)
      && s'.procs[p].value.regions == WithRegion(s.procs[p].value, r, SetSlot(rg, k, NewSlot(pg))).regions
    ensures Write(s', p, va, b).Done?
  {
    hide Ledger, All, Claims, Disjoint, RegionShape, Exclusive;
    var sp' := s'.procs[p].value;
    assert ProcOk(s'.procs[p], All(s'));
    RegionFindSame(s.procs[p].value.regions, sp'.regions, va);
    RegionFindAgrees(sp'.regions, va);
    assert sp'.hw[r] == Install(sp'.regions[r]);
    assert sp'.hw[r].ptes[k] == PteOf(NewSlot(pg));
    assert CowRead(s', p, va).Some?;
    WriteIff(s', p, va, b);
  }

  /** What the kernel can check: the address is one of the region's bytes, a page is free if the page
      is shared, and the rebuild finds its table pages. */
  ghost predicate Resolves(s: State, p: nat, va: nat, need: nat)
    requires Live(s, p)
  {
    var sp := s.procs[p].value;
    var r := RegionFind(sp.regions, va);
    r < |sp.regions| &&
    var k := SlotIndex(sp.regions[r].down, sp.regions[r].base, va);
    k < |sp.regions[r].slots| && sp.regions[r].slots[k].ppn < |s.ph.core| &&
    var copy := if s.ph.core[sp.regions[r].slots[k].ppn].refCount > 1 then 1 else 0;
    copy <= s.ph.freePages && need + copy <= s.ph.freePages + |sp.userTables|
  }

  lemma InvDisjoint(s: State, p: nat)
    requires Inv(s) && Live(s, p)
    ensures var sp := s.procs[p].value;
      Disjoint(sp.regions) && sp.hw == InstallAll(sp.regions) && RegionsShape(sp.regions)
  {
    assert ProcOk(s.procs[p], All(s));
  }

  lemma ResolvedWrites(s: State, p: nat, r: nat, k: nat, pg: nat, need: nat, va: nat, b: Byte)
    requires Inv(s) && Live(s, p) && r == RegionFind(s.procs[p].value.regions, va) < |s.procs[p].value.regions|
    requires var rg := s.procs[p].value.regions[r];
      k == SlotIndex(rg.down, rg.base, va) && k < |rg.slots| && k < Backed(rg.size)
    requires Refines(s, Fault(s, p, va, need))
    ensures var o, sp := Fault(s, p, va, need), s.procs[p].value;
      o.Done? && Live(o.s, p)
      && o.s.procs[p].value.regions == WithRegion(sp, r, SetSlot(sp.regions[r], k, NewSlot(pg))).regions
      ==> Write(o.s, p, va, b).Done?
  {
    hide Inv, Fault, Write, WithRegion;
    var o, sp := Fault(s, p, va, need), s.procs[p].value;
    if o.Done? && Live(o.s, p)
       && o.s.procs[p].value.regions == WithRegion(sp, r, SetSlot(sp.regions[r], k, NewSlot(pg))).regions {
      SlotNowWritable(s, p, r, k, pg, o.s, va, b);
    }
  }

  lemma CopyResolves(s: State, p: nat, va: nat, need: nat, b: Byte)
    requires Inv(s) && Live(s, p) && CowRead(s, p, va).Some? && Write(s, p, va, b).Stuck?
    requires RegionFind(s.procs[p].value.regions, va) < |s.procs[p].value.regions|
    ensures var o := Fault(s, p, va, need);
      (o.Done? && Live(o.s, p) && Write(o.s, p, va, b).Done?) <==> Resolves(s, p, va, need)
  {
    hide Ledger, Inv, Claims, Rest, Exclusive, RegionShape, CopyPage, Finish, InstallAll, Refines, Disjoint, Midway,
      Write, StackFault, Rebuild, FreshClaims;
    var sp := s.procs[p].value;
    var r := RegionFind(sp.regions, va);
    InvDisjoint(s, p);
    RegionFindAgrees(sp.regions, va);
    ReadableSlot(s, p, va);
    WriteIff(s, p, va, b);
    RestAndOwn(s, p);
    FreeCount(s.ph, Rest(s, p) + Claims(s.procs[p]));
    FaultRefines(s, p, va, need);
    var rg := sp.regions[r];
    var k := SlotIndex(rg.down, rg.base, va);
    if s.ph.core[rg.slots[k].ppn].refCount > 1 {
      CopyMidway(s.ph, sp, r, k, Rest(s, p));
      var c := CopyPage(s.ph, rg, k);
      if c.Some? {
        SameDisjoint(sp.regions, WithRegion(sp, r, c.value.1).regions);
        FinishIff(s, p, c.value.0, WithRegion(sp, r, c.value.1), need, Silent);
        ResolvedWrites(s, p, r, k, c.value.1.slots[k].ppn, need, va, b);
      }
    } else {
      ReclaimMidway(s.ph, sp, r, k, Rest(s, p));
      var sp1 := WithRegion(sp, r, SetSlot(rg, k, NewSlot(rg.slots[k].ppn)));
      SameDisjoint(sp.regions, sp1.regions);
      FinishIff(s, p, s.ph, sp1, need, Silent);
      ResolvedWrites(s, p, r, k, rg.slots[k].ppn, need, va, b);
    }
  }

  /** Growing the stack leaves the other regions as they are. */
  lemma StackFaultRegions(s: State, p: nat, va: nat, need: nat)
    requires Inv(s) && Live(s, p)
    ensures var o := StackFault(s, p, va, need);
      o.Done? ==>
        && Live(o.s, p) && |o.s.procs[p].value.regions| == |s.procs[p].value.regions|
        && (forall i | 0 <= i < |s.procs[p].value.regions| && i != VR_USTACK ::
              o.s.procs[p].value.regions[i] == s.procs[p].value.regions[i])
  {
    hide Inv, Grow, KfreeAll, KallocN, Disjoint, InstallAll;
  }

  lemma SlackNotStack(rg: Region, va: nat)
    requires RegionShape(rg) && rg.down && Covers(Install(rg), va)
    ensures Contains(rg.down, rg.base, rg.size, va)
  {
  }

  lemma {:induction false} FindFirst(regions: seq<Region>, va: nat, i: nat)
    requires i < |regions| && Contains(regions[i].down, regions[i].base, regions[i].size, va)
    ensures RegionFind(regions, va) <= i
  {
    if i > 0 && !Contains(regions[0].down, regions[0].base, regions[0].size, va) { FindFirst(regions[1..], va, i - 1); }
  }

  lemma StillStuck(s: State, p: nat, s': State, va: nat, b: Byte)
    requires Inv(s) && Live(s, p) && Inv(s') && Live(s', p) && CowRead(s, p, va).Some? && Write(s, p, va, b).Stuck?
    requires var sp, sp' := s.procs[p].value, s'.procs[p].value;
      var r := HwFind(sp.hw, va);
      r < |sp.regions| == |sp'.regions| && sp'.regions[r] == sp.regions[r]
    ensures Write(s', p, va, b).Stuck?
  {
    hide Ledger, Inv, RegionShape, Disjoint, Covers;
    InvDisjoint(s, p);
    InvDisjoint(s', p);
    ReadableSlot(s, p, va);
    WriteIff(s, p, va, b);
    var sp, sp' := s.procs[p].value, s'.procs[p].value;
    var r, r' := HwFind(sp.hw, va), HwFind(sp'.hw, va);
    assert sp'.hw[r] == sp.hw[r];
    assert r' <= r;
    assert sp'.hw[r'] == Install(sp'.regions[r']);
    CoverUnique(sp'.regions, r, r', va);
  }

  /** A byte behind the end of a region, in its last page, can be read but is nobody's to the kernel: a
      fault there may grow the stack, and never makes it writable. */
  lemma SlackStaysStuck(s: State, p: nat, va: nat, need: nat, b: Byte)
    requires Inv(s) && Live(s, p) && CowRead(s, p, va).Some? && Write(s, p, va, b).Stuck?
    requires RegionFind(s.procs[p].value.regions, va) == |s.procs[p].value.regions|
    ensures var o := Fault(s, p, va, need);
      o.Done? ==> Live(o.s, p) && Write(o.s, p, va, b).Stuck?
  {
    hide Ledger, Inv, Claims, Rest, Exclusive, RegionShape, Disjoint, Write, StackFault, InstallAll, Covers, Install;
    var sp := s.procs[p].value;
    var o := Fault(s, p, va, need);
    if o.Done? {
      InvDisjoint(s, p);
      FaultRefines(s, p, va, need);
      StackFaultRegions(s, p, va, need);
      InvDisjoint(o.s, p);
      ReadableSlot(s, p, va);
      var r, sp' := HwFind(sp.hw, va), o.s.procs[p].value;
      assert r != VR_USTACK by {
        if r == VR_USTACK {
          SlackNotStack(sp.regions[r], va);
          FindFirst(sp.regions, va, r);
          assert false;
        }
      }
      StillStuck(s, p, o.s, va, b);
    }
  }

  /** Where a process can read and its store faults, the fault lets it store exactly when the kernel
      finds the address in a region and the pages for a copy and for the tables are free. */
  lemma FaultThenWrite(s: State, p: nat, va: nat, need: nat, b: Byte)
    requires Inv(s) && Live(s, p) && CowRead(s, p, va).Some? && Write(s, p, va, b).Stuck?
    ensures var o := Fault(s, p, va, need);
      (o.Done? && Live(o.s, p) && Write(o.s, p, va, b).Done?) <==> Resolves(s, p, va, need)
  {
    hide Inv, Fault, Write, CowRead;
    if RegionFind(s.procs[p].value.regions, va) < |s.procs[p].value.regions| {
      CopyResolves(s, p, va, need, b);
    } else {
      SlackStaysStuck(s, p, va, need, b);
    }
  }

  // -------------------------------------------------------------------- growth

  /** The regions would still be apart with region r of the new size. */
  ghost predicate RoomFor(sp: Space, r: nat, size': nat)
    requires r < |sp.regions|
  {
    Disjoint(sp.regions[r := sp.regions[r].(size := size')])
  }

  /** The pages the growth of region r takes. */
  ghost function GrowthPages(sp: Space, r: nat, size': nat): nat
    requires r < |sp.regions| && sp.regions[r].size <= size'
  {
    BackedMono(sp.regions[r].size, size');
    PagesFor(sp.regions[r], Backed(sp.regions[r].size), Backed(size') - Backed(sp.regions[r].size))
  }

  /** Region r has its new size, the others are as before, and the pages taken are no longer free. */
  ghost predicate Extended(s: State, p: nat, r: nat, size': nat, need: nat, s': State)
    requires Live(s, p) && r < |s.procs[p].value.regions| && s.procs[p].value.regions[r].size <= size'
  {
    var sp := s.procs[p].value;
    && Inv(s') && Live(s', p) && |s'.procs[p].value.regions| == |sp.regions|
    && (forall i | 0 <= i < |sp.regions| && i != r :: s'.procs[p].value.regions[i] == sp.regions[i])
    && (var rg := s'.procs[p].value.regions[r];
        && (rg.down, rg.base, rg.size) == (sp.regions[r].down, sp.regions[r].base, size')
        && |rg.slots| >= |sp.regions[r].slots|)
    && |s'.procs[p].value.userTables| == need
    && s'.ph.freePages == s.ph.freePages - GrowthPages(sp, r, size') + |sp.userTables| - need
  }

  /** GrowOutcomes for a region of a space. */
  lemma GrowthIn(ph: Phys, sp: Space, r: nat, size': nat, rest: multiset<nat>)
    requires r < |sp.regions| && Ledger(ph, rest + Claims(Some(sp))) && SpaceShape(sp)
    requires sp.regions[r].size <= size' && Aligned(sp.regions[r].down, sp.regions[r].base, size')
    ensures |ph.core| == |ph.data|
    ensures var g := Grow(ph, sp.regions[r], size');
      && (g.Grew? <==> GrowFits(ph, sp.regions[r], size'))
      && (g.GrowCrash? <==> GrowDies(ph, sp.regions[r], size'))
      && (g.Grew? ==> g.ph.freePages == ph.freePages - GrowthPages(sp, r, size'))
      && (g.Grew? ==> |g.rg.slots| >= |sp.regions[r].slots|)
  {
    hide Ledger, Claims, RegionClaims, RegionShape, Grow, GrowFits, GrowDies;
    BesideSplit(sp, r, sp.regions[r]);
    assert rest + Claims(Some(sp)) == rest + Beside(sp, r) + RegionClaims(sp.regions[r]);
    GrowOutcomes(ph, sp.regions[r], size', rest + Beside(sp, r));
  }

  lemma ResizedDisjoint(regions: seq<Region>, r: nat, rg: Region, size': nat)
    requires r < |regions| && (rg.down, rg.base, rg.size) == (regions[r].down, regions[r].base, size')
    ensures Disjoint(regions[r := rg]) <==> Disjoint(regions[r := regions[r].(size := size')])
  {
    hide Disjoint;
    var a, b := regions[r := rg], regions[r := regions[r].(size := size')];
    if Disjoint(a) { SameDisjoint(a, b); }
    if Disjoint(b) { SameDisjoint(b, a); }
  }

  /** Growth of a region: done exactly when the pages, the room and the table pages are there; the kernel
      dies exactly when growth itself does, or when the grown regions meet or the rebuild is short. */
  lemma ExtendIff(s: State, p: nat, r: nat, size': nat, need: nat)
    requires Inv(s) && Live(s, p) && r < |s.procs[p].value.regions|
    requires s.procs[p].value.regions[r].size <= size'
    requires Aligned(s.procs[p].value.regions[r].down, s.procs[p].value.regions[r].base, size')
    ensures var o, sp := Extend(s, p, r, size', need), s.procs[p].value;
      var fits := GrowFits(s.ph, sp.regions[r], size');
      var ends := RoomFor(sp, r, size') && need <= s.ph.freePages - GrowthPages(sp, r, size') + |sp.userTables|;
      && (o.Done? && o.did == Grown(p, r, size') <==> fits && ends)
      && (o.Stuck? <==> GrowDies(s.ph, sp.regions[r], size') || (fits && !ends))
      && (fits && ends ==> Extended(s, p, r, size', need, o.s))
  {
    hide Ledger, Claims, Rest, SameData, Midway, Exclusive, Inv, RegionShape, InstallAll, Finish, RegionClaims,
      Disjoint, Grow, GrowFits, GrowDies, GrewTo, PagesFor, View;
    var sp, rest := s.procs[p].value, Rest(s, p);
    var rg := sp.regions[r];
    RestAndOwn(s, p);
    LedgerShape(s.ph, rest + Claims(s.procs[p]));
    GrowMidway(s.ph, sp, r, size', rest);
    ExtendRefines(s, p, r, size', need);
    GrowthIn(s.ph, sp, r, size', rest);
    var g := Grow(s.ph, rg, size');
    if g.Grew? {
      var sp1 := WithRegion(sp, r, g.rg);
      GrewRegionShape(g.ph, rg, g.rg, size');
      ResizedDisjoint(sp.regions, r, g.rg, size');
      FinishIff(s, p, g.ph, sp1, need, Grown(p, r, size'));
    }
  }

  // -------------------------------------------------------------- a new process

  ghost function EmptyRegion(down: bool, base: nat, size: nat): Region
  {
    Region(down, base, size, [], [])
  }

  /** The pages of n bytes' worth of a new region, its descriptor chunks among them. */
  ghost function NewPagesFor(n: nat): nat
  {
    PagesFor(EmptyRegion(false, 0, 0), 0, n)
  }

  lemma NewRegionIff(ph: Phys, down: bool, base: nat, contents: seq<Page>, m: multiset<nat>)
    requires Ledger(ph, m)
    ensures |ph.core| == |ph.data|
    ensures var a, n := NewRegion(ph, down, base, contents), NewPagesFor(|contents|);
      && (a.Added? && a.done == |contents| <==> n <= ph.freePages)
      && (n <= ph.freePages ==>
        a.ph.freePages == ph.freePages - n && |a.rg.chunks| == NewChunks(0, |contents|))
  {
    hide Ledger, NewChunks;
    var rg := EmptyRegion(down, base, |contents| * PGSIZE);
    NoClaims(rg, m);
    LedgerShape(ph, m);
    AddPagesCount(ph, rg, 0, contents, m);
    AddPagesLedger(ph, rg, 0, contents, m);
  }

  /** What a new process takes before its table is built. */
  ghost function PreparePages(code: seq<Page>, kmap: nat): nat
  {
    1 + kmap + NewPagesFor(|code|) + NewPagesFor(1)
  }

  /** The descriptor chunks of a new process: those of its code and one for its stack. */
  ghost function StartChunks(code: seq<Page>): nat
  {
    NewChunks(0, |code|) + 1
  }

  lemma ThreeChunks(a: Region, b: Region, c: Region)
    ensures TotalChunks([a, b, c]) == |a.chunks| + |b.chunks| + |c.chunks|
  {
    assert [a, b, c][..2] == [a, b] && [a, b][..1] == [a] && [a][..0] == [];
    assert TotalChunks([a]) == |a.chunks|;
    assert TotalChunks([a, b]) == |a.chunks| + |b.chunks|;
  }

  lemma PrepareIff(s: State, code: seq<Page>, lay: Layout, kmap: nat)
    requires Inv(s) && PageLayout(lay)
    ensures |s.ph.core| == |s.ph.data|
    ensures var r := Prepare(s, code, lay, kmap);
      && (r.Some? <==> PreparePages(code, kmap) <= s.ph.freePages)
      && (r.Some? ==> r.value.0.freePages == s.ph.freePages - PreparePages(code, kmap))
      && (r.Some? ==> TotalChunks(r.value.1.regions) == StartChunks(code))
  {
    hide Ledger, All, RegionClaims, FreshClaims, SameData, NewPages, NewRegion, NewPagesFor, Install, MappingView,
      RegionShape;
    var m := All(s);
    LedgerShape(s.ph, m);
    KallocLedger(s.ph, m);
    var (ph1, ks) := Kalloc(s.ph);
    if ks.Some? {
      var m1 := m + multiset{ks.value};
      KallocNLedger(ph1, kmap, m1);
      FreeCount(ph1, m1);
      var (ph2, kt) := KallocN(ph1, kmap);
      if kt.Some? {
        var m2 := m1 + multiset(kt.value);
        NewRegionIff(ph2, false, 0, code, m2);
        NewRegionLedger(ph2, false, 0, code, m2);
        FreeCount(ph2, m2);
        var c := NewRegion(ph2, false, 0, code);
        if c.Added? && c.done == |code| {
          assert |[Filled(0)]| == 1;
          NewRegionIff(c.ph, true, lay.stack, [Filled(0)], m2 + RegionClaims(c.rg));
          NewRegionLedger(c.ph, true, lay.stack, [Filled(0)], m2 + RegionClaims(c.rg));
          FreeCount(c.ph, m2 + RegionClaims(c.rg));
          var t := NewRegion(c.ph, true, lay.stack, [Filled(0)]);
          if t.Added? { ThreeChunks(c.rg, EmptyHeap(lay), t.rg); }
        }
      }
    }
  }

  /** A new process as it starts. */
  ghost predicate Started(s: State, p: nat, code: seq<Page>, lay: Layout, need: nat)
  {
    && Inv(s) && Live(s, p) && |s.procs[p].value.regions| == NREGIONS && |s.procs[p].value.userTables| == need
    && var rs := s.procs[p].value.regions;
    && (rs[0].down, rs[0].base, rs[0].size) == (false, 0, |code| * PGSIZE)
    && rs[VR_HEAP] == EmptyHeap(lay)
    && (rs[VR_USTACK].down, rs[VR_USTACK].base, rs[VR_USTACK].size) == (true, lay.stack, PGSIZE)
  }

  lemma FirstRegions(ph: Phys, rs: seq<Region>, code: seq<Page>, lay: Layout)
    requires PageLayout(lay) && |rs| == 3 && rs[VR_HEAP] == EmptyHeap(lay)
    requires MappingView(Install(rs[0]), ph) == EagerRegion(false, 0, |code| * PGSIZE, code)
    requires MappingView(Install(rs[2]), ph) == EagerRegion(true, lay.stack, PGSIZE, [Filled(0)])
    ensures (rs[0].down, rs[0].base, rs[0].size) == (false, 0, |code| * PGSIZE)
    ensures (rs[2].down, rs[2].base, rs[2].size) == (true, lay.stack, PGSIZE)
    ensures Disjoint(rs) <==> |code| * PGSIZE + PGSIZE <= lay.stack
  {
    assert Apart(rs[0], rs[2]) <==> |code| * PGSIZE + PGSIZE <= lay.stack;
  }

  /** A process can be made exactly when its pages are free and its stack page is clear of its code. */
  lemma SpawnIff(s: State, p: nat, code: seq<Page>, lay: Layout, kmap: nat, need: nat)
    requires Inv(s) && p < |s.procs| && s.procs[p].None? && PageLayout(lay)
    ensures |s.ph.core| == |s.ph.data|
    ensures var o := Spawn(s, p, code, lay, kmap, need);
      && (o.Done? <==> PreparePages(code, kmap) + need <= s.ph.freePages && |code| * PGSIZE + PGSIZE <= lay.stack)
      && (o.Done? ==> o.did == Spawned(p, FirstSpace(code, lay)) && Started(o.s, p, code, lay, need))
      && (o.Done? ==> o.s.ph.freePages == s.ph.freePages - PreparePages(code, kmap) - need)
      && (o.Done? ==> TotalChunks(o.s.procs[p].value.regions) == StartChunks(code))
  {
    hide Ledger, All, Claims, FreshClaims, SameData, MappingView, RegionShape, Exclusive, Rebuild, Prepare,
      PreparePages, InstallAll, Disjoint, Rest, View, TotalChunks, StartChunks;
    LedgerShape(s.ph, All(s));
    PrepareIff(s, code, lay, kmap);
    SpawnRefines(s, p, code, lay, kmap, need);
    if Prepare(s, code, lay, kmap).Some? {
      PrepareLedger(s, code, lay, kmap);
      var (ph, sp) := Prepare(s, code, lay, kmap).value;
      AllNew(All(s), sp);
      RebuildIff(ph, sp, need, All(s));
      FirstRegions(ph, sp.regions, code, lay);
    }
  }

  lemma OverCode(rs: seq<Region>, n: nat)
    requires |rs| == 3 && !rs[0].down && rs[0].base == 0 && rs[0].size > 0 && n > 0
    requires !rs[1].down && rs[1].base == 0
    ensures !Disjoint(rs[1 := rs[1].(size := n)])
  {
    var rs' := rs[1 := rs[1].(size := n)];
    assert !Apart(rs'[0], rs'[1]);
  }

  /** userinit leaves the heap at address 0, under the code.  Any sbrk before the process loads another
      program brings the kernel down, unless it asks for more than there are addresses. */
  lemma FirstHeapDies(s: State, p: nat, code: seq<Page>, tables: nat, n: nat, need: nat)
    requires Started(s, p, code, FirstLayout(code), tables) && code != [] && n > 0
    ensures Sbrk(s, p, n, need) == if n >= KERNBASE then Done(s, Silent) else Stuck
  {
    hide Inv, Disjoint, Extend, GrowFits;
    if n < KERNBASE {
      var sp := s.procs[p].value;
      ExtendIff(s, p, VR_HEAP, n, need);
      OverCode(sp.regions, n);
    }
  }

  // ------------------------------------------------- a run in which heap and stack grow

  /** A loaded program of `code` pages with `heap` bytes of heap and k pages of stack. */
  ghost predicate Loaded(s: State, p: nat, code: nat, heap: nat, k: nat, need: nat)
  {
    && Inv(s) && Live(s, p) && |s.procs[p].value.regions| == NREGIONS && |s.procs[p].value.userTables| == need
    && var rs := s.procs[p].value.regions;
    && (rs[0].down, rs[0].base, rs[0].size) == (false, 0, code * PGSIZE)
    && (rs[VR_HEAP].down, rs[VR_HEAP].base, rs[VR_HEAP].size) == (false, code * PGSIZE, heap)
    && (rs[VR_USTACK].down, rs[VR_USTACK].base, rs[VR_USTACK].size) == (true, SZ_2G, k * PGSIZE)
  }

  /** Code, heap and the largest stack fit below 2 GB. */
  ghost predicate Roomy(code: nat, heap: nat)
  {
    (code + Backed(heap) + MAXSTACK) * PGSIZE <= SZ_2G
  }

  lemma RoomyApart(rs: seq<Region>, code: nat, heap: nat, k: nat)
    requires |rs| == 3 && k <= MAXSTACK && Roomy(code, heap)
    requires (rs[0].down, rs[0].base, rs[0].size) == (false, 0, code * PGSIZE)
    requires (rs[1].down, rs[1].base, rs[1].size) == (false, code * PGSIZE, heap)
    requires (rs[2].down, rs[2].base, rs[2].size) == (true, SZ_2G, k * PGSIZE)
    ensures Disjoint(rs)
  {
    assert Backed(code * PGSIZE) == code && Backed(k * PGSIZE) == k;
  }

  lemma HeapStep(s: State, p: nat, code: seq<Page>, n: nat, need: nat)
    requires Started(s, p, code, LoadedLayout(code), need) && n > 0 && Roomy(|code|, n)
    requires NewPagesFor(Backed(n)) <= s.ph.freePages
    ensures var o := Sbrk(s, p, n, need);
      && o.Done? && o.did == Grown(p, VR_HEAP, n) && Loaded(o.s, p, |code|, n, 1, need)
      && o.s.ph.freePages == s.ph.freePages - NewPagesFor(Backed(n))
  {
    hide Inv, Disjoint, Extend, NewChunks;
    var sp := s.procs[p].value;
    RoomyApart(sp.regions[VR_HEAP := sp.regions[VR_HEAP].(size := n)], |code|, n, 1);
    ExtendIff(s, p, VR_HEAP, n, need);
  }

  lemma BelowStack(rs: seq<Region>, code: nat, heap: nat, k: nat, va: nat)
    requires |rs| == 3 && k < MAXSTACK && Roomy(code, heap) && va == SZ_2G - k * PGSIZE - 1
    requires (rs[0].down, rs[0].base, rs[0].size) == (false, 0, code * PGSIZE)
    requires (rs[1].down, rs[1].base, rs[1].size) == (false, code * PGSIZE, heap)
    requires (rs[2].down, rs[2].base, rs[2].size) == (true, SZ_2G, k * PGSIZE)
    ensures forall i | 0 <= i < 3 :: !Contains(rs[i].down, rs[i].base, rs[i].size, va)
  {
  }

  lemma {:induction false} FindsNone(regions: seq<Region>, va: nat)
    requires forall i | 0 <= i < |regions| :: !Contains(regions[i].down, regions[i].base, regions[i].size, va)
    ensures RegionFind(regions, va) == |regions|
  {
    if regions != [] {
      FindsNone(regions[1..], va);
    }
  }

  lemma OneMoreChunk(have: nat, k: nat)
    requires k <= have + 1
    ensures NewChunks(have, k) <= 1
  {
  }

  lemma StackStep(s: State, p: nat, code: nat, heap: nat, k: nat, need: nat)
    requires Loaded(s, p, code, heap, k, need) && 0 < k < MAXSTACK && Roomy(code, heap)
    requires 2 <= s.ph.freePages
    ensures var o := Fault(s, p, SZ_2G - k * PGSIZE - 1, need);
      && o.Done? && o.did == Grown(p, VR_USTACK, (k + 1) * PGSIZE) && Loaded(o.s, p, code, heap, k + 1, need)
      && o.s.ph.freePages >= s.ph.freePages - 2
  {
    hide Inv, Disjoint, Extend, NewChunks, Rest, Claims;
    var sp, va := s.procs[p].value, SZ_2G - k * PGSIZE - 1;
    RestAndOwn(s, p);
    BelowStack(sp.regions, code, heap, k, va);
    FindsNone(sp.regions, va);
    RoomyApart(sp.regions[VR_USTACK := sp.regions[VR_USTACK].(size := (k + 1) * PGSIZE)], code, heap, k + 1);
    OneMoreChunk(|sp.regions[VR_USTACK].slots|, k + 1);
    ExtendIff(s, p, VR_USTACK, (k + 1) * PGSIZE, need);
  }

  lemma RunAppend(states: seq<State>, steps: seq<Step>, labels: seq<Label>, st: Step)
    requires Run(states, steps, labels) && Enabled(states[|steps|], st) && Next(states[|steps|], st).Done?
    ensures var o := Next(states[|steps|], st); Run(states + [o.s], steps + [st], labels + [o.did])
  {
    hide Enabled, Next;
  }

  ghost function StackLabels(p: nat, k: nat): seq<Label>
  {
    seq(k, i requires 0 <= i => Grown(p, VR_USTACK, (i + 2) * PGSIZE))
  }

  /** The pages a program takes that starts, gets n bytes of heap and k more pages of stack, with two
      pages allowed for each. */
  ghost function GrowthRunPages(code: seq<Page>, kmap: nat, need: nat, n: nat, k: nat): nat
  {
    PreparePages(code, kmap) + need + NewPagesFor(Backed(n)) + 2 * k
  }

  /** From every state in order with a free process slot there is, memory permitting, a run in which a
      program is loaded, its heap grows to n bytes, and its stack grows on demand, one page for each
      fault, to any size up to the kernel's limit. */
  lemma {:induction false} GrowthRun(s: State, p: nat, code: seq<Page>, kmap: nat, need: nat, n: nat, k: nat)
    returns (states: seq<State>, steps: seq<Step>, labels: seq<Label>)
    requires Inv(s) && p < |s.procs| && s.procs[p].None? && n > 0 && k < MAXSTACK && Roomy(|code|, n)
    requires GrowthRunPages(code, kmap, need, n, k) <= s.ph.freePages
    ensures Run(states, steps, labels) && states[0] == s
    ensures labels == [Spawned(p, FirstSpace(code, LoadedLayout(code))), Grown(p, VR_HEAP, n)] + StackLabels(p, k)
    ensures Loaded(states[|steps|], p, |code|, n, k + 1, need)
    ensures states[|steps|].ph.freePages >= s.ph.freePages - GrowthRunPages(code, kmap, need, n, k)
    decreases k
  {
    hide Inv, Spawn, Sbrk, Fault, PreparePages, NewPagesFor, Backed, FirstSpace;
    if k == 0 {
      SpawnIff(s, p, code, LoadedLayout(code), kmap, need);
      var o := Spawn(s, p, code, LoadedLayout(code), kmap, need);
      HeapStep(o.s, p, code, n, need);
      assert Run([s], [], []);
      RunAppend([s], [], [], DoSpawn(p, code, LoadedLayout(code), kmap, need));
      states, steps, labels := [s, o.s], [DoSpawn(p, code, LoadedLayout(code), kmap, need)], [o.did];
      assert [s] + [o.s] == states && [] + steps == steps && [] + labels == labels;
      RunAppend(states, steps, labels, DoSbrk(p, n, need));
      var o' := Sbrk(o.s, p, n, need);
      states, steps, labels := states + [o'.s], steps + [DoSbrk(p, n, need)], labels + [o'.did];
      assert StackLabels(p, 0) == [];
    } else {
      states, steps, labels := GrowthRun(s, p, code, kmap, need, n, k - 1);
      var va := SZ_2G - k * PGSIZE - 1;
      var last := states[|steps|];
      StackStep(last, p, |code|, n, k, need);
      var o := Fault(last, p, va, need);
      RunAppend(states, steps, labels, DoFault(p, va, need));
      states, steps, labels := states + [o.s], steps + [DoFault(p, va, need)], labels + [o.did];
      assert StackLabels(p, k) == StackLabels(p, k - 1) + [Grown(p, VR_USTACK, (k + 1) * PGSIZE)];
    }
  }
}
