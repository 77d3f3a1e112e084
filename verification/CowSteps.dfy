/** The steps of the copy-on-write machine, each as the kernel performs it, and the proof
    that each one keeps the invariant and does what the eager machine does. */
module CowSteps {
  import opened Types
  import opened CoreMap
  import opened CowSpace
  import opened CowMachine
  import opened CowView

  /** `Stuck`: the kernel panics, or the processor faults instead of storing. */
  datatype Outcome = Done(s: State, did: Label) | Stuck

  ghost function Put(s: State, p: nat, ph: Phys, sp: Space): State
    requires p < |s.procs|
  {
    s.(ph := ph, procs := s.procs[p := Some(sp)])
  }

  ghost predicate Live(s: State, p: nat)
  {
    p < |s.procs| && s.procs[p].Some?
  }

  // --------------------------------------------------------------------- stores

  /** A user store through the installed table. */
  ghost function Write(s: State, p: nat, va: nat, b: Byte): Outcome
    requires Live(s, p)
  {
    var hw := s.procs[p].value.hw;
    var r := HwFind(hw, va);
    if r == |hw| then Stuck
    else
      var k := SlotIndex(hw[r].down, hw[r].base, va);
      if k < |hw[r].ptes| && hw[r].ptes[k].present && hw[r].ptes[k].writable && hw[r].ptes[k].ppn < |s.ph.data| then
        var pg := hw[r].ptes[k].ppn;
        Done(s.(ph := Store(s.ph, pg, s.ph.data[pg][va % PGSIZE := b])), Stored(p, va, b))
      else Stuck
  }

  lemma {:induction false} RegionsTwo(regions: seq<Region>, a: nat, b: nat)
    requires a < b < |regions|
    ensures RegionClaims(regions[a]) + RegionClaims(regions[b]) <= RegionsClaims(regions)
  {
    hide RegionClaims;
    var n := |regions| - 1;
    if b == n {
      RegionInRegions(regions[..n], a);
    } else {
      RegionsTwo(regions[..n], a, b);
    }
  }

  lemma RegionsTwoCount(regions: seq<Region>, a: nat, b: nat, x: nat)
    requires a < |regions| && b < |regions| && a != b
    requires x in RegionClaims(regions[a]) && x in RegionClaims(regions[b])
    ensures RegionsClaims(regions)[x] >= 2
  {
    hide RegionClaims, RegionsClaims;
    if a < b { RegionsTwo(regions, a, b); } else { RegionsTwo(regions, b, a); }
    var c, d := RegionClaims(regions[a]), RegionClaims(regions[b]);
    assert (c + d)[x] == (d + c)[x] >= 2;
  }

  /** Two different slots naming one page make at least two claims on it. */
  lemma TwoSlots(regions: seq<Region>, r: nat, k: nat, r': nat, k': nat)
    requires r < |regions| && k < |regions[r].slots| && regions[r].slots[k].used
    requires r' < |regions| && k' < |regions[r'].slots| && regions[r'].slots[k'].used
    requires regions[r].slots[k].ppn == regions[r'].slots[k'].ppn && (r != r' || k != k')
    ensures RegionsClaims(regions)[regions[r].slots[k].ppn] >= 2
  {
    hide RegionsClaims, Named;
    var pg := regions[r].slots[k].ppn;
    if r == r' {
      NamedTwo(regions[r].slots, k, k');
      var o := One(regions[r].slots[k]) + One(regions[r].slots[k']);
      assert o[pg] == 2;
      RegionInRegions(regions, r);
      assert 2 <= Named(regions[r].slots)[pg] <= RegionClaims(regions[r])[pg] <= RegionsClaims(regions)[pg];
    } else {
      SlotClaimed(regions[r], k, RegionClaims(regions[r]));
      SlotClaimed(regions[r'], k', RegionClaims(regions[r']));
      RegionsTwoCount(regions, r, r', pg);
    }
  }

  lemma SlotsUsed(sp: Space, r: nat, k: nat)
    requires SpaceShape(sp) && r < |sp.hw| && k < |sp.hw[r].ptes|
    ensures r < |sp.regions| && k < |sp.regions[r].slots| && sp.regions[r].slots[k].used
  {
  }

  /** Storing into a page that one slot alone names changes that page of the view and nothing else. */
  lemma StoreView(sp: Space, ph: Phys, r: nat, k: nat, page: Page, m: multiset<nat>)
    requires SpaceShape(sp) && RegionsClaims(sp.regions) <= m
    requires r < |sp.hw| && k < |sp.hw[r].ptes| && sp.hw[r].ptes[k].ppn < |ph.data|
    requires m[sp.hw[r].ptes[k].ppn] == 1
    ensures var v, v' := SpaceView(sp.hw, ph), SpaceView(sp.hw, Store(ph, sp.hw[r].ptes[k].ppn, page));
      v' == v[r := v[r].(pages := v[r].pages[k := page])]
  {
    hide RegionsClaims;
    var pg := sp.hw[r].ptes[k].ppn;
    var ph' := Store(ph, pg, page);
    var v, v' := SpaceView(sp.hw, ph), SpaceView(sp.hw, ph');
    AllPresent(sp, r, k);
    assert RegionsClaims(sp.regions)[pg] <= m[pg];
    forall i, j | 0 <= i < |sp.hw| && 0 <= j < |sp.hw[i].ptes| && (i != r || j != k)
      ensures PageAt(ph', sp.hw[i].ptes[j].ppn) == PageAt(ph, sp.hw[i].ptes[j].ppn)
    {
      AllPresent(sp, i, j);
      if sp.hw[i].ptes[j].ppn == pg {
        SlotsUsed(sp, r, k);
        SlotsUsed(sp, i, j);
        TwoSlots(sp.regions, r, k, i, j);
      }
    }
    forall i | 0 <= i < |v| ensures v'[i] == if i == r then v[r].(pages := v[r].pages[k := page]) else v[i] {
      assert v'[i].pages == if i == r then v[r].pages[k := page] else v[i].pages;
    }
  }

  lemma WritableIsOwned(sp: Space, r: nat, k: nat)
    requires SpaceShape(sp) && r < |sp.hw| && k < |sp.hw[r].ptes| && sp.hw[r].ptes[k].writable
    ensures Owns(sp, sp.hw[r].ptes[k].ppn)
  {
  }

  lemma OwnedNotElsewhere(s: State, p: nat, pg: nat)
    requires Inv(s) && Live(s, p) && Owns(s.procs[p].value, pg)
    ensures All(s)[pg] == 1 && pg in Claims(s.procs[p]) && pg !in Rest(s, p)
  {
    hide Ledger, Claims, Rest, Owns, SpaceShape, Total;
    assert ProcOk(s.procs[p], All(s));
    OwnsClaimed(s.procs[p].value, pg);
    RestSplit(s, p, None);
    assert (Rest(s, p) + Claims(s.procs[p]))[pg] == 1;
  }

  lemma StoreLedger(ph: Phys, pg: nat, page: Page, m: multiset<nat>)
    requires Ledger(ph, m) && pg < |ph.data|
    ensures Ledger(Store(ph, pg, page), m)
    ensures forall rest: multiset<nat> | pg !in rest :: SameData(ph, Store(ph, pg, page), rest)
  {
  }

  lemma StoreOwnView(s: State, p: nat, r: nat, k: nat, page: Page)
    requires Inv(s) && Live(s, p)
    requires var sp := s.procs[p].value;
      && r < |sp.hw| && k < |sp.hw[r].ptes| && sp.hw[r].ptes[k].ppn < |s.ph.data|
      && All(s)[sp.hw[r].ptes[k].ppn] == 1
    ensures var sp := s.procs[p].value;
      var v, v' := SpaceView(sp.hw, s.ph), SpaceView(sp.hw, Store(s.ph, sp.hw[r].ptes[k].ppn, page));
      v' == v[r := v[r].(pages := v[r].pages[k := page])]
  {
    hide Ledger, SpaceShape, SpaceView, Total, RegionsClaims;
    var sp := s.procs[p].value;
    assert ProcOk(s.procs[p], All(s));
    RestSplit(s, p, None);
    assert RegionsClaims(sp.regions) <= Claims(s.procs[p]) <= All(s);
    StoreView(sp, s.ph, r, k, page, All(s));
  }

  lemma ViewShape(hw: seq<Mapping>, ph: Phys, r: nat, k: nat)
    requires r < |hw| && k < |hw[r].ptes|
    ensures var v := SpaceView(hw, ph);
      && |v| == |hw| && |v[r].pages| == |hw[r].ptes|
      && (v[r].down, v[r].base, v[r].size) == (hw[r].down, hw[r].base, hw[r].size)
      && v[r].pages[k] == PageAt(ph, hw[r].ptes[k].ppn)
  {
  }

  lemma WriteRefines(s: State, p: nat, va: nat, b: Byte)
    requires Inv(s) && Live(s, p) && Write(s, p, va, b).Done?
    ensures var o := Write(s, p, va, b);
      Inv(o.s) && Applies(View(s), o.did) && View(o.s) == Apply(View(s), o.did)
  {
    hide Ledger, Claims, Rest, Owns, SpaceShape, SpaceView, Total;
    var sp := s.procs[p].value;
    assert ProcOk(s.procs[p], All(s));
    var r := HwFind(sp.hw, va);
    var k := SlotIndex(sp.hw[r].down, sp.hw[r].base, va);
    var pg := sp.hw[r].ptes[k].ppn;
    var page := s.ph.data[pg][va % PGSIZE := b];
    var s' := Write(s, p, va, b).s;
    WritableIsOwned(sp, r, k);
    OwnedNotElsewhere(s, p, pg);
    StoreLedger(s.ph, pg, page, All(s));
    assert All(s') == All(s);
    ViewUpdate(s, p, s.procs[p], s'.ph);
    assert s.procs[p := s.procs[p]] == s.procs;
    StoreOwnView(s, p, r, k, page);
    FindAgrees(sp.hw, s.ph, va);
    ViewShape(sp.hw, s.ph, r, k);
  }

  // ----------------------------------------------- system calls that end in a rebuild

  /** Rebuild the table of process `p` whose regions are now those of `sp`. */
  ghost function Finish(s: State, p: nat, ph: Phys, sp: Space, need: nat, l: Label): Outcome
    requires p < |s.procs|
  {
    if |ph.core| == |ph.data| && InRange(sp.userTables, |ph.core|) && Rebuild(ph, sp, need).Some? then
      var (ph', sp') := Rebuild(ph, sp, need).value;
      Done(Put(s, p, ph', sp'), l)
    else Stuck
  }

  lemma RestAndOwn(s: State, p: nat)
    requires Inv(s) && Live(s, p)
    ensures Ledger(s.ph, Rest(s, p) + Claims(s.procs[p]))
    ensures SpaceShape(s.procs[p].value) && Exclusive(s.procs[p].value, Rest(s, p) + Claims(s.procs[p]))
    ensures All(s) == Rest(s, p) + Claims(s.procs[p])
  {
    hide Ledger, Claims, Rest, SpaceShape, Exclusive, Total;
    RestSplit(s, p, None);
    assert ProcOk(s.procs[p], All(s));
  }

  lemma GentleTrans(a: multiset<nat>, b: multiset<nat>, c: multiset<nat>, rest: multiset<nat>)
    requires Gentle(a, b, rest) && Gentle(b, c, rest)
    ensures Gentle(a, c, rest)
  {
  }

  lemma RebuildView(ph1: Phys, sp1: Space, ph': Phys, rest: multiset<nat>)
    requires RegionsShape(sp1.regions) && SameData(ph1, ph', rest + BesideTables(sp1))
    ensures SpaceView(InstallAll(sp1.regions), ph1) == SpaceView(InstallAll(sp1.regions), ph')
  {
    hide SameData, RegionsClaims, RegionShape, SpaceView, InstallAll;
    assert RegionsClaims(sp1.regions) <= rest + BesideTables(sp1);
    SpaceFrame(sp1.regions, ph1, ph', rest + BesideTables(sp1));
  }

  lemma FinishRefines(s: State, p: nat, ph1: Phys, sp1: Space, need: nat, l: Label)
    requires Inv(s) && Live(s, p) && Midway(s.ph, s.procs[p].value, ph1, sp1, Rest(s, p))
    ensures var o := Finish(s, p, ph1, sp1, need, l);
      o.Done? ==>
        && Inv(o.s) && o.did == l
        && View(o.s) == View(s)[p := Some(SpaceView(InstallAll(sp1.regions), ph1))]
  {
    hide Ledger, Claims, Rest, SameData, Gentle, BesideTables, RegionsShape, Exclusive, SpaceView, Total;
    var rest := Rest(s, p);
    RestAndOwn(s, p);
    RebuildProc(ph1, sp1, need, rest);
    var o := Finish(s, p, ph1, sp1, need, l);
    if o.Done? {
      var (ph', sp') := Rebuild(ph1, sp1, need).value;
      GentleTrans(All(s), rest + Claims(Some(sp1)), rest + Claims(Some(sp')), rest);
      UpdateInv(s, p, Some(sp'), ph');
      SameDataPart(ph1, ph', rest + BesideTables(sp1), rest);
      SameDataShrink(s.ph, ph1, ph', rest, rest);
      ViewUpdate(s, p, Some(sp'), ph');
      RebuildView(ph1, sp1, ph', rest);
    }
  }

  /** Changing region `r` changes its part of the view only. */
  lemma RegionChangeView(sp: Space, r: nat, rg': Region, ph: Phys, ph': Phys, m: multiset<nat>)
    requires SpaceShape(sp) && r < |sp.regions| && Claims(Some(sp)) <= m && SameData(ph, ph', m)
    ensures SpaceView(InstallAll(WithRegion(sp, r, rg').regions), ph') ==
      SpaceView(sp.hw, ph)[r := MappingView(Install(rg'), ph')]
  {
    hide SameData, RegionsClaims, RegionShape, Install, MappingView;
    assert RegionsClaims(sp.regions) <= Claims(Some(sp)) <= m;
    SpaceFrame(sp.regions, ph, ph', m);
    var regions' := WithRegion(sp, r, rg').regions;
    forall i | 0 <= i < |sp.regions|
      ensures InstallAll(regions')[i] == if i == r then Install(rg') else sp.hw[i]
    {
    }
  }

  // ---------------------------------------------------------------- page faults

  ghost function RegionFind(regions: seq<Region>, va: nat): (r: nat)
    ensures r <= |regions|
    ensures r < |regions| ==> Contains(regions[r].down, regions[r].base, regions[r].size, va)
  {
    if regions == [] then 0
    else if Contains(regions[0].down, regions[0].base, regions[0].size, va) then 0
    else 1 + RegionFind(regions[1..], va)
  }

  /** The copy branch: a new page with the old contents, one reference less on the old page. */
  ghost function CopyPage(ph: Phys, rg: Region, k: nat): Option<(Phys, Region)>
    requires |ph.core| == |ph.data| && k < |rg.slots| && rg.slots[k].ppn < |ph.core|
    requires ph.core[rg.slots[k].ppn].refCount > 1
  {
    var (ph1, pg) := Kalloc(ph);
    if pg.None? then None
    else
      var ph2 := Store(ph1, pg.value, ph1.data[rg.slots[k].ppn]);
      if ph2.core[rg.slots[k].ppn].refCount > 0 then
        Some((Unshare(ph2, rg.slots[k].ppn), SetSlot(rg, k, NewSlot(pg.value))))
      else None
  }

  /** Grow region `r`; on success the table is rebuilt, on failure the call returns -1. */
  ghost function Extend(s: State, p: nat, r: nat, size': nat, need: nat): Outcome
    requires Live(s, p) && r < |s.procs[p].value.regions|
    requires s.procs[p].value.regions[r].size <= size'
  {
    var sp := s.procs[p].value;
    if |s.ph.core| != |s.ph.data| then Stuck
    else
      match Grow(s.ph, sp.regions[r], size')
      case GrowCrash => Stuck
      case Kept(ph1, rg1) => Done(Put(s, p, ph1, WithRegion(sp, r, rg1)), Silent)
      case Grew(ph1, rg1) => Finish(s, p, ph1, WithRegion(sp, r, rg1), need, Grown(p, r, size'))
  }

  /** Outside the copy-on-write case: grow the stack on demand, or kill the process (which
      leaves memory alone until it is reaped).  A stack that would reach below address 0 wraps there. */
  ghost function StackFault(s: State, p: nat, va: nat, need: nat): Outcome
    requires Live(s, p)
  {
    var sp := s.procs[p].value;
    if SZ_2G - MAXSTACK * PGSIZE <= va < SZ_2G && |sp.regions| == NREGIONS
       && sp.regions[VR_USTACK].size < MAXSTACK * PGSIZE then
      var size := sp.regions[VR_USTACK].size;
      if sp.regions[VR_USTACK].base < size + PGSIZE then Stuck
      else if sp.regions[VR_USTACK].base - size >= KERNBASE then Done(s, Silent)
      else Extend(s, p, VR_USTACK, size + PGSIZE, need)
    else Done(s, Silent)
  }

  ghost function Fault(s: State, p: nat, va: nat, need: nat): Outcome
    requires Live(s, p)
  {
    var sp := s.procs[p].value;
    var r := RegionFind(sp.regions, va);
    if r < |sp.regions| then
      var rg := sp.regions[r];
      var k := SlotIndex(rg.down, rg.base, va);
      if k < |rg.slots| && rg.slots[k].cow && !rg.slots[k].writable
         && |s.ph.core| == |s.ph.data| && rg.slots[k].ppn < |s.ph.core|
         && s.ph.core[rg.slots[k].ppn].refCount >= 1 then
        if s.ph.core[rg.slots[k].ppn].refCount > 1 then
          var c := CopyPage(s.ph, rg, k);
          if c.None? then Done(s, Silent)
          else Finish(s, p, c.value.0, WithRegion(sp, r, c.value.1), need, Silent)
        else
          Finish(s, p, s.ph, WithRegion(sp, r, SetSlot(rg, k, NewSlot(rg.slots[k].ppn))), need, Silent)
      else StackFault(s, p, va, need)
    else StackFault(s, p, va, need)
  }

  /** sbrk(n) for n >= 0, as reached through sys_sbrk. */
  ghost function Sbrk(s: State, p: nat, n: nat, need: nat): Outcome
    requires Live(s, p)
  {
    var sp := s.procs[p].value;
    if |sp.regions| != NREGIONS then Stuck
    else if n == 0 then Finish(s, p, s.ph, sp, need, Silent)
    else if n + sp.regions[VR_HEAP].base + sp.regions[VR_HEAP].size >= KERNBASE then Done(s, Silent)
    else Extend(s, p, VR_HEAP, sp.regions[VR_HEAP].size + n, need)
  }

  // ------------------------------------------------------- faults refine nothing at all

  lemma RegionShapeSet(rg: Region, k: nat, v: Vpi)
    requires RegionShape(rg) && k < |rg.slots| && SlotShape(v, k < Backed(rg.size))
    ensures RegionShape(SetSlot(rg, k, v))
  {
  }

  lemma SetSlotOwns(rg: Region, k: nat, v: Vpi, pg: nat)
    requires k < |rg.slots| && RegionOwns(SetSlot(rg, k, v), pg)
    ensures RegionOwns(rg, pg) || (v.used && v.writable && v.ppn == pg)
  {
  }

  lemma OwnsRegion(sp: Space, r: nat, x: nat)
    requires r < |sp.regions| && RegionOwns(sp.regions[r], x)
    ensures Owns(sp, x)
  {
  }

  /** Pointing slot `k` at page `pg`, which is claimed once afterwards, leaves a midway state. */
  lemma SetSlotMidway(ph: Phys, sp: Space, ph': Phys, r: nat, k: nat, pg: nat, rest: multiset<nat>)
    requires r < |sp.regions| && k < |sp.regions[r].slots| && RegionsShape(sp.regions)
    requires k < Backed(sp.regions[r].size)
    requires Exclusive(sp, rest + Claims(Some(sp)))
    requires var m' := rest + Claims(Some(WithRegion(sp, r, SetSlot(sp.regions[r], k, NewSlot(pg)))));
      && Ledger(ph', m') && m'[pg] == 1
      && forall x | x in rest + Claims(Some(sp)) && (rest + Claims(Some(sp)))[x] == 1 :: m'[x] == 1
    requires SameData(ph, ph', rest)
    ensures Midway(ph, sp, ph', WithRegion(sp, r, SetSlot(sp.regions[r], k, NewSlot(pg))), rest)
  {
    hide Ledger, Claims, RegionShape, SameData, Owns;
    var rg' := SetSlot(sp.regions[r], k, NewSlot(pg));
    var sp' := WithRegion(sp, r, rg');
    var m, m' := rest + Claims(Some(sp)), rest + Claims(Some(sp'));
    forall x | Owns(sp', x) ensures m'[x] == 1 {
      OwnsAfter(sp, r, rg', x);
      if Owns(sp, x) {
        OwnsClaimed(sp, x);
        assert x in m;
      } else {
        SetSlotOwns(sp.regions[r], k, NewSlot(pg), x);
        if RegionOwns(sp.regions[r], x) { OwnsRegion(sp, r, x); }
      }
    }
    RegionShapeSet(sp.regions[r], k, NewSlot(pg));
    assert Gentle(m, m', rest) by {
      forall x | x in rest && m[x] == 1 ensures m'[x] == 1 { assert x in m; }
    }
  }

  /** The claims after slot `k` of region `r` has been pointed elsewhere. */
  lemma SetSlotTotal(sp: Space, r: nat, k: nat, v: Vpi, rest: multiset<nat>)
    requires r < |sp.regions| && k < |sp.regions[r].slots| && sp.regions[r].slots[k].used && v.used
    ensures var m := rest + Claims(Some(sp));
      && rest + Claims(Some(WithRegion(sp, r, SetSlot(sp.regions[r], k, v))))
         == m - multiset{sp.regions[r].slots[k].ppn} + multiset{v.ppn}
      && sp.regions[r].slots[k].ppn in Claims(Some(sp))
  {
    hide Claims, RegionClaims, Named;
    var rg := sp.regions[r];
    var o, n := multiset{rg.slots[k].ppn}, multiset{v.ppn};
    SetSlotClaims(rg, k, v);
    BesideSplit(sp, r, rg);
    BesideSplit(sp, r, SetSlot(rg, k, v));
    var b, c := Beside(sp, r), RegionClaims(rg);
    assert o <= c;
    assert rest + (b + (c - o + n)) == rest + (b + c) - o + n;
  }

  lemma BackedSlot(rg: Region, k: nat)
    requires RegionShape(rg) && k < |rg.slots| && rg.slots[k].used
    ensures k < Backed(rg.size)
  {
  }

  lemma CopyMidway(ph: Phys, sp: Space, r: nat, k: nat, rest: multiset<nat>)
    requires SpaceShape(sp) && Exclusive(sp, rest + Claims(Some(sp))) && Ledger(ph, rest + Claims(Some(sp)))
    requires r < |sp.regions| && k < |sp.regions[r].slots| && sp.regions[r].slots[k].used
    requires |ph.core| == |ph.data| && sp.regions[r].slots[k].ppn < |ph.core|
    requires ph.core[sp.regions[r].slots[k].ppn].refCount > 1
    ensures var c := CopyPage(ph, sp.regions[r], k);
      && (c.None? <==> ph.freePages == 0)
      && (c.Some? ==>
        && Midway(ph, sp, c.value.0, WithRegion(sp, r, c.value.1), rest)
        && SameData(ph, c.value.0, rest + Claims(Some(sp)))
        && c.value.1 == SetSlot(sp.regions[r], k, NewSlot(c.value.1.slots[k].ppn))
        && c.value.1.slots[k].ppn < |ph.data| && c.value.0.freePages == ph.freePages - 1
        && c.value.0.data[c.value.1.slots[k].ppn] == ph.data[sp.regions[r].slots[k].ppn])
  {
    hide Claims, RegionShape, Owns, PhysOk, AvailableIn, AllocatedIn;
    var rg := sp.regions[r];
    var was := rg.slots[k].ppn;
    var m := rest + Claims(Some(sp));
    KallocLedger(ph, m);
    var (ph1, pg) := Kalloc(ph);
    if pg.Some? {
      var ph2 := Store(ph1, pg.value, ph1.data[was]);
      StoreLedger(ph1, pg.value, ph1.data[was], m + multiset{pg.value});
      SetSlotTotal(sp, r, k, NewSlot(pg.value), rest);
      assert m[was] > 1;
      UnshareLedger(ph2, m + multiset{pg.value}, was);
      var ph3 := Unshare(ph2, was);
      var m' := m - multiset{was} + multiset{pg.value};
      assert m + multiset{pg.value} - multiset{was} == m';
      BackedSlot(rg, k);
      SetSlotMidway(ph, sp, ph3, r, k, pg.value, rest);
    }
  }

  lemma ReclaimMidway(ph: Phys, sp: Space, r: nat, k: nat, rest: multiset<nat>)
    requires SpaceShape(sp) && Exclusive(sp, rest + Claims(Some(sp))) && Ledger(ph, rest + Claims(Some(sp)))
    requires r < |sp.regions| && k < |sp.regions[r].slots| && sp.regions[r].slots[k].used
    requires sp.regions[r].slots[k].ppn < |ph.core| && ph.core[sp.regions[r].slots[k].ppn].refCount == 1
    ensures Midway(ph, sp, ph, WithRegion(sp, r, SetSlot(sp.regions[r], k, NewSlot(sp.regions[r].slots[k].ppn))), rest)
  {
    hide Claims, RegionShape, Owns, PhysOk;
    var m, pg := rest + Claims(Some(sp)), sp.regions[r].slots[k].ppn;
    SetSlotTotal(sp, r, k, NewSlot(pg), rest);
    assert m - multiset{pg} + multiset{pg} == m;
    BackedSlot(sp.regions[r], k);
    SetSlotMidway(ph, sp, ph, r, k, pg, rest);
  }

  /** Pointing a slot at a page with the same contents is invisible. */
  lemma SetSlotView(rg: Region, k: nat, pg: nat, ph: Phys, ph': Phys, m: multiset<nat>)
    requires RegionShape(rg) && k < |rg.slots| && rg.slots[k].used && RegionClaims(rg) <= m && SameData(ph, ph', m)
    requires PageAt(ph', pg) == PageAt(ph, rg.slots[k].ppn)
    ensures MappingView(Install(SetSlot(rg, k, NewSlot(pg))), ph') == MappingView(Install(rg), ph)
  {
    MappingFrame(rg, ph, ph', m);
    var a, b := Install(SetSlot(rg, k, NewSlot(pg))), Install(rg);
    forall i | 0 <= i < Backed(rg.size) ensures PageAt(ph', a.ptes[i].ppn) == PageAt(ph, b.ptes[i].ppn) {
      assert MappingView(b, ph).pages[i] == MappingView(b, ph').pages[i];
    }
  }

  lemma CowFaultView(sp: Space, r: nat, k: nat, pg: nat, ph: Phys, ph': Phys, m: multiset<nat>)
    requires SpaceShape(sp) && r < |sp.regions| && Claims(Some(sp)) <= m && SameData(ph, ph', m)
    requires k < |sp.regions[r].slots| && sp.regions[r].slots[k].used
    requires PageAt(ph', pg) == PageAt(ph, sp.regions[r].slots[k].ppn)
    ensures SpaceView(InstallAll(WithRegion(sp, r, SetSlot(sp.regions[r], k, NewSlot(pg))).regions), ph')
      == SpaceView(sp.hw, ph)
  {
    hide Install, MappingView, RegionShape, RegionClaims, SameData;
    RegionChangeView(sp, r, SetSlot(sp.regions[r], k, NewSlot(pg)), ph, ph', m);
    RegionInRegions(sp.regions, r);
    assert RegionClaims(sp.regions[r]) <= m by {
      hide RegionsClaims;
      assert RegionsClaims(sp.regions) <= Claims(Some(sp));
    }
    SetSlotView(sp.regions[r], k, pg, ph, ph', m);
    assert SpaceView(sp.hw, ph)[r] == MappingView(Install(sp.regions[r]), ph);
  }

  lemma ViewSelf(s: State, p: nat)
    requires Live(s, p)
    ensures View(s)[p := Some(SpaceView(s.procs[p].value.hw, s.ph))] == View(s)
  {
  }

  ghost predicate Refines(s: State, o: Outcome)
  {
    o.Done? ==> Inv(o.s) && Applies(View(s), o.did) && View(o.s) == Apply(View(s), o.did)
  }

  // ------------------------------------------------------------- growth refines growth

  lemma GrownView(rg: Region, rg': Region, size': nat, ph: Phys, ph': Phys, m: multiset<nat>)
    requires RegionShape(rg) && RegionClaims(rg) <= m && SameData(ph, ph', m)
    requires GrewTo(ph', rg, rg', size')
    ensures MappingView(Install(rg'), ph') == EagerGrow(MappingView(Install(rg), ph), size')
  {
    MappingFrame(rg, ph, ph', m);
    hide RegionClaims, SameData;
    var v, v' := MappingView(Install(rg), ph), MappingView(Install(rg'), ph');
    var first := Backed(rg.size);
    forall k | 0 <= k < Backed(size') ensures v'.pages[k] == if k < first then v.pages[k] else Filled(0) {
      if k < first {
        assert rg'.slots[..first][k] == rg.slots[..first][k];
        assert v.pages[k] == MappingView(Install(rg), ph').pages[k];
      }
    }
    assert v'.pages == v.pages + Zeros(Backed(size') - first);
  }

  lemma GrewMapping(ph: Phys, rg: Region, rg': Region)
    requires RegionShape(rg) && GrewTo(ph, rg, rg', rg.size)
    ensures Install(rg') == Install(rg)
  {
  }

  lemma SameDisjoint(a: seq<Region>, b: seq<Region>)
    requires |a| == |b| && Disjoint(a)
    requires forall r | 0 <= r < |a| :: (b[r].down, b[r].base, b[r].size) == (a[r].down, a[r].base, a[r].size)
    ensures Disjoint(b)
  {
    hide Backed;
    assert forall r | 0 <= r < |a| :: Bottom(b[r]) == Bottom(a[r]) && Backed(b[r].size) == Backed(a[r].size);
  }

  lemma KeptRefines(s: State, p: nat, r: nat, ph1: Phys, rg1: Region)
    requires Inv(s) && Live(s, p) && r < |s.procs[p].value.regions|
    requires var sp := s.procs[p].value;
      && Midway(s.ph, sp, ph1, WithRegion(sp, r, rg1), Rest(s, p))
      && GrewTo(ph1, sp.regions[r], rg1, sp.regions[r].size)
      && SameData(s.ph, ph1, Rest(s, p) + Claims(Some(sp)))
    ensures Refines(s, Done(Put(s, p, ph1, WithRegion(s.procs[p].value, r, rg1)), Silent))
  {
    hide Ledger, Claims, Rest, SameData, Gentle, Exclusive, SpaceView, Total, GrewTo, RegionShape, Install;
    var sp := s.procs[p].value;
    var sp1 := WithRegion(sp, r, rg1);
    RestAndOwn(s, p);
    GrewMapping(ph1, sp.regions[r], rg1);
    GrewRegionShape(ph1, sp.regions[r], rg1, sp.regions[r].size);
    SameDisjoint(sp.regions, sp1.regions);
    assert InstallAll(sp1.regions) == InstallAll(sp.regions);
    UpdateInv(s, p, Some(sp1), ph1);
    ViewUpdate(s, p, Some(sp1), ph1);
    ProcFrameView(s.procs[p], s.ph, ph1, Rest(s, p) + Claims(Some(sp)));
    ViewSelf(s, p);
  }

  lemma StuckRefines(s: State)
    ensures Refines(s, Stuck)
  {
  }

  lemma RegionBelow(sp: Space, r: nat, rest: multiset<nat>)
    requires r < |sp.regions|
    ensures RegionClaims(sp.regions[r]) <= rest + Claims(Some(sp))
  {
    hide RegionClaims, RegionsClaims;
    RegionInRegions(sp.regions, r);
    assert RegionsClaims(sp.regions) <= Claims(Some(sp));
  }

  lemma GrowApplies(s: State, p: nat, r: nat, size': nat, need: nat, ph1: Phys, rg1: Region)
    requires Live(s, p) && SpaceShape(s.procs[p].value) && r < |s.procs[p].value.regions|
    requires s.procs[p].value.regions[r].size <= size'
    requires var sp := s.procs[p].value;
      var o := Finish(s, p, ph1, WithRegion(sp, r, rg1), need, Grown(p, r, size'));
      o.Done? ==>
        && Inv(o.s) && o.did == Grown(p, r, size')
        && var grown := EagerGrow(MappingView(Install(sp.regions[r]), s.ph), size');
           View(o.s) == View(s)[p := Some(SpaceView(sp.hw, s.ph)[r := grown])]
    ensures Refines(s, Finish(s, p, ph1, WithRegion(s.procs[p].value, r, rg1), need, Grown(p, r, size')))
  {
    hide Inv, RegionShape, Finish, EagerGrow;
    var sp := s.procs[p].value;
    assert View(s)[p].value[r] == MappingView(Install(sp.regions[r]), s.ph);
  }

  lemma ExtendRefines(s: State, p: nat, r: nat, size': nat, need: nat)
    requires Inv(s) && Live(s, p) && r < |s.procs[p].value.regions|
    requires s.procs[p].value.regions[r].size <= size'
    requires Aligned(s.procs[p].value.regions[r].down, s.procs[p].value.regions[r].base, size')
    ensures Refines(s, Extend(s, p, r, size', need))
  {
    hide Ledger, Claims, Rest, SameData, Midway, SpaceView, MappingView, Total, GrewTo, Install, Exclusive, Inv,
      Refines, RegionShape, InstallAll, Finish, RegionClaims;
    var sp := s.procs[p].value;
    var rest := Rest(s, p);
    RestAndOwn(s, p);
    GrowMidway(s.ph, sp, r, size', rest);
    var g := Grow(s.ph, sp.regions[r], size');
    if g.Kept? {
      KeptRefines(s, p, r, g.ph, g.rg);
    } else if g.Grew? {
      var sp1 := WithRegion(sp, r, g.rg);
      FinishRefines(s, p, g.ph, sp1, need, Grown(p, r, size'));
      RegionChangeView(sp, r, g.rg, s.ph, g.ph, rest + Claims(Some(sp)));
      RegionBelow(sp, r, rest);
      GrownView(sp.regions[r], g.rg, size', s.ph, g.ph, rest + Claims(Some(sp)));
      GrowApplies(s, p, r, size', need, g.ph, g.rg);
    }
    StuckRefines(s);
  }

  lemma HeapAligned(sp: Space, n: nat)
    requires SpaceShape(sp)
    ensures Aligned(sp.regions[VR_HEAP].down, sp.regions[VR_HEAP].base, sp.regions[VR_HEAP].size + n)
    ensures sp.regions[VR_USTACK].base >= sp.regions[VR_USTACK].size + PGSIZE ==>
      Aligned(sp.regions[VR_USTACK].down, sp.regions[VR_USTACK].base, sp.regions[VR_USTACK].size + PGSIZE)
  {
  }

  lemma SameSpaceMidway(s: State, p: nat)
    requires Inv(s) && Live(s, p)
    ensures Midway(s.ph, s.procs[p].value, s.ph, s.procs[p].value, Rest(s, p))
  {
    hide Claims, Rest, RegionShape, Owns, Total, PhysOk;
    RestAndOwn(s, p);
  }

  lemma SbrkRefines(s: State, p: nat, n: nat, need: nat)
    requires Inv(s) && Live(s, p)
    ensures Refines(s, Sbrk(s, p, n, need))
  {
    hide Ledger, Claims, Rest, SameData, Total, Exclusive, RegionShape, InstallAll, Finish, Extend, SpaceView, Rebuild;
    var sp := s.procs[p].value;
    RestAndOwn(s, p);
    HeapAligned(sp, n);
    if n == 0 {
      SameSpaceMidway(s, p);
      FinishRefines(s, p, s.ph, sp, need, Silent);
      ViewSelf(s, p);
    } else if n + sp.regions[VR_HEAP].base + sp.regions[VR_HEAP].size < KERNBASE {
      ExtendRefines(s, p, VR_HEAP, sp.regions[VR_HEAP].size + n, need);
    }
  }

  lemma StackFaultRefines(s: State, p: nat, va: nat, need: nat)
    requires Inv(s) && Live(s, p)
    ensures Refines(s, StackFault(s, p, va, need))
  {
    hide Ledger, Claims, Rest, SameData, Total, Exclusive, RegionShape, InstallAll, Extend, SpaceView;
    var sp := s.procs[p].value;
    RestAndOwn(s, p);
    HeapAligned(sp, 0);
    if StackFault(s, p, va, need).Done? && sp.regions[VR_USTACK].base >= sp.regions[VR_USTACK].size + PGSIZE {
      ExtendRefines(s, p, VR_USTACK, sp.regions[VR_USTACK].size + PGSIZE, need);
    }
  }

  lemma CowIsUsed(rg: Region, k: nat)
    requires RegionShape(rg) && k < |rg.slots| && rg.slots[k].cow
    ensures rg.slots[k].used
  {
  }

  lemma SameDataLength(ph: Phys, ph': Phys, m: multiset<nat>)
    requires SameData(ph, ph', m)
    ensures |ph.data| == |ph'.data|
  {
  }

  lemma CowFaultRefines(s: State, p: nat, r: nat, k: nat, need: nat)
    requires Inv(s) && Live(s, p) && r < |s.procs[p].value.regions|
    requires var sp := s.procs[p].value;
      var rg := sp.regions[r];
      && k < |rg.slots| && rg.slots[k].used
      && |s.ph.core| == |s.ph.data| && rg.slots[k].ppn < |s.ph.core|
      && s.ph.core[rg.slots[k].ppn].refCount >= 1
    ensures var sp := s.procs[p].value;
      var rg := sp.regions[r];
      if s.ph.core[rg.slots[k].ppn].refCount > 1 then
        var c := CopyPage(s.ph, rg, k);
        c.Some? ==> Refines(s, Finish(s, p, c.value.0, WithRegion(sp, r, c.value.1), need, Silent))
      else
        Refines(s, Finish(s, p, s.ph, WithRegion(sp, r, SetSlot(rg, k, NewSlot(rg.slots[k].ppn))), need, Silent))
  {
    hide Ledger, Claims, Rest, SameData, Midway, Total, Exclusive, RegionShape, InstallAll, Finish, SpaceView, CopyPage;
    var sp := s.procs[p].value;
    var rg := sp.regions[r];
    var rest := Rest(s, p);
    RestAndOwn(s, p);
    ViewSelf(s, p);
    if s.ph.core[rg.slots[k].ppn].refCount > 1 {
      CopyMidway(s.ph, sp, r, k, rest);
      var c := CopyPage(s.ph, rg, k);
      if c.Some? {
        var pg := c.value.1.slots[k].ppn;
        FinishRefines(s, p, c.value.0, WithRegion(sp, r, c.value.1), need, Silent);
        SameDataLength(s.ph, c.value.0, rest + Claims(Some(sp)));
        CowFaultView(sp, r, k, pg, s.ph, c.value.0, rest + Claims(Some(sp)));
      }
    } else {
      var pg := rg.slots[k].ppn;
      ReclaimMidway(s.ph, sp, r, k, rest);
      FinishRefines(s, p, s.ph, WithRegion(sp, r, SetSlot(rg, k, NewSlot(pg))), need, Silent);
      SameDataRefl(s.ph, rest + Claims(Some(sp)));
      CowFaultView(sp, r, k, pg, s.ph, s.ph, rest + Claims(Some(sp)));
    }
  }

  /** Resolving a fault is invisible, whether the page is copied, reclaimed or left alone;
      growing the stack adds a page of zeros and nothing else. */
  lemma FaultRefines(s: State, p: nat, va: nat, need: nat)
    requires Inv(s) && Live(s, p)
    ensures Refines(s, Fault(s, p, va, need))
  {
    hide Ledger, Claims, Rest, SameData, Midway, Total, Exclusive, RegionShape, InstallAll, StackFault, SpaceView,
      CopyPage;
    var sp := s.procs[p].value;
    RestAndOwn(s, p);
    StackFaultRefines(s, p, va, need);
    var r := RegionFind(sp.regions, va);
    if r < |sp.regions| {
      var rg := sp.regions[r];
      var k := SlotIndex(rg.down, rg.base, va);
      if k < |rg.slots| && rg.slots[k].cow && !rg.slots[k].writable
         && |s.ph.core| == |s.ph.data| && rg.slots[k].ppn < |s.ph.core|
         && s.ph.core[rg.slots[k].ppn].refCount >= 1 {
        CowIsUsed(rg, k);
        CowFaultRefines(s, p, r, k, need);
      }
    }
  }
}
