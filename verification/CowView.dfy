/** The eager-copy machine and the view of a copy-on-write state as one of its states. */
module CowView {
  import opened Types
  import opened CoreMap
  import opened CowSpace
  import opened CowMachine

  /** A region of the eager machine: its own pages, shared with nobody. */
  datatype EagerRegion = EagerRegion(down: bool, base: nat, size: nat, pages: seq<Page>)

  type EagerSpace = seq<EagerRegion>
  type Eager = seq<Option<EagerSpace>>

  // ------------------------------------------------------------ eager machine

  ghost function EagerFind(e: EagerSpace, va: nat): (r: nat)
    ensures r <= |e|
    ensures r < |e| ==> Contains(e[r].down, e[r].base, |e[r].pages| * PGSIZE, va)
  {
    if e == [] then 0
    else if Contains(e[0].down, e[0].base, |e[0].pages| * PGSIZE, va) then 0
    else 1 + EagerFind(e[1..], va)
  }

  ghost function EagerRead(e: EagerSpace, va: nat): Option<Byte>
  {
    var r := EagerFind(e, va);
    if r == |e| then None
    else
      var k := SlotIndex(e[r].down, e[r].base, va);
      if k < |e[r].pages| then Some(e[r].pages[k][va % PGSIZE]) else None
  }

  ghost function EagerStore(e: EagerSpace, va: nat, b: Byte): EagerSpace
  {
    var r := EagerFind(e, va);
    if r == |e| then e
    else
      var k := SlotIndex(e[r].down, e[r].base, va);
      if k < |e[r].pages| then
        e[r := e[r].(pages := e[r].pages[k := e[r].pages[k][va % PGSIZE := b]])]
      else e
  }

  /** More bytes: pages of zeros up to the new size. */
  ghost function EagerGrow(e: EagerRegion, size': nat): EagerRegion
  {
    e.(size := size', pages := e.pages + Zeros(if Backed(size') >= |e.pages| then Backed(size') - |e.pages| else 0))
  }

  datatype Label =
    | Silent
    | Forked(parent: nat, child: nat)
    | Stored(p: nat, va: nat, b: Byte)
    | Grown(p: nat, r: nat, size: nat)
    | Reaped(p: nat)
    | Spawned(p: nat, e: EagerSpace)

  ghost predicate Applies(v: Eager, l: Label)
  {
    match l
    case Silent => true
    case Forked(p, c) => p < |v| && c < |v| && v[p].Some? && v[c].None?
    case Stored(p, va, b) => p < |v| && v[p].Some? && EagerRead(v[p].value, va).Some?
    case Grown(p, r, size) => p < |v| && v[p].Some? && r < |v[p].value| && v[p].value[r].size <= size
    case Reaped(p) => p < |v| && v[p].Some?
    case Spawned(p, e) => p < |v| && v[p].None?
  }

  ghost function Apply(v: Eager, l: Label): Eager
    requires Applies(v, l)
  {
    match l
    case Silent => v
    case Forked(p, c) => v[c := v[p]]
    case Stored(p, va, b) => v[p := Some(EagerStore(v[p].value, va, b))]
    case Grown(p, r, size) => v[p := Some(v[p].value[r := EagerGrow(v[p].value[r], size)])]
    case Reaped(p) => v[p := None]
    case Spawned(p, e) => v[p := Some(e)]
  }

  // -------------------------------------------------------------------- the view

  ghost function PageAt(ph: Phys, pg: nat): Page
  {
    if pg < |ph.data| then ph.data[pg] else Filled(0)
  }

  ghost function MappingView(m: Mapping, ph: Phys): EagerRegion
  {
    EagerRegion(m.down, m.base, m.size, seq(|m.ptes|, i requires 0 <= i < |m.ptes| => PageAt(ph, m.ptes[i].ppn)))
  }

  ghost function SpaceView(hw: seq<Mapping>, ph: Phys): EagerSpace
  {
    seq(|hw|, r requires 0 <= r < |hw| => MappingView(hw[r], ph))
  }

  ghost function View(s: State): Eager
  {
    seq(|s.procs|, i requires 0 <= i < |s.procs| =>
      if s.procs[i].None? then None else Some(SpaceView(s.procs[i].value.hw, s.ph)))
  }

  /** What the process finds at `va` through its table. */
  ghost function CowRead(s: State, p: nat, va: nat): Option<Byte>
    requires p < |s.procs| && s.procs[p].Some?
  {
    var hw := s.procs[p].value.hw;
    var r := HwFind(hw, va);
    if r == |hw| then None
    else
      var k := SlotIndex(hw[r].down, hw[r].base, va);
      if k < |hw[r].ptes| && hw[r].ptes[k].present then Some(PageAt(s.ph, hw[r].ptes[k].ppn)[va % PGSIZE]) else None
  }

  lemma {:induction false} FindAgrees(hw: seq<Mapping>, ph: Phys, va: nat)
    ensures EagerFind(SpaceView(hw, ph), va) == HwFind(hw, va)
  {
    if hw != [] {
      assert SpaceView(hw, ph)[1..] == SpaceView(hw[1..], ph);
      FindAgrees(hw[1..], ph, va);
    }
  }

  lemma AllPresent(sp: Space, r: nat, k: nat)
    requires SpaceShape(sp) && r < |sp.hw| && k < |sp.hw[r].ptes|
    ensures sp.hw[r].ptes[k] == PteOf(sp.regions[r].slots[k])
    ensures sp.hw[r].ptes[k].present
  {
  }

  /** Reading through the table is reading the eager view, at every address. */
  lemma ReadAgrees(s: State, p: nat, va: nat)
    requires Inv(s) && p < |s.procs| && s.procs[p].Some?
    ensures CowRead(s, p, va) == EagerRead(View(s)[p].value, va)
  {
    hide Ledger;
    var sp := s.procs[p].value;
    assert ProcOk(s.procs[p], All(s));
    FindAgrees(sp.hw, s.ph, va);
    var r := HwFind(sp.hw, va);
    if r < |sp.hw| {
      var k := SlotIndex(sp.hw[r].down, sp.hw[r].base, va);
      if k < |sp.hw[r].ptes| {
        AllPresent(sp, r, k);
      }
    }
  }

  // ------------------------------------------------------------------- framing

  lemma SlotClaimed(rg: Region, k: nat, m: multiset<nat>)
    requires k < |rg.slots| && rg.slots[k].used && RegionClaims(rg) <= m
    ensures rg.slots[k].ppn in m
  {
    NamedHas(rg.slots, k);
    assert RegionClaims(rg)[rg.slots[k].ppn] <= m[rg.slots[k].ppn];
  }

  lemma MappingFrame(rg: Region, ph: Phys, ph': Phys, m: multiset<nat>)
    requires RegionShape(rg) && RegionClaims(rg) <= m && SameData(ph, ph', m)
    ensures MappingView(Install(rg), ph) == MappingView(Install(rg), ph')
  {
    hide RegionClaims;
    forall i | 0 <= i < Backed(rg.size)
      ensures PageAt(ph, Install(rg).ptes[i].ppn) == PageAt(ph', Install(rg).ptes[i].ppn)
    {
      assert SlotShape(rg.slots[i], true);
      SlotClaimed(rg, i, m);
    }
  }

  lemma SpaceFrame(regions: seq<Region>, ph: Phys, ph': Phys, m: multiset<nat>)
    requires (forall r | 0 <= r < |regions| :: RegionShape(regions[r]))
    requires RegionsClaims(regions) <= m && SameData(ph, ph', m)
    ensures SpaceView(InstallAll(regions), ph) == SpaceView(InstallAll(regions), ph')
  {
    hide RegionShape, RegionClaims, RegionsClaims, SameData;
    forall r | 0 <= r < |regions|
      ensures MappingView(InstallAll(regions)[r], ph) == MappingView(InstallAll(regions)[r], ph')
    {
      RegionInRegions(regions, r);
      assert RegionClaims(regions[r]) <= m;
      MappingFrame(regions[r], ph, ph', m);
    }
  }

  lemma ProcFrameView(p: Option<Space>, ph: Phys, ph': Phys, m: multiset<nat>)
    requires p.Some? ==> SpaceShape(p.value)
    requires Claims(p) <= m && SameData(ph, ph', m)
    ensures p.Some? ==> SpaceView(p.value.hw, ph) == SpaceView(p.value.hw, ph')
  {
    hide RegionShape, RegionsClaims, SameData;
    if p.Some? {
      assert RegionsClaims(p.value.regions) <= Claims(p) <= m;
      SpaceFrame(p.value.regions, ph, ph', m);
    }
  }

  /** Only process `p` looks different after a step that kept every page the others claim. */
  lemma ViewUpdate(s: State, p: nat, v: Option<Space>, ph': Phys)
    requires Inv(s) && p < |s.procs| && SameData(s.ph, ph', Rest(s, p))
    ensures View(s.(ph := ph', procs := s.procs[p := v])) ==
      View(s)[p := if v.None? then None else Some(SpaceView(v.value.hw, ph'))]
  {
    hide Ledger, Claims, Rest, SpaceShape, SpaceView, SameData;
    var s' := s.(ph := ph', procs := s.procs[p := v]);
    forall i | 0 <= i < |s.procs| && i != p ensures View(s')[i] == View(s)[i] {
      OtherClaims(s, p, i);
      assert ProcOk(s.procs[i], All(s));
      ProcFrameView(s.procs[i], s.ph, ph', Rest(s, p));
    }
  }
}
