/** Whole runs: every reachable state of the copy-on-write kernel is, to every process and at
    every address, a state of the eager-copy machine, and its reference counts are exact. */
module CowRuns {
  import opened Types
  import opened CoreMap
  import opened CowSpace
  import opened CowMachine
  import opened CowView
  import opened CowSteps
  import opened CowFork

  // ----------------------------------------------------------- the first process

  /** vregionaddmap on a region that has no descriptor chunk yet. */
  ghost function NewRegion(ph: Phys, down: bool, base: nat, contents: seq<Page>): Added
    requires |ph.core| == |ph.data|
  {
    AddPages(ph, Region(down, base, |contents| * PGSIZE, [], []), 0, contents)
  }

  /** Where a new process has its heap and the top of its stack; code starts at address 0. */
  datatype Layout = Layout(heap: nat, stack: nat)

  /** Whole pages, in the 4 GB that the kernel sweeps when the process is gone. */
  ghost predicate PageLayout(lay: Layout)
  {
    lay.heap % PGSIZE == 0 && lay.stack % PGSIZE == 0 && PGSIZE <= lay.stack <= 2 * SZ_2G && lay.heap <= 2 * SZ_2G
  }

  /** userinit leaves the heap at address 0 and puts the stack page above a guard page. */
  ghost function FirstLayout(code: seq<Page>): Layout
  {
    Layout(0, (|code| + 2) * PGSIZE)
  }

  /** A loaded program has its heap right after its code and its stack below 2 GB. */
  ghost function LoadedLayout(code: seq<Page>): Layout
  {
    Layout(|code| * PGSIZE, SZ_2G)
  }

  ghost function EmptyHeap(lay: Layout): Region
  {
    Region(false, lay.heap, 0, [], [])
  }

  /** Kernel stack, kernel half of the table, and the regions of a new process: code pages from
      address 0, an empty heap, one stack page. */
  ghost function Prepare(s: State, code: seq<Page>, lay: Layout, kmap: nat): Option<(Phys, Space)>
    requires |s.ph.core| == |s.ph.data|
  {
    var (ph1, ks) := Kalloc(s.ph);
    if ks.None? then None
    else
      var (ph2, kt) := KallocN(ph1, kmap);
      if kt.None? || |ph2.core| != |ph2.data| then None
      else
        var c := NewRegion(ph2, false, 0, code);
        if c.AddCrash? || c.done < |code| || |c.ph.core| != |c.ph.data| then None
        else
          var t := NewRegion(c.ph, true, lay.stack, [Filled(0)]);
          if t.AddCrash? || t.done < 1 then None
          else Some((t.ph, Space(ks.value, kt.value, [], [c.rg, EmptyHeap(lay), t.rg], [])))
  }

  ghost function FirstSpace(code: seq<Page>, lay: Layout): EagerSpace
  {
    [EagerRegion(false, 0, |code| * PGSIZE, code), EagerRegion(false, lay.heap, 0, []),
     EagerRegion(true, lay.stack, PGSIZE, [Filled(0)])]
  }

  ghost function Spawn(s: State, p: nat, code: seq<Page>, lay: Layout, kmap: nat, need: nat): Outcome
    requires p < |s.procs| && s.procs[p].None? && |s.ph.core| == |s.ph.data|
  {
    match Prepare(s, code, lay, kmap)
    case None => Stuck
    case Some((ph, sp)) => Finish(s, p, ph, sp, need, Spawned(p, FirstSpace(code, lay)))
  }

  ghost function SlotPage(rg: Region, i: nat): nat
  {
    if i < |rg.slots| then rg.slots[i].ppn else 0
  }

  lemma NoClaims(rg: Region, m: multiset<nat>)
    requires rg.chunks == [] && rg.slots == []
    ensures m + RegionClaims(rg) == m
  {
  }

  lemma NewRegionShape(ph: Phys, rg: Region, rg': Region, contents: seq<Page>)
    requires rg == Region(rg.down, rg.base, |contents| * PGSIZE, [], []) && Aligned(rg.down, rg.base, rg.size)
    requires Appended(rg, rg', 0, |contents|)
    ensures RegionShape(rg') && Backed(rg'.size) == |contents|
    ensures forall i | 0 <= i < |contents| :: rg'.slots[i] == NewSlot(rg'.slots[i].ppn)
    ensures (rg'.down, rg'.base, rg'.size) == (rg.down, rg.base, rg.size)
  {
  }

  lemma NewRegionView(ph: Phys, rg: Region, contents: seq<Page>, m: multiset<nat>)
    requires RegionShape(rg) && Backed(rg.size) == |contents| && rg.size == |contents| * PGSIZE
    requires forall i | 0 <= i < |contents| :: rg.slots[i] == NewSlot(rg.slots[i].ppn)
    requires Contents(ph, rg.slots, 0, contents) && Ledger(ph, m + RegionClaims(rg))
    ensures Install(rg).ptes == seq(|contents|, i requires 0 <= i < |contents| => Pte(SlotPage(rg, i), true, true))
    ensures MappingView(Install(rg), ph) == EagerRegion(rg.down, rg.base, rg.size, contents)
  {
    hide RegionClaims, PhysOk;
    forall i | 0 <= i < |contents| ensures PageAt(ph, Install(rg).ptes[i].ppn) == contents[i] {
      SlotClaimed(rg, i, m + RegionClaims(rg));
      LedgerShape(ph, m + RegionClaims(rg));
      assert rg.slots[0 + i].ppn < |ph.data|;
    }
    assert MappingView(Install(rg), ph).pages == contents;
  }

  lemma NewRegionLedger(ph: Phys, down: bool, base: nat, contents: seq<Page>, m: multiset<nat>)
    requires Ledger(ph, m) && Aligned(down, base, |contents| * PGSIZE)
    ensures |ph.core| == |ph.data|
    ensures var a := NewRegion(ph, down, base, contents);
      a.Added? ==>
        && a.done <= |contents|
        && Ledger(a.ph, m + RegionClaims(a.rg)) && FreshClaims(m, m + RegionClaims(a.rg)) && SameData(ph, a.ph, m)
        && (a.done == |contents| ==>
          && RegionShape(a.rg) && a.rg.down == down
          && Install(a.rg).ptes == seq(|contents|, i requires 0 <= i < |contents| => Pte(SlotPage(a.rg, i), true, true))
          && MappingView(Install(a.rg), a.ph) == EagerRegion(down, base, |contents| * PGSIZE, contents))
  {
    hide Ledger, FreshClaims, SameData;
    var rg := Region(down, base, |contents| * PGSIZE, [], []);
    LedgerShape(ph, m);
    NoClaims(rg, m);
    AddPagesLedger(ph, rg, 0, contents, m);
    var a := NewRegion(ph, down, base, contents);
    if a.Added? && a.done == |contents| {
      assert contents[..a.done] == contents;
      NewRegionShape(a.ph, rg, a.rg, contents);
      NewRegionView(a.ph, a.rg, contents, m);
    }
  }

  lemma AllNew(m: multiset<nat>, sp: Space)
    requires FreshClaims(m, m + Claims(Some(sp)))
    ensures Exclusive(sp, m + Claims(Some(sp)))
  {
    hide Claims, Owns;
    forall x | Owns(sp, x) ensures (m + Claims(Some(sp)))[x] == 1 {
      OwnsClaimed(sp, x);
    }
  }

  lemma Regroup4(m: multiset<nat>, a: multiset<nat>, b: multiset<nat>, c: multiset<nat>, d: multiset<nat>)
    ensures m + (a + b + multiset{} + (c + d)) == m + a + b + c + d
  {
  }

  lemma FirstClaims(m: multiset<nat>, ks: nat, kt: seq<nat>, c: Region, h: Region, t: Region)
    requires h.chunks == [] && h.slots == []
    ensures m + Claims(Some(Space(ks, kt, [], [c, h, t], [])))
      == m + multiset{ks} + multiset(kt) + RegionClaims(c) + RegionClaims(t)
  {
    hide Named;
    var rs := [c, h, t];
    assert rs[..2] == [c, h] && rs[..2][..1] == [c] && rs[..2][..1][..0] == [];
    NoClaims(h, RegionClaims(c));
    hide RegionClaims;
    assert RegionsClaims([]) == multiset{};
    assert RegionsClaims([c]) == RegionClaims(c) by { assert [c][..0] == []; }
    assert RegionsClaims([c, h]) == RegionClaims(c) by { assert [c, h][..1] == [c]; }
    assert RegionsClaims(rs) == RegionClaims(c) + RegionClaims(t);
    Regroup4(m, multiset{ks}, multiset(kt), RegionClaims(c), RegionClaims(t));
  }

  lemma EmptyHeapShape(lay: Layout)
    requires PageLayout(lay)
    ensures RegionShape(EmptyHeap(lay))
  {
  }

  lemma OneFresh(m: multiset<nat>, x: nat)
    requires x !in m
    ensures FreshClaims(m, m + multiset{x})
  {
  }

  lemma PrepareLedger(s: State, code: seq<Page>, lay: Layout, kmap: nat)
    requires Inv(s) && |s.ph.core| == |s.ph.data| && PageLayout(lay)
    requires Prepare(s, code, lay, kmap).Some?
    ensures var (ph, sp) := Prepare(s, code, lay, kmap).value;
      && Ledger(ph, All(s) + Claims(Some(sp))) && FreshClaims(All(s), All(s) + Claims(Some(sp)))
      && SameData(s.ph, ph, All(s)) && RegionsShape(sp.regions)
      && sp.regions[VR_HEAP] == EmptyHeap(lay) && sp.userTables == []
      && MappingView(Install(sp.regions[0]), ph) == EagerRegion(false, 0, |code| * PGSIZE, code)
      && MappingView(Install(sp.regions[VR_USTACK]), ph) == EagerRegion(true, lay.stack, PGSIZE, [Filled(0)])
  {
    hide Ledger, All, Claims, RegionClaims, FreshClaims, SameData, NewPages, Install, MappingView, NewRegion,
      RegionShape;
    var m := All(s);
    KallocLedger(s.ph, m);
    var (ph1, ks) := Kalloc(s.ph);
    var m1 := m + multiset{ks.value};
    KallocNLedger(ph1, kmap, m1);
    var (ph2, kt) := KallocN(ph1, kmap);
    var m2 := m1 + multiset(kt.value);
    NewRegionLedger(ph2, false, 0, code, m2);
    var c := NewRegion(ph2, false, 0, code);
    var m3 := m2 + RegionClaims(c.rg);
    NewRegionLedger(c.ph, true, lay.stack, [Filled(0)], m3);
    var t := NewRegion(c.ph, true, lay.stack, [Filled(0)]);
    var m4 := m3 + RegionClaims(t.rg);
    FirstClaims(m, ks.value, kt.value, c.rg, EmptyHeap(lay), t.rg);
    OneFresh(m, ks.value);
    KallocNFresh(m1, kt.value);
    FreshTrans(m, m1, m2);
    FreshTrans(m, m2, m3);
    FreshTrans(m, m3, m4);
    SameDataEq(s.ph, ph2, m);
    SameDataTrans(s.ph, ph2, c.ph, m, m2);
    SameDataTrans(s.ph, c.ph, t.ph, m, m3);
    MappingFrame(c.rg, c.ph, t.ph, m3);
    EmptyHeapShape(lay);
  }

  lemma FirstView(c: Region, h: Region, t: Region, ph: Phys, code: seq<Page>, lay: Layout)
    requires MappingView(Install(c), ph) == EagerRegion(false, 0, |code| * PGSIZE, code)
    requires MappingView(Install(t), ph) == EagerRegion(true, lay.stack, PGSIZE, [Filled(0)])
    requires h == EmptyHeap(lay)
    ensures SpaceView(InstallAll([c, h, t]), ph) == FirstSpace(code, lay)
  {
    assert MappingView(Install(h), ph) == EagerRegion(false, lay.heap, 0, []);
    assert InstallAll([c, h, t]) == [Install(c), Install(h), Install(t)];
  }

  lemma ThreeRegions(sp: Space)
    requires RegionsShape(sp.regions)
    ensures |sp.regions| == 3 && sp.regions == [sp.regions[0], sp.regions[1], sp.regions[2]]
  {
  }

  lemma RestOfNone(s: State, p: nat)
    requires p < |s.procs| && s.procs[p].None?
    ensures Rest(s, p) == All(s)
  {
  }

  lemma SpawnRefines(s: State, p: nat, code: seq<Page>, lay: Layout, kmap: nat, need: nat)
    requires Inv(s) && p < |s.procs| && s.procs[p].None? && PageLayout(lay)
    ensures |s.ph.core| == |s.ph.data| && Refines(s, Spawn(s, p, code, lay, kmap, need))
  {
    hide Ledger, All, Claims, RegionClaims, FreshClaims, SameData, Install, InstallAll, MappingView, RegionsShape,
      Exclusive, Rest, SpaceView, BesideTables, Gentle, Total, Rebuild, Prepare;
    LedgerShape(s.ph, All(s));
    var o := Spawn(s, p, code, lay, kmap, need);
    if o.Done? {
      PrepareLedger(s, code, lay, kmap);
      var (ph, sp) := Prepare(s, code, lay, kmap).value;
      var m := All(s);
      AllNew(m, sp);
      RebuildProc(ph, sp, need, m);
      RebuiltHw(ph, sp, need);
      var (ph', sp') := Rebuild(ph, sp, need).value;
      RestOfNone(s, p);
      FreshGentle(m, m + Claims(Some(sp)), m);
      GentleTrans(m, m + Claims(Some(sp)), m + Claims(Some(sp')), m);
      UpdateInv(s, p, Some(sp'), ph');
      SameDataPart(ph, ph', m + BesideTables(sp), m);
      SameDataShrink(s.ph, ph, ph', m, m);
      ViewUpdate(s, p, Some(sp'), ph');
      RebuildView(ph, sp, ph', m);
      ThreeRegions(sp);
      FirstView(sp.regions[0], sp.regions[1], sp.regions[2], ph, code, lay);
    }
  }

  // ------------------------------------------------------------------------- runs

  datatype Step =
    | DoSpawn(p: nat, code: seq<Page>, lay: Layout, kmap: nat, need: nat)
    | DoWrite(p: nat, va: nat, b: Byte)
    | DoFault(p: nat, va: nat, need: nat)
    | DoSbrk(p: nat, n: nat, need: nat)
    | DoFork(p: nat, c: nat, kmap: nat, needC: nat, needP: nat)
    | DoReap(p: nat)

  /** A step the processes may ask for.  Fork is left out only where it starts a broken child
      (ForkRefines). */
  ghost predicate Enabled(s: State, st: Step)
  {
    match st
    case DoSpawn(p, _, lay, _, _) => p < |s.procs| && s.procs[p].None? && |s.ph.core| == |s.ph.data| && PageLayout(lay)
    case DoWrite(p, _, _) => Live(s, p)
    case DoFault(p, _, _) => Live(s, p)
    case DoSbrk(p, _, _) => Live(s, p)
    case DoFork(p, c, kmap, _, _) =>
      && Live(s, p) && c < |s.procs| && s.procs[c].None? && ForkKeeps(s, p, kmap)
      && (forall r | 0 <= r < |s.procs[p].value.regions| :: ChunkShape(s.procs[p].value.regions[r]))
    case DoReap(p) => Live(s, p)
  }

  ghost function Next(s: State, st: Step): Outcome
    requires Enabled(s, st)
  {
    match st
    case DoSpawn(p, code, lay, kmap, need) => Spawn(s, p, code, lay, kmap, need)
    case DoWrite(p, va, b) => Write(s, p, va, b)
    case DoFault(p, va, need) => Fault(s, p, va, need)
    case DoSbrk(p, n, need) => Sbrk(s, p, n, need)
    case DoFork(p, c, kmap, needC, needP) => Fork(s, p, c, kmap, needC, needP)
    case DoReap(p) => Reap(s, p)
  }

  lemma DoneRefines(s: State, o: Outcome)
    requires o.Done? && Inv(o.s) && Applies(View(s), o.did) && View(o.s) == Apply(View(s), o.did)
    ensures Refines(s, o)
  {
  }

  lemma NextRefines(s: State, st: Step)
    requires Inv(s) && Enabled(s, st)
    ensures Refines(s, Next(s, st))
  {
    hide Inv, Refines, Spawn, Write, Fault, Sbrk, Fork, Reap, ForkKeeps, ChunkShape;
    match st
    case DoSpawn(p, code, lay, kmap, need) => SpawnRefines(s, p, code, lay, kmap, need);
    case DoWrite(p, va, b) =>
      if Write(s, p, va, b).Done? { WriteRefines(s, p, va, b); DoneRefines(s, Write(s, p, va, b)); }
      else { StuckRefines(s); }
    case DoFault(p, va, need) => FaultRefines(s, p, va, need);
    case DoSbrk(p, n, need) => SbrkRefines(s, p, n, need);
    case DoFork(p, c, kmap, needC, needP) => ForkRefines(s, p, c, kmap, needC, needP);
    case DoReap(p) => ReapRefines(s, p);
  }

  /** States visited by a run that never gets stuck, and what the eager machine is told to do. */
  ghost predicate Run(states: seq<State>, steps: seq<Step>, labels: seq<Label>)
  {
    && |states| == |steps| + 1 && |labels| == |steps|
    && forall i | 0 <= i < |steps| ::
         Enabled(states[i], steps[i]) && Next(states[i], steps[i]) == Done(states[i + 1], labels[i])
  }

  /** The eager machine run on a list of labels; None when one of them does not apply. */
  ghost function Eagerly(v: Eager, labels: seq<Label>): Option<Eager>
  {
    if labels == [] then Some(v)
    else
      match Eagerly(v, labels[..|labels| - 1])
      case None => None
      case Some(w) => if Applies(w, labels[|labels| - 1]) then Some(Apply(w, labels[|labels| - 1])) else None
  }

  /** After booting: free pages handed over by mem_init, no process yet. */
  ghost predicate Init(s: State)
  {
    && Ledger(s.ph, s.boot) && (forall pg | pg in s.boot :: s.boot[pg] == 1)
    && forall i | 0 <= i < |s.procs| :: s.procs[i].None?
  }

  lemma {:induction false} NoProcsNoClaims(procs: seq<Option<Space>>)
    requires forall i | 0 <= i < |procs| :: procs[i].None?
    ensures Total(procs) == multiset{}
  {
    if procs != [] {
      NoProcsNoClaims(procs[..|procs| - 1]);
    }
  }

  lemma InitInv(s: State)
    requires Init(s)
    ensures Inv(s)
  {
    NoProcsNoClaims(s.procs);
    assert All(s) == s.boot;
  }

  lemma RunPrefix(states: seq<State>, steps: seq<Step>, labels: seq<Label>)
    requires Run(states, steps, labels) && steps != []
    ensures var n := |steps| - 1; Run(states[..n + 1], steps[..n], labels[..n])
  {
  }

  /** The main theorem: along every run that starts in a state in order, such as a booted kernel
      (InitInv), the invariant holds, and the final state looks to the processes exactly as the
      eager-copy machine would after the same operations. */
  lemma {:induction false} RunRefines(states: seq<State>, steps: seq<Step>, labels: seq<Label>)
    requires Run(states, steps, labels) && Inv(states[0])
    ensures Inv(states[|steps|])
    ensures Eagerly(View(states[0]), labels) == Some(View(states[|steps|]))
    decreases |steps|
  {
    hide Inv, Enabled, Next;
    if steps != [] {
      var n := |steps| - 1;
      RunPrefix(states, steps, labels);
      RunRefines(states[..n + 1], steps[..n], labels[..n]);
      NextRefines(states[n], steps[n]);
    }
  }

  /** Every process reads, at every address, what it would read had each fork copied eagerly. */
  lemma ReadsAsIfEager(states: seq<State>, steps: seq<Step>, labels: seq<Label>, p: nat, va: nat)
    requires Run(states, steps, labels) && Inv(states[0]) && Live(states[|steps|], p)
    ensures var v := Eagerly(View(states[0]), labels);
      v.Some? && p < |v.value| && v.value[p].Some?
      && CowRead(states[|steps|], p, va) == EagerRead(v.value[p].value, va)
  {
    hide Inv, Enabled, Next, EagerRead, CowRead;
    RunRefines(states, steps, labels);
    ReadAgrees(states[|steps|], p, va);
  }

  /** Over the same runs: a page's count is the number of claims on it (kernel pages and used
      descriptor slots of live processes), it is available exactly when that is 0 (above the
      kernel image), the counters are exact, and a writable slot is the only claim on its page. */
  lemma CountsExact(states: seq<State>, steps: seq<Step>, labels: seq<Label>)
    requires Run(states, steps, labels) && Inv(states[0])
    ensures var s := states[|steps|];
      && (forall pg | 0 <= pg < |s.ph.core| :: s.ph.core[pg].refCount == s.boot[pg] + Total(s.procs)[pg])
      && (forall pg | s.ph.lo <= pg < |s.ph.core| :: s.ph.core[pg].available <==> s.ph.core[pg].refCount == 0)
      && s.ph.freePages == AvailableIn(s.ph.core) && s.ph.pagesInUse == AllocatedIn(s.ph.core)
      && (forall p, r, k | 0 <= p < |s.procs| && s.procs[p].Some? && 0 <= r < |s.procs[p].value.regions|
            && 0 <= k < |s.procs[p].value.regions[r].slots| ::
            var v := s.procs[p].value.regions[r].slots[k];
            v.used && v.writable ==> v.ppn < |s.ph.core| && s.ph.core[v.ppn].refCount == 1)
  {
    hide Enabled, Next, SpaceShape, Total, AvailableIn, AllocatedIn;
    RunRefines(states, steps, labels);
    var s := states[|steps|];
    forall p, r, k | 0 <= p < |s.procs| && s.procs[p].Some? && 0 <= r < |s.procs[p].value.regions|
        && 0 <= k < |s.procs[p].value.regions[r].slots|
        && s.procs[p].value.regions[r].slots[k].used && s.procs[p].value.regions[r].slots[k].writable
      ensures s.procs[p].value.regions[r].slots[k].ppn < |s.ph.core|
      ensures s.ph.core[s.procs[p].value.regions[r].slots[k].ppn].refCount == 1
    {
      var pg := s.procs[p].value.regions[r].slots[k].ppn;
      assert RegionOwns(s.procs[p].value.regions[r], pg);
      assert ProcOk(s.procs[p], All(s));
      assert Owns(s.procs[p].value, pg);
      assert All(s)[pg] == 1;
      LedgerBound(s.ph, All(s), pg);
    }
  }
}
