/** Fork from call to return: exactly when it gives the child a copy, exactly when the kernel panics, and
    that a store of the child afterwards is the child's alone. */
module CowIsolation {
  import opened Types
  import opened CoreMap
  import opened CowSpace
  import opened CowMachine
  import opened CowView
  import opened CowSteps
  import opened CowFork
  import opened CowRuns
  import opened CowProgress

  // ------------------------------------------------------------- when fork succeeds

  /** Parent and child have the parent's regions, read-only, and tables of their own. */
  ghost predicate Twins(s: State, p: nat, c: nat, kmap: nat, needC: nat, needP: nat, s': State)
    requires Live(s, p)
  {
    && Inv(s') && Live(s', p) && Live(s', c)
    && var sp, parent, child := s.procs[p].value, s'.procs[p].value, s'.procs[c].value;
    && CopiedRegions(sp.regions, parent.regions, child.regions)
    && |child.userTables| == needC && |parent.userTables| == needP
    && s'.ph.freePages == s.ph.freePages - 1 - kmap - TotalChunks(sp.regions) - needC + |sp.userTables| - needP
  }

  /** The pages left once the child is complete. */
  ghost function ForkLeaves(s: State, p: nat, kmap: nat, needC: nat): int
    requires Live(s, p)
  {
    s.ph.freePages - 1 - kmap - TotalChunks(s.procs[p].value.regions) - needC
  }

  lemma CopiedDisjoint(sp: Space, src: seq<Region>, dst: seq<Region>)
    requires SpaceShape(sp) && CopiedRegions(sp.regions, src, dst)
    ensures Disjoint(src) && Disjoint(dst)
  {
    hide CopiedRegions, RegionShape, ReadOnly, Disjoint;
    CopiedFacts(sp.regions, src, dst);
    SameDisjoint(sp.regions, src);
    SameDisjoint(sp.regions, dst);
  }

  /** The two rebuilds at the end of vspacecopy succeed exactly when their table pages are free. */
  lemma ForkRebuildsIff(s: State, p: nat, c: nat, ph: Phys, child: Space, parent: Space, needC: nat, needP: nat)
    requires Inv(s) && Live(s, p) && c < |s.procs| && p != c && s.procs[c].None?
    requires ForkMiddle(s, p, ph, child, parent) && child.userTables == []
    requires Disjoint(child.regions) && Disjoint(parent.regions)
    ensures var o := Finish(s, c, ph, child, needC, Silent);
      && (o.Done? <==> needC <= ph.freePages)
      && (o.Done? ==>
        var o2 := Finish(o.s, p, o.s.ph, parent, needP, Forked(p, c));
        && (o2.Done? <==> needP <= ph.freePages - needC + |parent.userTables|)
        && (o2.Done? ==>
          && o2.did == Forked(p, c) && Live(o2.s, p) && Live(o2.s, c)
          && o2.s.procs[p].value.regions == parent.regions && o2.s.procs[c].value.regions == child.regions
          && |o2.s.procs[p].value.userTables| == needP && |o2.s.procs[c].value.userTables| == needC
          && o2.s.ph.freePages == ph.freePages - needC + |parent.userTables| - needP))
  {
    hide Ledger, Claims, Rest, SameData, Gentle, BesideTables, RegionsShape, Owns, SpaceView, InstallAll, Total,
      Rebuild, Inv, View, SpaceShape, Disjoint;
    var m, rest := All(s), Rest(s, p);
    RestAndOwn(s, p);
    RebuildProc(ph, child, needC, m);
    RebuildIff(ph, child, needC, m);
    if Rebuild(ph, child, needC).Some? {
      var (ph4, child1) := Rebuild(ph, child, needC).value;
      var rest2 := rest + Claims(Some(child1));
      assert rest2 + Claims(Some(parent)) == m + Claims(Some(child1));
      forall x | Owns(parent, x) ensures (rest2 + Claims(Some(parent)))[x] == 1 {
        GentleAt(m + Claims(Some(child)), m + Claims(Some(child1)), m, x);
      }
      RebuildIff(ph4, parent, needP, rest2);
    }
  }

  /** With a page for every chunk: the child is there exactly when both rebuilds get their pages; otherwise
      the kernel panics. */
  lemma ForkCompletes(s: State, p: nat, c: nat, kmap: nat, needC: nat, needP: nat)
    requires Inv(s) && Live(s, p) && c < |s.procs| && s.procs[c].None? && ForkFits(s, p, kmap)
    ensures forall r | 0 <= r < |s.procs[p].value.regions| :: ChunkShape(s.procs[p].value.regions[r])
    ensures var o, left := Fork(s, p, c, kmap, needC, needP), ForkLeaves(s, p, kmap, needC);
      && (o.Done? <==> left >= 0 && needP <= left + |s.procs[p].value.userTables|)
      && (o.Done? ==> o.did == Forked(p, c) && Twins(s, p, c, kmap, needC, needP, o.s))
  {
    hide Ledger, All, Claims, CopyRegions, ForkMiddle, ChildStart, CopiedRegions, Kalloc, KallocN, Inv,
      Rebuild, View, Disjoint, Finish, TotalChunks;
    ChunkShapes(s, p);
    ForkCopied(s, p, c, kmap);
    ForkWithMemory(s, p, c, kmap, needC, needP);
    InvDisjoint(s, p);
    var sp := s.procs[p].value;
    var (ph1, ks) := Kalloc(s.ph);
    var (ph2, kt) := KallocN(ph1, kmap);
    var copy := CopyRegions(ph2, sp.regions);
    var child := Space(ks.value, kt.value, [], copy.dst, []);
    var parent := sp.(regions := copy.src);
    ForkMiddleHolds(s, p, copy.ph, child, parent);
    CopiedDisjoint(sp, copy.src, copy.dst);
    ForkRebuildsIff(s, p, c, copy.ph, child, parent, needC, needP);
  }

  /** fork gives the child a copy of its parent exactly when there is a page for the kernel stack, for the
      kernel half of the table, for every descriptor chunk and for both tables.  It returns -1 exactly
      when no page is free.  The kernel panics exactly when pages run out in the kernel half or in the
      tables; in what is left, when they run out in the chunks, it starts a child without memory. */
  lemma ForkIff(s: State, p: nat, c: nat, kmap: nat, needC: nat, needP: nat)
    requires Inv(s) && Live(s, p) && c < |s.procs| && s.procs[c].None?
    ensures forall r | 0 <= r < |s.procs[p].value.regions| :: ChunkShape(s.procs[p].value.regions[r])
    ensures Applies(View(s), Forked(p, c))
    ensures var o, left := Fork(s, p, c, kmap, needC, needP), ForkLeaves(s, p, kmap, needC);
      var tables := left >= 0 && needP <= left + |s.procs[p].value.userTables|;
      && (o.Done? && o.did == Forked(p, c) && View(o.s) == Apply(View(s), Forked(p, c)) <==> tables)
      && (o == Done(s, Silent) <==> s.ph.freePages == 0)
      && (o.Stuck? <==> 0 < s.ph.freePages < 1 + kmap || (ForkFits(s, p, kmap) && !tables))
      && (tables ==> Twins(s, p, c, kmap, needC, needP, o.s))
  {
    hide Inv, Ledger, All, Fork, View, Apply, Applies, Twins, TotalChunks;
    ChunkShapes(s, p);
    ForkedApplies(s, p, c);
    InvLedger(s);
    FreeCount(s.ph, All(s));
    if ForkFits(s, p, kmap) {
      ForkCompletes(s, p, c, kmap, needC, needP);
      ForkWithMemory(s, p, c, kmap, needC, needP);
    } else if s.ph.freePages >= 1 + kmap {
      ForkShortOfMemory(s, p, c, kmap, needC, needP);
    } else {
      ForkFailsCleanly(s, p, c, kmap, needC, needP);
    }
  }

  // ---------------------------------------------------- a store of the child is its own

  /** The child finds the address where the parent did, in a slot it may not write. */
  lemma TwinSlot(s: State, p: nat, c: nat, kmap: nat, needC: nat, needP: nat, s': State, va: nat)
    requires Inv(s) && Live(s, p) && Twins(s, p, c, kmap, needC, needP, s')
    requires RegionFind(s.procs[p].value.regions, va) < |s.procs[p].value.regions|
    ensures var child := s'.procs[c].value;
      var r := RegionFind(child.regions, va);
      && r < |child.regions| && r == HwFind(child.hw, va)
      && var k := SlotIndex(child.regions[r].down, child.regions[r].base, va);
      k < |child.regions[r].slots| ==> !child.regions[r].slots[k].writable
  {
    hide Inv, CopiedRegions, RegionShape, Disjoint, ReadOnly;
    var sp, child := s.procs[p].value, s'.procs[c].value;
    InvDisjoint(s, p);
    InvDisjoint(s', c);
    CopiedFacts(sp.regions, s'.procs[p].value.regions, child.regions);
    RegionFindSame(sp.regions, child.regions, va);
    RegionFindAgrees(child.regions, va);
  }

  /** A fault that finds a copy-on-write slot has no effect that anybody could see. */
  lemma CowFaultSilent(s: State, p: nat, va: nat, need: nat)
    requires Inv(s) && Live(s, p) && CowRead(s, p, va).Some?
    requires var sp := s.procs[p].value;
      var r := RegionFind(sp.regions, va);
      && r < |sp.regions| && r == HwFind(sp.hw, va)
      && var k := SlotIndex(sp.regions[r].down, sp.regions[r].base, va);
      k < |sp.regions[r].slots| ==> !sp.regions[r].slots[k].writable
    ensures var o := Fault(s, p, va, need); o.Done? ==> o.did == Silent
  {
    hide Inv, Rebuild, StackFault, CopyPage;
    ReadableSlot(s, p, va);
  }

  lemma StoreResolves(s: State, p: nat, va: nat, need: nat, b: Byte)
    requires Inv(s) && Live(s, p) && CowRead(s, p, va).Some?
    requires var sp := s.procs[p].value;
      var r := RegionFind(sp.regions, va);
      && r < |sp.regions| && r == HwFind(sp.hw, va)
      && var k := SlotIndex(sp.regions[r].down, sp.regions[r].base, va);
      k < |sp.regions[r].slots| ==> !sp.regions[r].slots[k].writable
    requires 1 <= s.ph.freePages && need + 1 <= s.ph.freePages + |s.procs[p].value.userTables|
    ensures var o := Fault(s, p, va, need); o.Done? && Live(o.s, p) && Write(o.s, p, va, b).Done?
  {
    hide Inv, Fault, Write, CowRead;
    ReadableSlot(s, p, va);
    WriteIff(s, p, va, b);
    FaultThenWrite(s, p, va, need, b);
  }

  lemma WriteLabel(s: State, p: nat, va: nat, b: Byte)
    requires Live(s, p) && Write(s, p, va, b).Done?
    ensures Write(s, p, va, b).did == Stored(p, va, b) && Write(s, p, va, b).s.procs == s.procs
  {
  }

  lemma ViewLives(s: State, s': State, q: nat)
    requires q < |s.procs|
    ensures |View(s')| == |s'.procs| && |View(s)| == |s.procs|
    ensures q < |s'.procs| ==> (View(s')[q].Some? <==> s'.procs[q].Some?)
    ensures View(s)[q].Some? <==> s.procs[q].Some?
  {
  }

  lemma {:induction false} EagerFindSame(e: EagerSpace, e': EagerSpace, va: nat)
    requires |e| == |e'|
    requires forall r | 0 <= r < |e| :: (e'[r].down, e'[r].base, |e'[r].pages|) == (e[r].down, e[r].base, |e[r].pages|)
    ensures EagerFind(e', va) == EagerFind(e, va)
  {
    if e != [] {
      EagerFindSame(e[1..], e'[1..], va);
    }
  }

  lemma ReadStored(e: EagerSpace, va: nat, b: Byte)
    requires EagerRead(e, va).Some?
    ensures EagerRead(EagerStore(e, va, b), va) == Some(b)
  {
    EagerFindSame(e, EagerStore(e, va, b), va);
  }

  /** In s1, where p has just forked c in s, a store of c goes through after one fault, and then c reads what
      it stored, and everybody else, p among them, sees what they saw in s. */
  ghost predicate StoresAlone(s: State, p: nat, c: nat, s1: State, need: nat, va: nat, b: Byte)
    requires Live(s, p)
  {
    && Live(s1, c)
    && var f := Fault(s1, c, va, need);
    && f.Done? && f.did == Silent && Live(f.s, c)
    && var w := Write(f.s, c, va, b);
    && w.Done? && w.did == Stored(c, va, b) && Live(w.s, p) && Live(w.s, c)
    && CowRead(w.s, p, va) == CowRead(s, p, va) && CowRead(w.s, c, va) == Some(b)
    && |w.s.procs| == |s.procs| && forall q | 0 <= q < |s.procs| && q != c :: View(w.s)[q] == View(s)[q]
  }

  lemma StoreAfterFork(s: State, p: nat, c: nat, kmap: nat, needC: nat, needP: nat, s1: State, need: nat,
                       va: nat, b: Byte)
    requires Inv(s) && Live(s, p) && c < |s.procs| && s.procs[c].None? && CowRead(s, p, va).Some?
    requires RegionFind(s.procs[p].value.regions, va) < |s.procs[p].value.regions|
    requires Twins(s, p, c, kmap, needC, needP, s1) && 1 <= s1.ph.freePages && need + 1 <= s1.ph.freePages + needC
    requires Applies(View(s), Forked(p, c)) && View(s1) == Apply(View(s), Forked(p, c))
    ensures StoresAlone(s, p, c, s1, need, va, b)
  {
    hide Inv, Fault, Write, CowRead, CopiedRegions, EagerRead, EagerStore;
    TwinSlot(s, p, c, kmap, needC, needP, s1, va);
    ReadAgrees(s, p, va);
    ReadAgrees(s1, c, va);
    assert View(s1)[c] == View(s)[p];
    CowFaultSilent(s1, c, va, need);
    FaultRefines(s1, c, va, need);
    StoreResolves(s1, c, va, need, b);
    var s2 := Fault(s1, c, va, need).s;
    ViewLives(s1, s2, p);
    WriteRefines(s2, c, va, b);
    WriteLabel(s2, c, va, b);
    var s3 := Write(s2, c, va, b).s;
    ReadAgrees(s3, p, va);
    ReadAgrees(s3, c, va);
    ReadStored(View(s2)[c].value, va, b);
  }

  lemma TwinsFree(s: State, p: nat, c: nat, kmap: nat, needC: nat, needP: nat, s': State)
    requires Live(s, p) && Twins(s, p, c, kmap, needC, needP, s')
    ensures s'.ph.freePages == ForkLeaves(s, p, kmap, needC) + |s.procs[p].value.userTables| - needP
  {
  }

  /** After a fork the child stores alone, to any byte of any region, if there are pages for a copy and for
      the new table. */
  lemma ForkThenStore(s: State, p: nat, c: nat, kmap: nat, needC: nat, needP: nat, need: nat, va: nat, b: Byte)
    requires Inv(s) && Live(s, p) && c < |s.procs| && s.procs[c].None? && CowRead(s, p, va).Some?
    requires RegionFind(s.procs[p].value.regions, va) < |s.procs[p].value.regions|
    requires var left := ForkLeaves(s, p, kmap, needC) + |s.procs[p].value.userTables| - needP;
      ForkLeaves(s, p, kmap, needC) >= 0 && left >= 1 && need + 1 <= left + needC
    ensures forall r | 0 <= r < |s.procs[p].value.regions| :: ChunkShape(s.procs[p].value.regions[r])
    ensures var o := Fork(s, p, c, kmap, needC, needP);
      o.Done? && o.did == Forked(p, c) && StoresAlone(s, p, c, o.s, need, va, b)
  {
    hide Inv, Fork, Twins, StoresAlone, CowRead, ForkLeaves, View, RegionFind;
    ForkIff(s, p, c, kmap, needC, needP);
    var s1 := Fork(s, p, c, kmap, needC, needP).s;
    TwinsFree(s, p, c, kmap, needC, needP, s1);
    StoreAfterFork(s, p, c, kmap, needC, needP, s1, need, va, b);
  }

  // --------------------------------------------------------------- a run with a fork

  /** A byte of the code of a process that has just started. */
  lemma StartedByte(s: State, p: nat, code: seq<Page>, lay: Layout, need: nat, va: nat)
    requires Started(s, p, code, lay, need) && va < |code| * PGSIZE
    requires View(s)[p] == Some(FirstSpace(code, lay))
    ensures va / PGSIZE < |code| && RegionFind(s.procs[p].value.regions, va) == 0
    ensures CowRead(s, p, va) == Some(code[va / PGSIZE][va % PGSIZE])
  {
    hide Inv;
    ReadAgrees(s, p, va);
  }

  /** The pages of a run in which a program starts and forks, and the child stores. */
  ghost function ForkRunPages(code: seq<Page>, kmap: nat, need: nat): nat
  {
    PreparePages(code, kmap) + need + (1 + kmap + StartChunks(code) + need) + 1
  }

  lemma SpawnsFirst(s: State, p: nat, code: seq<Page>, lay: Layout, kmap: nat, need: nat)
    requires Inv(s) && p < |s.procs| && s.procs[p].None? && PageLayout(lay)
    requires PreparePages(code, kmap) + need <= s.ph.freePages && |code| * PGSIZE + PGSIZE <= lay.stack
    ensures |s.ph.core| == |s.ph.data|
    ensures var o := Spawn(s, p, code, lay, kmap, need);
      && o.Done? && o.did == Spawned(p, FirstSpace(code, lay)) && Started(o.s, p, code, lay, need)
      && o.s.ph.freePages == s.ph.freePages - PreparePages(code, kmap) - need
      && TotalChunks(o.s.procs[p].value.regions) == StartChunks(code)
      && |o.s.procs| == |s.procs| && View(o.s)[p] == Some(FirstSpace(code, lay))
      && (forall q | 0 <= q < |s.procs| && q != p :: o.s.procs[q].Some? <==> s.procs[q].Some?)
  {
    hide Inv, Spawn, PreparePages, TotalChunks, StartChunks, FirstSpace, Started, SpaceView;
    SpawnIff(s, p, code, lay, kmap, need);
    SpawnRefines(s, p, code, lay, kmap, need);
    var o := Spawn(s, p, code, lay, kmap, need);
    assert |View(o.s)| == |View(s)|;
    forall q | 0 <= q < |s.procs| && q != p ensures o.s.procs[q].Some? <==> s.procs[q].Some? {
      assert View(o.s)[q] == View(s)[q];
    }
  }

  /** From every state in order with two free process slots there is, memory permitting, a run in which a
      program is started and forks, and the child stores to any byte of the code: then the child reads
      what it stored, and the parent the byte it was loaded with. */
  lemma ForkRun(s: State, p: nat, c: nat, code: seq<Page>, lay: Layout, kmap: nat, need: nat, va: nat, b: Byte)
    returns (states: seq<State>, steps: seq<Step>, labels: seq<Label>)
    requires Inv(s) && p < |s.procs| && s.procs[p].None? && c < |s.procs| && s.procs[c].None? && p != c
    requires PageLayout(lay) && |code| * PGSIZE + PGSIZE <= lay.stack && va < |code| * PGSIZE
    requires ForkRunPages(code, kmap, need) <= s.ph.freePages
    ensures Run(states, steps, labels) && states[0] == s && va / PGSIZE < |code|
    ensures labels == [Spawned(p, FirstSpace(code, lay)), Forked(p, c), Silent, Stored(c, va, b)]
    ensures var t := states[|steps|];
      && Live(t, p) && CowRead(t, p, va) == Some(code[va / PGSIZE][va % PGSIZE])
      && Live(t, c) && CowRead(t, c, va) == Some(b)
  {
    hide Inv, Spawn, Fork, Fault, Write, PreparePages, StartChunks, TotalChunks, FirstSpace, CowRead, View, RegionFind;
    SpawnsFirst(s, p, code, lay, kmap, need);
    var s1 := Spawn(s, p, code, lay, kmap, need).s;
    StartedByte(s1, p, code, lay, need, va);
    ForkThenStore(s1, p, c, kmap, need, need, need, va, b);
    ForkIff(s1, p, c, kmap, need, need);
    var s2 := Fork(s1, p, c, kmap, need, need).s;
    var s3 := Fault(s2, c, va, need).s;
    var s4 := Write(s3, c, va, b).s;
    states := [s, s1, s2, s3, s4];
    steps := [DoSpawn(p, code, lay, kmap, need), DoFork(p, c, kmap, need, need),
              DoFault(c, va, need), DoWrite(c, va, b)];
    labels := [Spawned(p, FirstSpace(code, lay)), Forked(p, c), Silent, Stored(c, va, b)];
  }
}
