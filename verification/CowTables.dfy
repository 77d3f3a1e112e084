/** The copy-on-write machine and the four-level tree side by side: a rebuild takes as many table pages as
    the regions have table paths, and the sweep over the tree drops the references that the machine's
    reaping drops. */
module CowTables {
  import opened Types
  import opened CoreMap
  import opened CowSpace
  import opened CowMachine
  import opened CowFork
  import opened CowProgress
  import opened PageTable
  import opened TablePages
  import opened Teardown

  // ------------------------------------------------- the pages a tree maps, by region

  ghost function PageOf(e: Option<Entry>): multiset<nat>
  {
    if e.Some? then multiset{e.value.page} else multiset{}
  }

  /** The pages the regions ask for from `va` up to 4 GB. */
  ghost function AskedFrom(regions: seq<Region>, va: nat): multiset<nat>
    decreases SZ_4G - va
  {
    if va >= SZ_4G then multiset{} else PageOf(Expected(regions, va)) + AskedFrom(regions, va + PGSIZE)
  }

  lemma {:induction false} MappedIsAsked(tables: Tables, node: Nodes, regions: seq<Region>, va: nat)
    requires forall vb: nat | va <= vb < SZ_4G :: Lookup(tables, node, vb) == Expected(regions, vb)
    ensures multiset(MappedFrom(tables, node, va)) == AskedFrom(regions, va)
    decreases SZ_4G - va
  {
    hide Lookup, Expected;
    if va < SZ_4G {
      MappedIsAsked(tables, node, regions, va + PGSIZE);
      var head := if Lookup(tables, node, va).Some? then [Lookup(tables, node, va).value.page] else [];
      var tail := MappedFrom(tables, node, va + PGSIZE);
      assert multiset(head + tail) == multiset(head) + multiset(tail);
    }
  }

  lemma {:induction false} AskedNothing(va: nat)
    ensures AskedFrom([], va) == multiset{}
    decreases SZ_4G - va
  {
    if va < SZ_4G {
      AskedNothing(va + PGSIZE);
    }
  }

  lemma ExpectedOne(rg: Region, va: nat)
    ensures Expected([rg], va) == if PageIn(rg, va) then SlotEntry(rg, va) else None
  {
    assert [rg][..0] == [];
  }

  lemma LastAlone(regions: seq<Region>, va: nat)
    requires regions != [] && Disjoint(regions) && PageIn(regions[|regions| - 1], va)
    ensures Expected(regions[..|regions| - 1], va) == None
  {
    var n := |regions| - 1;
    forall r | 0 <= r < n ensures !PageIn(regions[..n][r], va) {
      assert Apart(regions[r], regions[n]);
    }
    ExpectedOut(regions[..n], va);
  }

  lemma ExpectedLast(regions: seq<Region>, va: nat)
    requires regions != [] && Disjoint(regions)
    ensures var n := |regions| - 1;
      PageOf(Expected(regions, va)) == PageOf(Expected(regions[..n], va)) + PageOf(Expected([regions[n]], va))
  {
    hide Disjoint;
    var n := |regions| - 1;
    ExpectedOne(regions[n], va);
    if PageIn(regions[n], va) {
      LastAlone(regions, va);
    }
  }

  /** With disjoint regions each page is asked for by one of them. */
  lemma {:induction false} AskedSplit(regions: seq<Region>, va: nat)
    requires regions != [] && Disjoint(regions)
    ensures var n := |regions| - 1;
      AskedFrom(regions, va) == AskedFrom(regions[..n], va) + AskedFrom([regions[n]], va)
    decreases SZ_4G - va
  {
    hide Disjoint, Expected, PageOf;
    if va < SZ_4G {
      var n := |regions| - 1;
      AskedSplit(regions, va + PGSIZE);
      ExpectedLast(regions, va);
      RegroupPairs(PageOf(Expected(regions[..n], va)), AskedFrom(regions[..n], va + PGSIZE),
                   PageOf(Expected([regions[n]], va)), AskedFrom([regions[n]], va + PGSIZE));
    }
  }

  /** Nothing is asked for where the region has no page. */
  lemma {:induction false} AskedSkip(rg: Region, va: nat, vb: nat)
    requires va <= vb && va % PGSIZE == 0 && vb % PGSIZE == 0
    requires forall a: nat | va <= a < vb :: !PageIn(rg, a)
    ensures AskedFrom([rg], va) == AskedFrom([rg], vb)
    decreases vb - va
  {
    hide Expected;
    if va < vb && va < SZ_4G {
      AskedSkip(rg, va + PGSIZE, vb);
      ExpectedOne(rg, va);
    }
  }

  lemma NamedFirst(slots: seq<Vpi>, k: nat, n: nat)
    requires k < n <= |slots|
    ensures Named(slots[k..n]) == One(slots[k]) + Named(slots[k + 1..n])
  {
    assert slots[k..n] == [slots[k]] + slots[k + 1..n];
    NamedAppend([slots[k]], slots[k + 1..n]);
    assert [slots[k]][..0] == [];
  }

  lemma NamedLast(slots: seq<Vpi>, n: nat)
    requires 0 < n <= |slots|
    ensures Named(slots[..n]) == Named(slots[..n - 1]) + One(slots[n - 1])
  {
    assert slots[..n][..n - 1] == slots[..n - 1];
  }

  /** The slots of the pages from the k-th on, counted from the bottom. */
  ghost function NamedAbove(rg: Region, k: nat): multiset<nat>
    requires k <= Backed(rg.size) <= |rg.slots|
  {
    if rg.down then Named(rg.slots[..Backed(rg.size) - k]) else Named(rg.slots[k..Backed(rg.size)])
  }

  lemma PageAsked(rg: Region, k: nat)
    requires RegionShape(rg) && 0 <= Bottom(rg) && k < Backed(rg.size)
    ensures PageOf(Expected([rg], Bottom(rg) + k * PGSIZE)) + NamedAbove(rg, k + 1) == NamedAbove(rg, k)
  {
    hide Named;
    var va, n := Bottom(rg) + k * PGSIZE, Backed(rg.size);
    SlotOfPage(rg, k, va);
    var j := if rg.down then n - 1 - k else k;
    assert SlotShape(rg.slots[j], true);
    if rg.down {
      NamedLast(rg.slots, n - k);
    } else {
      NamedFirst(rg.slots, k, n);
    }
  }

  lemma ShapeSlots(rg: Region)
    requires RegionShape(rg)
    ensures Backed(rg.size) <= |rg.slots| && forall k | Backed(rg.size) <= k < |rg.slots| :: !rg.slots[k].used
  {
    forall k | Backed(rg.size) <= k < |rg.slots| ensures !rg.slots[k].used {
      assert SlotShape(rg.slots[k], false);
    }
  }

  lemma AskedAbove(rg: Region)
    requires RegionShape(rg) && 0 <= Bottom(rg) && Bottom(rg) + Backed(rg.size) * PGSIZE <= SZ_4G
    ensures AskedFrom([rg], Bottom(rg) + Backed(rg.size) * PGSIZE) == multiset{}
    ensures Backed(rg.size) <= |rg.slots| && NamedAbove(rg, Backed(rg.size)) == multiset{}
  {
    RegionFacts(rg);
    AskedSkip(rg, Bottom(rg) + Backed(rg.size) * PGSIZE, SZ_4G);
    assert rg.slots[Backed(rg.size)..Backed(rg.size)] == [] && rg.slots[..0] == [];
  }

  lemma {:induction false} AskedInside(rg: Region, k: nat)
    requires RegionShape(rg) && 0 <= Bottom(rg) && k <= Backed(rg.size)
    requires Bottom(rg) + Backed(rg.size) * PGSIZE <= SZ_4G
    ensures AskedFrom([rg], Bottom(rg) + k * PGSIZE) == NamedAbove(rg, k)
    decreases Backed(rg.size) - k
  {
    hide RegionShape, Expected, Named;
    ShapeSlots(rg);
    if k < Backed(rg.size) {
      AskedInside(rg, k + 1);
      PageAsked(rg, k);
    } else {
      AskedAbove(rg);
    }
  }

  /** A region asks for exactly the pages its slots name. */
  lemma AskedByRegion(rg: Region)
    requires RegionShape(rg) && 0 <= Bottom(rg) && Bottom(rg) + Backed(rg.size) * PGSIZE <= SZ_4G
    ensures AskedFrom([rg], 0) == Named(rg.slots)
  {
    hide RegionShape, Named, AskedFrom, Backed;
    RegionFacts(rg);
    ShapeSlots(rg);
    AskedSkip(rg, 0, Bottom(rg));
    AskedInside(rg, 0);
    var n := Backed(rg.size);
    assert rg.slots[0..n] == rg.slots[..n];
    NamedPrefix(rg.slots, n);
  }

  ghost predicate Low(regions: seq<Region>)
  {
    forall r | 0 <= r < |regions| :: Bottom(regions[r]) + Backed(regions[r].size) * PGSIZE <= SZ_4G
  }

  lemma {:induction false} AskedByAll(regions: seq<Region>)
    requires InUserRange(regions) && Disjoint(regions) && Low(regions)
    ensures AskedFrom(regions, 0) == NamedAll(regions)
  {
    hide RegionShape, Named, Expected, Apart;
    if regions == [] {
      AskedNothing(0);
    } else {
      var n := |regions| - 1;
      AskedSplit(regions, 0);
      AskedByAll(regions[..n]);
      AskedByRegion(regions[n]);
    }
  }

  lemma {:induction false} MappedIsNamed(regions: seq<Region>)
    requires forall r | 0 <= r < |regions| :: RegionShape(regions[r])
    ensures multiset(MappedPages(InstallAll(regions))) == NamedAll(regions)
  {
    hide RegionShape, Named, PtePages;
    if regions != [] {
      var n := |regions| - 1;
      MappedIsNamed(regions[..n]);
      InstallNames(regions[n]);
      assert InstallAll(regions)[..n] == InstallAll(regions[..n]);
      var a, b := MappedPages(InstallAll(regions[..n])), PtePages(Install(regions[n]).ptes);
      assert multiset(a + b) == multiset(a) + multiset(b);
    }
  }

  /** The sweep over a tree that translates as the regions say meets every page of every slot, as often as
      slots name it: the pages the machine's own table maps. */
  lemma SweptPages(tables: Tables, node: Nodes, regions: seq<Region>)
    requires InUserRange(regions) && Disjoint(regions) && Low(regions)
    requires forall va: nat | va < SZ_4G :: Lookup(tables, node, va) == Expected(regions, va)
    ensures multiset(MappedFrom(tables, node, 0)) == NamedAll(regions) == multiset(MappedPages(InstallAll(regions)))
  {
    hide Lookup, Expected, NamedAll, RegionShape, Disjoint, MappedPages;
    MappedIsAsked(tables, node, regions, 0);
    AskedByAll(regions);
    MappedIsNamed(regions);
  }

  // ----------------------------------------------------- the same process twice

  /** The tree holds the table pages of the space, those of the user half apart. */
  ghost predicate TreeOf(tables: Tables, node: Nodes, root: nat, sp: Space)
  {
    && Tree(tables, node) && node[[]] == root
    && multiset(tables.Keys) == multiset(sp.kernTables) + multiset(sp.userTables)
    && |UserPaths(node)| == |sp.userTables|
  }

  /** The claims of a space beside the pages of its tree. */
  ghost function BesideTree(sp: Space): multiset<nat>
  {
    multiset{sp.kstack} + RegionsClaims(sp.regions)
  }

  lemma TreeClaims(tables: Tables, node: Nodes, root: nat, sp: Space, rest: multiset<nat>)
    requires TreeOf(tables, node, root, sp)
    ensures rest + Claims(Some(sp)) == rest + BesideTree(sp) + multiset(tables.Keys)
  {
    hide Tree, RegionsClaims;
  }

  /** Pages that only the space may hold are nobody else's. */
  lemma TreeSole(tables: Tables, node: Nodes, root: nat, sp: Space, rest: multiset<nat>)
    requires TreeOf(tables, node, root, sp) && Exclusive(sp, rest + Claims(Some(sp)))
    ensures Sole(tables, rest + BesideTree(sp))
  {
    hide Tree, RegionsClaims, Claims, BesideTree;
    TreeClaims(tables, node, root, sp, rest);
    forall t | t in tables ensures t !in rest + BesideTree(sp) {
      assert t in multiset(tables.Keys);
      assert t in multiset(sp.kernTables) + multiset(sp.userTables);
      assert t in sp.kernTables || t in sp.userTables;
      assert Owns(sp, t);
      assert (rest + BesideTree(sp) + multiset(tables.Keys))[t] == 1;
    }
  }

  /** vspaceinvalidate on the tree of a process does what the machine's rebuild does, with one page for each
      table path of the regions: it succeeds in the same cases, leaves as many pages free and has as many
      user tables. */
  method RebuildTree(v: Vspace, regions: seq<Region>, ghost sp: Space, ghost rest: multiset<nat>)
    returns (r: MapResult)
    requires v.mem.Shape() && TreeOf(v.tables, v.node, v.root, sp) && regions == sp.regions && InUserRange(regions)
    requires Ledger(v.mem.Value(), rest + Claims(Some(sp))) && Exclusive(sp, rest + Claims(Some(sp)))
    modifies v, v.mem, v.mem.coreMap, v.mem.data
    ensures |old(v.mem.Value()).core| == |old(v.mem.Value()).data|
    ensures InRange(sp.userTables, |old(v.mem.Value()).core|)
    ensures var m := Rebuild(old(v.mem.Value()), sp, |TablePaths(regions)|);
      && (r.Mapped? <==> m.Some?)
      && (m.Some? ==>
        && v.mem.freePages == m.value.0.freePages && |UserPaths(v.node)| == |m.value.1.userTables|
        && v.Valid(rest + BesideTree(sp))
        && forall va | 0 <= va < SZ_512G :: v.At(va) == Expected(regions, va))
      && (m.Some? && KernelLayout(regions) ==> SweepEnds(v.node))
  {
    hide Ledger, Tree, Claims, BesideTree, Exclusive, TablePaths, UserPaths, Expected, Lookup, Rebuild, Disjoint,
      KernelLayout, SweepEnds, Reaches, Cut;
    TreeClaims(v.tables, v.node, v.root, sp, rest);
    TreeSole(v.tables, v.node, v.root, sp, rest);
    RebuildIff(v.mem.Value(), sp, |TablePaths(regions)|, rest);
    r := v.Invalidate(regions, rest + BesideTree(sp));
    if r.Mapped? && KernelLayout(regions) {
      forall i, va: nat | 0 <= i < |regions| && PageIn(regions[i], va) ensures Lookup(v.tables, v.node, va).Some? {
        ExpectedIn(regions, i, va);
      }
      KernelLayoutSweeps(old(v.node), v.tables, v.node, regions);
    }
  }

  lemma SweepClaims(tables: Tables, node: Nodes, sp: Space, rest: multiset<nat>)
    requires SpaceShape(sp) && InUserRange(sp.regions) && Low(sp.regions)
    requires multiset(tables.Keys) == multiset(sp.kernTables) + multiset(sp.userTables)
    requires forall va: nat | va < SZ_4G :: Lookup(tables, node, va) == Expected(sp.regions, va)
    ensures rest + Claims(Some(sp)) == rest + multiset(ChunkPages(sp.regions)) + multiset{sp.kstack}
      + multiset(tables.Keys) + multiset(MappedFrom(tables, node, 0))
  {
    hide RegionShape, ChunkPages, MappedPages, MappedFrom, Lookup, Expected, RegionsClaims, Disjoint, NamedAll;
    SweptPages(tables, node, sp.regions);
    MappedNames(sp.regions);
  }

  /** freevm on the tree of a process drops exactly the references the machine's reaping drops for it: what
      remains of the claims of the process are its descriptor chunks and its kernel stack. */
  method FreeTree(v: Vspace, ghost sp: Space, ghost rest: multiset<nat>)
    requires v.mem.Shape() && TreeOf(v.tables, v.node, v.root, sp) && SpaceShape(sp) && SweepEnds(v.node)
    requires InUserRange(sp.regions) && Low(sp.regions)
    requires forall va: nat | va < SZ_4G :: v.At(va) == Expected(sp.regions, va)
    requires Ledger(v.mem.Value(), rest + Claims(Some(sp)))
    modifies v`tables, v.mem, v.mem.coreMap, v.mem.data
    ensures v.mem.Shape() && v.tables == map[]
    ensures Ledger(v.mem.Value(), rest + multiset(ChunkPages(sp.regions)) + multiset{sp.kstack})
  {
    hide Ledger, Tree, Claims, SpaceShape, SweepEnds, InUserRange, Lookup, Expected, MappedFrom, ChunkPages;
    SweepClaims(v.tables, v.node, sp, rest);
    FreeVm(v, rest + multiset(ChunkPages(sp.regions)) + multiset{sp.kstack});
  }

  lemma BackedPages(n: nat)
    ensures Backed(n * PGSIZE) == n
  {
  }

  /** A loaded program with any heap and stack that fit meets what the tree and the sweep ask for. */
  lemma LoadedSweeps(s: State, p: nat, code: nat, heap: nat, k: nat, need: nat)
    requires Loaded(s, p, code, heap, k, need) && 0 < k <= MAXSTACK && Roomy(code, heap)
    ensures var regions := s.procs[p].value.regions;
      InUserRange(regions) && Disjoint(regions) && Low(regions) && KernelLayout(regions)
  {
    hide Inv, RegionShape, Disjoint, Backed;
    InvDisjoint(s, p);
    BackedPages(code);
    BackedPages(k);
    var regions := s.procs[p].value.regions;
    assert PageIn(regions[VR_USTACK], 2 * SZ_1G - PGSIZE);
  }
}
