/** find_next_possible_page, deallocuvm and freevm: the sweep that drops the user pages of a
    dead process, and exactly when it ends. */
module Teardown {
  import opened Types
  import opened CoreMap
  import opened CowSpace
  import opened CowMachine
  import opened PageTable
  import opened TablePages

  // -------------------------------------------------------------- the address arithmetic

  /** `hi * unit | d * (unit / 512)` for d <= 512, as PGADDR computes it: a full field sets the
      low bit of the next one instead of carrying into it. */
  function OrField(hi: nat, d: nat, unit: nat): nat
    requires d <= FANOUT
  {
    if d < FANOUT then hi * unit + d * (unit / FANOUT)
    else (if hi % 2 == 1 then hi else hi + 1) * unit
  }

  /** The same fact about machine words: the carry out of the page-directory field is lost. */
  lemma CarryLost(l3: bv64)
    requires l3 < 512
    ensures ((l3 << 30) | (512 << 21)) == if l3 & 1 == 1 then l3 << 30 else (l3 + 1) << 30
  {
  }

  /** find_next_possible_page: one page before the next place a table could be. */
  function FindNext(node: Nodes, va: nat): int
  {
    var p := PathOf(va);
    if p[..1] !in node then (p[0] + 1) * SZ_512G - PGSIZE
    else if p[..2] !in node then OrField(p[0], p[1] + 1, SZ_512G) - PGSIZE
    else OrField(p[0] * FANOUT + p[1], p[2] + 1, SZ_1G) - PGSIZE
  }

  function NextAddr(node: Nodes, va: nat): int
  {
    (if PathOf(va) in node then va else FindNext(node, va)) + PGSIZE
  }

  /** A directory in an odd gigabyte has a page table in its last slot. */
  ghost predicate SweepEnds(node: Nodes)
  {
    forall l | l == 1 || l == 3 :: [0, l] in node ==> [0, l, FANOUT - 1] in node
  }

  lemma LowIndices(va: nat)
    requires va < SZ_4G
    ensures Pml4Index(va) == 0 && PdptIndex(va) == va / SZ_1G < 4
    ensures PdIndex(va) == va % SZ_1G / SZ_2M
    ensures PathOf(va)[..1] == [0] && PathOf(va)[..2] == [0, va / SZ_1G]
    ensures PathOf(va) == [0, va / SZ_1G, va % SZ_1G / SZ_2M]
  {
  }

  /** Where the sweep goes from `va`, in plain terms. */
  lemma NextCases(node: Nodes, va: nat)
    requires va < SZ_4G
    ensures var g, d := va / SZ_1G, va % SZ_1G / SZ_2M;
      && d < FANOUT
      && NextAddr(node, va) ==
         if [0, g, d] in node then va + PGSIZE
         else if [0] !in node then SZ_512G
         else if [0, g] !in node then (g + 1) * SZ_1G
         else if d < FANOUT - 1 then g * SZ_1G + (d + 1) * SZ_2M
         else if g % 2 == 1 then g * SZ_1G
         else (g + 1) * SZ_1G
  {
    LowIndices(va);
  }

  ghost predicate Closed(node: Nodes)
  {
    forall q | q in node && q != [] :: q[..|q| - 1] in node
  }

  lemma TreeClosed(tables: Tables, node: Nodes)
    requires Tree(tables, node)
    ensures Closed(node)
  {
  }

  lemma PathClosed(node: Nodes, g: nat, d: nat)
    requires Closed(node)
    ensures [0, g, d] in node ==> [0, g] in node
    ensures [0, g] in node ==> [0] in node
  {
    assert [0, g, d][..2] == [0, g] && [0, g][..1] == [0];
  }

  lemma SplitAddress(va: nat)
    ensures var g, d := va / SZ_1G, va % SZ_1G / SZ_2M;
      g * SZ_1G + d * SZ_2M <= va < g * SZ_1G + (d + 1) * SZ_2M <= (g + 1) * SZ_1G && d < FANOUT
  {
  }

  /** Addresses between `va` and the end of its gigabyte, and of its 2 MB. */
  lemma SameTable(va: nat, vb: nat)
    requires va <= vb
    ensures var g, d := va / SZ_1G, va % SZ_1G / SZ_2M;
      && (vb < (g + 1) * SZ_1G ==> vb / SZ_1G == g)
      && (vb < g * SZ_1G + (d + 1) * SZ_2M ==> vb / SZ_1G == g && vb % SZ_1G / SZ_2M == d)
  {
  }

  /** Under the condition the sweep moves forward. */
  lemma NextMovesOn(node: Nodes, va: nat)
    requires SweepEnds(node) && va < SZ_4G && va % PGSIZE == 0
    ensures NextAddr(node, va) > va && NextAddr(node, va) % PGSIZE == 0
  {
    hide NextAddr;
    NextCases(node, va);
    SplitAddress(va);
  }

  /** Under the condition the sweep moves forward and jumps over pages without a table only. */
  lemma NextSkipsNothing(node: Nodes, va: nat, vb: nat)
    requires Closed(node) && SweepEnds(node) && va < SZ_4G && va % PGSIZE == 0
    ensures NextAddr(node, va) > va && NextAddr(node, va) % PGSIZE == 0
    ensures va + PGSIZE <= vb < NextAddr(node, va) && vb < SZ_4G ==> PathOf(vb) !in node
  {
    NextMovesOn(node, va);
    hide NextAddr, Closed, PathOf;
    if va + PGSIZE <= vb < NextAddr(node, va) && vb < SZ_4G {
      var g, d := va / SZ_1G, va % SZ_1G / SZ_2M;
      var h, e := vb / SZ_1G, vb % SZ_1G / SZ_2M;
      NextCases(node, va);
      SameTable(va, vb);
      LowIndices(vb);
      PathClosed(node, h, e);
    }
  }

  ghost function Visit(node: Nodes, va: nat, n: nat): int
  {
    if n == 0 then va
    else
      var b := Visit(node, va, n - 1);
      if 0 <= b < SZ_4G then NextAddr(node, b) else b
  }

  lemma TurnsBackStep(node: Nodes, l: nat, a: nat)
    requires (l == 1 || l == 3) && a < (l + 1) * SZ_1G && a % PGSIZE == 0
    requires [0] in node && [0, l] in node && [0, l, FANOUT - 1] !in node
    ensures 0 <= NextAddr(node, a) < (l + 1) * SZ_1G && NextAddr(node, a) % PGSIZE == 0
  {
    hide NextAddr;
    NextCases(node, a);
    SplitAddress(a);
    var g, d := a / SZ_1G, a % SZ_1G / SZ_2M;
    if g < l {
      assert (g + 1) * SZ_1G <= l * SZ_1G;
    }
  }

  /** In a gigabyte with the defect the sweep turns back before its end, for ever. */
  lemma {:induction false} SweepTurnsBack(node: Nodes, l: nat, n: nat)
    requires l == 1 || l == 3
    requires [0] in node && [0, l] in node && [0, l, FANOUT - 1] !in node
    ensures 0 <= Visit(node, 0, n) < (l + 1) * SZ_1G && Visit(node, 0, n) % PGSIZE == 0
  {
    hide NextAddr;
    if n > 0 {
      SweepTurnsBack(node, l, n - 1);
      var a := Visit(node, 0, n - 1);
      TurnsBackStep(node, l, a);
    }
  }

  lemma {:induction false} SweepAdvances(node: Nodes, n: nat)
    requires Closed(node) && SweepEnds(node)
    ensures Visit(node, 0, n) % PGSIZE == 0 && Visit(node, 0, n) >= 0
    ensures Visit(node, 0, n) >= SZ_4G || Visit(node, 0, n) >= n * PGSIZE
  {
    hide NextAddr, SweepEnds, Closed;
    if n > 0 {
      SweepAdvances(node, n - 1);
      var a := Visit(node, 0, n - 1);
      if a < SZ_4G {
        NextSkipsNothing(node, a, a);
      }
    }
  }

  /** The 0 .. 4 GB sweep ends if and only if no odd gigabyte has a directory whose last entry
      is missing. */
  lemma SweepEndsIff(node: Nodes)
    requires Closed(node)
    ensures (exists n :: Visit(node, 0, n) >= SZ_4G) <==> SweepEnds(node)
  {
    if SweepEnds(node) {
      SweepAdvances(node, SZ_4G / PGSIZE);
      assert Visit(node, 0, SZ_4G / PGSIZE) >= SZ_4G;
    } else {
      var l :| (l == 1 || l == 3) && [0, l] in node && [0, l, FANOUT - 1] !in node;
      assert [0, l][..1] == [0];
      assert [0] in node;
      forall n ensures Visit(node, 0, n) < SZ_4G {
        SweepTurnsBack(node, l, n);
      }
    }
  }

  /** The layouts the kernel builds: everything below 2 GB, and the page just below 2 GB belongs to a
      region, the stack, if any page lies above 1 GB. */
  ghost predicate KernelLayout(regions: seq<Region>)
  {
    && (forall r, va: nat | 0 <= r < |regions| && PageIn(regions[r], va) :: va < 2 * SZ_1G)
    && ((exists r | 0 <= r < |regions| :: PageIn(regions[r], 2 * SZ_1G - PGSIZE))
        || forall r, va: nat | 0 <= r < |regions| && PageIn(regions[r], va) :: va < SZ_1G)
  }

  lemma TopPage()
    ensures PathOf(2 * SZ_1G - PGSIZE) == [0, 1, FANOUT - 1]
  {
    LowIndices(2 * SZ_1G - PGSIZE);
  }

  /** After a rebuild of such a layout the sweep will end. */
  lemma KernelLayoutSweeps(node0: Nodes, tables: Tables, node: Nodes, regions: seq<Region>)
    requires KernelLayout(regions) && Reaches(Cut(node0), node, regions)
    requires forall r, va: nat | 0 <= r < |regions| && PageIn(regions[r], va) :: Lookup(tables, node, va).Some?
    ensures SweepEnds(node)
  {
    hide PathOf;
    forall l | (l == 1 || l == 3) && [0, l] in node ensures [0, l, FANOUT - 1] in node {
      assert [0, l] !in Cut(node0);
      var r, va :| 0 <= r < |regions| && PageIn(regions[r], va) && OnPath([0, l], va);
      LowIndices(va);
      var top :| 0 <= top < |regions| && PageIn(regions[top], 2 * SZ_1G - PGSIZE);
      TopPage();
      assert Lookup(tables, node, 2 * SZ_1G - PGSIZE).Some?;
    }
  }

  // ----------------------------------------------------------------- the in-place code

  /** The pages the table maps from `va` to 4 GB, in address order. */
  ghost function MappedFrom(tables: Tables, node: Nodes, va: nat): seq<nat>
    decreases SZ_4G - va
  {
    if va >= SZ_4G then []
    else (if Lookup(tables, node, va).Some? then [Lookup(tables, node, va).value.page] else [])
         + MappedFrom(tables, node, va + PGSIZE)
  }

  lemma MappedPastEnd(tables: Tables, node: Nodes, a: nat)
    requires a >= SZ_4G
    ensures MappedFrom(tables, node, a) == []
  {
  }

  lemma {:induction false} MappedSkip(tables: Tables, node: Nodes, a: nat, b: nat)
    requires a <= b && a % PGSIZE == 0 && b % PGSIZE == 0
    requires forall va: nat | a <= va < b && va < SZ_4G :: Lookup(tables, node, va) == None
    ensures MappedFrom(tables, node, a) == MappedFrom(tables, node, b)
    decreases b - a
  {
    if a < b && a < SZ_4G {
      MappedSkip(tables, node, a + PGSIZE, b);
    }
  }

  lemma {:induction false} MappedSame(tables: Tables, tables': Tables, node: Nodes, a: nat)
    requires forall va: nat | a <= va < SZ_4G :: Lookup(tables', node, va) == Lookup(tables, node, va)
    ensures MappedFrom(tables', node, a) == MappedFrom(tables, node, a)
    decreases SZ_4G - a
  {
    if a < SZ_4G {
      MappedSame(tables, tables', node, a + PGSIZE);
    }
  }

  lemma WalkFacts(tables: Tables, node: Nodes, va: nat)
    requires Tree(tables, node)
    ensures var p := PathOf(va);
      && (p in node ==> p[..2] in node) && (p[..2] in node ==> p[..1] in node)
      && [] in node && node[[]] in tables && |tables[node[[]]]| == FANOUT
      && var e0 := tables[node[[]]][p[0]];
      && (e0.present <==> p[..1] in node) && (e0.present ==> e0.page == node[p[..1]])
      && (p[..1] in node ==>
        && node[p[..1]] in tables && |tables[node[p[..1]]]| == FANOUT
        && var e1 := tables[node[p[..1]]][p[1]];
        (e1.present <==> p[..2] in node) && (e1.present ==> e1.page == node[p[..2]]))
      && (p[..2] in node ==>
        && node[p[..2]] in tables && |tables[node[p[..2]]]| == FANOUT
        && var e2 := tables[node[p[..2]]][p[2]];
        (e2.present <==> p in node) && (e2.present ==> e2.page == node[p]))
  {
    var p := PathOf(va);
    assert p[..1] == [] + [p[0]] && p[..2] == p[..1] + [p[1]] && p == p[..2] + [p[2]];
    TreeFacts(tables, node, []);
    assert LinkOk(tables, node, [], p[0]);
    TreeClosed(tables, node);
    assert p[..2] == p[..|p| - 1] && p[..2][..1] == p[..1];
    if p[..1] in node {
      TreeFacts(tables, node, p[..1]);
      assert LinkOk(tables, node, p[..1], p[1]);
    }
    if p[..2] in node {
      TreeFacts(tables, node, p[..2]);
      assert LinkOk(tables, node, p[..2], p[2]);
    }
  }

  /** walkpml4 without alloc: the page table of `va`, or nothing. */
  method Find(v: Vspace, va: nat) returns (table: Option<nat>)
    requires Tree(v.tables, v.node) && v.node[[]] == v.root
    ensures table == if PathOf(va) in v.node then Some(v.node[PathOf(va)]) else None
  {
    ghost var p := PathOf(va);
    WalkFacts(v.tables, v.node, va);
    hide Tree;
    var e := v.tables[v.root][Pml4Index(va)];
    if !e.present { return None; }
    e := v.tables[e.page][PdptIndex(va)];
    if !e.present { return None; }
    e := v.tables[e.page][PdIndex(va)];
    return if e.present then Some(e.page) else None;
  }

  /** find_next_possible_page; it panics when no level is missing. */
  method FindNextPage(v: Vspace, va: nat) returns (r: int)
    requires Tree(v.tables, v.node) && v.node[[]] == v.root && PathOf(va) !in v.node
    ensures r == FindNext(v.node, va)
  {
    WalkFacts(v.tables, v.node, va);
    hide Tree;
    var e := v.tables[v.root][Pml4Index(va)];
    if !e.present {
      return (Pml4Index(va) + 1) * SZ_512G - PGSIZE;
    }
    e := v.tables[e.page][PdptIndex(va)];
    if !e.present {
      return OrField(Pml4Index(va), PdptIndex(va) + 1, SZ_512G) - PGSIZE;
    }
    return OrField(Pml4Index(va) * FANOUT + PdptIndex(va), PdIndex(va) + 1, SZ_1G) - PGSIZE;
  }

  lemma SweepStep(tables: Tables, node: Nodes, a: nat)
    requires Tree(tables, node) && Closed(node) && SweepEnds(node) && a < SZ_4G && a % PGSIZE == 0
    ensures NextAddr(node, a) > a && NextAddr(node, a) % PGSIZE == 0
    ensures NextAddr(node, a) == (if PathOf(a) in node then a else FindNext(node, a)) + PGSIZE
    ensures PathOf(a) !in node ==>
      forall va: nat | a <= va < NextAddr(node, a) && va < SZ_4G :: Lookup(tables, node, va) == None
    ensures PathOf(a) in node ==>
      var t := node[PathOf(a)];
      && t in tables && |tables[t]| == FANOUT
      && (tables[t][PtIndex(a)].present ==> Lookup(tables, node, a) == Some(tables[t][PtIndex(a)]))
      && (!tables[t][PtIndex(a)].present ==> forall va: nat | a <= va < a + PGSIZE :: Lookup(tables, node, va) == None)
  {
    if PathOf(a) in node {
      TreeFacts(tables, node, PathOf(a));
    }
    hide Tree, PathOf, Closed, SweepEnds, FindNext;
    NextSkipsNothing(node, a, a);
    forall va: nat | a <= va < a + PGSIZE ensures PathOf(va) == PathOf(a) && PtIndex(va) == PtIndex(a) {
      SamePath(va, a);
    }
    forall va: nat | a + PGSIZE <= va < NextAddr(node, a) && va < SZ_4G ensures PathOf(va) !in node {
      NextSkipsNothing(node, a, va);
    }
  }

  lemma TakeFirst(m: multiset<nat>, pg: nat, tail: seq<nat>)
    ensures m + multiset([pg] + tail) - multiset{pg} == m + multiset(tail)
    ensures pg in m + multiset([pg] + tail)
  {
  }

  lemma SweepFree(tables: Tables, node: Nodes, a: nat, ph: Phys, rest: multiset<nat>)
    requires Tree(tables, node) && a < SZ_4G && a % PGSIZE == 0 && Lookup(tables, node, a).Some?
    requires Ledger(ph, rest + multiset(tables.Keys) + multiset(MappedFrom(tables, node, a)))
    ensures PathOf(a) in node && node[PathOf(a)] in tables && |tables[node[PathOf(a)]]| == FANOUT
    ensures var t := node[PathOf(a)];
      var tables' := tables[t := tables[t][PtIndex(a) := ZERO]];
      var pg := tables[t][PtIndex(a)].page;
      && pg < |ph.core| == |ph.data| && Tree(tables', node) && tables'.Keys == tables.Keys
      && Ledger(Kfree(ph, pg), rest + multiset(tables'.Keys) + multiset(MappedFrom(tables', node, a + PGSIZE)))
      && forall va: nat | va < FANOUT * SZ_512G ::
           Lookup(tables', node, va) == (if a <= va < a + PGSIZE then None else Lookup(tables, node, va))
  {
    hide Ledger, Kfree;
    SetLeaf(tables, node, a, ZERO);
    var t := node[PathOf(a)];
    var tables' := tables[t := tables[t][PtIndex(a) := ZERO]];
    var pg := tables[t][PtIndex(a)].page;
    forall va: nat | va < FANOUT * SZ_512G
      ensures Lookup(tables', node, va) == if a <= va < a + PGSIZE then None else Lookup(tables, node, va)
    {
      SamePage(va, a);
    }
    hide Tree, Lookup;
    MappedSame(tables, tables', node, a + PGSIZE);
    var tail := MappedFrom(tables, node, a + PGSIZE);
    var m := rest + multiset(tables.Keys);
    assert MappedFrom(tables, node, a) == [pg] + tail;
    TakeFirst(m, pg, tail);
    KfreeLedger(ph, m + multiset([pg] + tail), pg);
    LedgerShape(ph, m + multiset([pg] + tail));
    LedgerBound(ph, m + multiset([pg] + tail), pg);
    assert tables'.Keys == tables.Keys;
  }

  /** The tree, the memory, and one claim a mapped page from `va` on. */
  ghost predicate Sweeping(v: Vspace, va: nat, rest: multiset<nat>)
    reads v, v.mem, v.mem.coreMap, v.mem.data
  {
    && v.mem.Shape() && Tree(v.tables, v.node) && v.node[[]] == v.root
    && Ledger(v.mem.Value(), rest + multiset(v.tables.Keys) + multiset(MappedFrom(v.tables, v.node, va)))
  }

  /** One turn of the sweep. */
  method SweepOne(v: Vspace, a: nat, ghost rest: multiset<nat>) returns (next: nat)
    requires Sweeping(v, a, rest) && SweepEnds(v.node) && a < SZ_4G && a % PGSIZE == 0
    modifies v`tables, v.mem, v.mem.coreMap, v.mem.data
    ensures Sweeping(v, next, rest) && next == NextAddr(v.node, a) && a < next && next % PGSIZE == 0
    ensures forall va: nat | a <= va < next && va < SZ_4G :: v.At(va) == None
    ensures forall va: nat | (va < a || next <= va || SZ_4G <= va) && va < FANOUT * SZ_512G :: v.At(va) == old(v.At(va))
  {
    hide Tree, Ledger, Lookup, NextAddr, PathOf, SweepEnds, Closed, FindNext, MappedFrom, PtIndex, Kfree;
    TreeClosed(v.tables, v.node);
    SweepStep(v.tables, v.node, a);
    var table := Find(v, a);
    if table.None? {
      MappedSkip(v.tables, v.node, a, NextAddr(v.node, a));
      var skip := FindNextPage(v, a);
      return skip + PGSIZE;
    }
    next := a + PGSIZE;
    if v.tables[table.value][PtIndex(a)].present {
      SweepFree(v.tables, v.node, a, v.mem.Value(), rest);
      v.mem.FreePage(v.tables[table.value][PtIndex(a)].page);
      v.tables := v.tables[table.value := v.tables[table.value][PtIndex(a) := ZERO]];
    } else {
      MappedSkip(v.tables, v.node, a, a + PGSIZE);
    }
  }

  /** deallocuvm over 0 .. 4 GB: each mapped page loses exactly one reference, no page is missed. */
  method DeallocUvm(v: Vspace, ghost rest: multiset<nat>)
    requires Sweeping(v, 0, rest) && SweepEnds(v.node)
    modifies v`tables, v.mem, v.mem.coreMap, v.mem.data
    ensures v.Valid(rest)
    ensures forall va: nat | va < SZ_4G :: v.At(va) == None
    ensures forall va: nat | SZ_4G <= va < FANOUT * SZ_512G :: v.At(va) == old(v.At(va))
  {
    hide Tree, Ledger, Lookup, NextAddr, SweepEnds, MappedFrom;
    var a := 0;
    while a < SZ_4G
      invariant 0 <= a && a % PGSIZE == 0 && Sweeping(v, a, rest)
      invariant forall va: nat | va < a && va < SZ_4G :: v.At(va) == None
      invariant forall va: nat | (a <= va || SZ_4G <= va) && va < FANOUT * SZ_512G :: v.At(va) == old(v.At(va))
      decreases SZ_4G - a
    {
      a := SweepOne(v, a, rest);
    }
    MappedPastEnd(v.tables, v.node, a);
    assert rest + multiset(v.tables.Keys) + multiset([]) == rest + multiset(v.tables.Keys);
  }

  lemma WholeTree(tables: Tables, node: Nodes)
    requires Tree(tables, node)
    ensures [] in node && PartOf(tables, tables, node, []) && tables - Below(node, []) == map[]
  {
  }

  /** freevm: the user pages, then every table page of the tree, user and kernel half, then the
      PML4.  Nothing of the tree is left and nothing was given back twice. */
  method FreeVm(v: Vspace, ghost rest: multiset<nat>)
    requires Sweeping(v, 0, rest) && SweepEnds(v.node)
    modifies v`tables, v.mem, v.mem.coreMap, v.mem.data
    ensures v.mem.Shape() && v.tables == map[] && Ledger(v.mem.Value(), rest)
  {
    hide Ledger, Tree, Below, BelowFirst, Lookup;
    DeallocUvm(v, rest);
    ghost var t0 := v.tables;
    WholeTree(t0, v.node);
    ScanStart(t0, v.node, []);
    var i := 0;
    while i < FANOUT
      invariant 0 <= i <= FANOUT && v.mem.Shape()
      invariant v.tables == t0 - BelowFirst(v.node, [], i)
      invariant Ledger(v.mem.Value(), rest + multiset(v.tables.Keys))
    {
      ScanStep(t0, t0, v.node, [], i);
      if v.tables[v.root][i].present {
        v.FreePdpt(v.tables[v.root][i].page, [] + [i], t0, rest);
      }
      i := i + 1;
    }
    ScanEnd(t0, t0, v.node, []);
    v.FreeTable(v.root, rest);
    assert rest + multiset(v.tables.Keys) == rest;
  }
}
