/** walkpml4, mappages, freevm_pgdir, freevm_pdpt and vspaceinvalidate in place, over table
    pages taken from the core map. */
module TablePages {
  import opened Types
  import opened CoreMap
  import opened CowSpace
  import opened CowMachine
  import opened PageTable

  datatype MapResult = Mapped | Remap | NoPage

  lemma KeysPlus(keys: set<nat>, pg: nat, rest: multiset<nat>)
    requires pg !in keys
    ensures rest + multiset(keys + {pg}) == rest + multiset(keys) + multiset{pg}
  {
  }

  lemma KeysMinus(keys: set<nat>, pg: nat, rest: multiset<nat>)
    requires pg in keys
    ensures rest + multiset(keys) - multiset{pg} == rest + multiset(keys - {pg})
    ensures pg in rest + multiset(keys)
  {
  }

  lemma MinusMinus(t: Tables, a: set<nat>, b: set<nat>)
    ensures t - a - b == t - (a + b)
  {
  }

  /** The indices of a path below node `p` on the way to `va`. */
  ghost predicate OnWay(node: Nodes, node': Nodes, va: nat)
  {
    && (forall q | q in node :: q in node' && node'[q] == node[q])
    && (forall q | q in node' && q !in node :: q == PathOf(va)[..1] || q == PathOf(va)[..2] || q == PathOf(va))
  }

  lemma UserIsEntryZero()
    ensures forall va | 0 <= va < FANOUT * SZ_512G :: Pml4Index(va) == 0 <==> va < SZ_512G
  {
  }

  // ------------------------------------------------------ what the regions ask for

  function EntryOf(v: Vpi): Entry
  {
    Entry(v.ppn, v.present, v.writable, true)
  }

  ghost predicate InUserRange(regions: seq<Region>)
  {
    forall r | 0 <= r < |regions| ::
      && RegionShape(regions[r]) && 0 <= Bottom(regions[r])
      && Bottom(regions[r]) + Backed(regions[r].size) * PGSIZE <= SZ_512G
  }

  ghost predicate PageIn(rg: Region, va: nat)
  {
    Bottom(rg) <= va < Bottom(rg) + Backed(rg.size) * PGSIZE
  }

  ghost function SlotEntry(rg: Region, va: nat): Option<Entry>
    requires PageIn(rg, va)
  {
    var k := if rg.down then (rg.base - 1 - va) / PGSIZE else (va - rg.base) / PGSIZE;
    if 0 <= k < |rg.slots| && rg.slots[k].present then Some(EntryOf(rg.slots[k])) else None
  }

  /** The entry the regions give the page of `va`, first region first. */
  ghost function Expected(regions: seq<Region>, va: nat): Option<Entry>
  {
    if regions == [] then None
    else
      var n := |regions| - 1;
      if PageIn(regions[n], va) then SlotEntry(regions[n], va) else Expected(regions[..n], va)
  }

  /** The first `k` pages of region `i` are mapped on top of the regions before it. */
  ghost function Partly(regions: seq<Region>, i: nat, k: nat, va: nat): Option<Entry>
    requires i < |regions|
  {
    if PageIn(regions[i], va) && va < Bottom(regions[i]) + k * PGSIZE then SlotEntry(regions[i], va)
    else Expected(regions[..i], va)
  }

  ghost predicate OnPath(q: Path, va: nat)
  {
    q == PathOf(va)[..1] || q == PathOf(va)[..2] || q == PathOf(va)
  }

  /** Every table path is an old one or leads to a page of some region. */
  ghost predicate Reaches(node: Nodes, node': Nodes, regions: seq<Region>)
  {
    && (forall q | q in node :: q in node')
    && forall q | q in node' && q !in node ::
         exists r, va | 0 <= r < |regions| && PageIn(regions[r], va) :: OnPath(q, va)
  }

  lemma RegionFacts(rg: Region)
    requires RegionShape(rg) && 0 <= Bottom(rg)
    ensures Bottom(rg) % PGSIZE == 0
    ensures Bottom(rg) == if rg.down then rg.base - rg.size else rg.base
    ensures forall k: nat ::
      Bottom(rg) + k * PGSIZE < (if rg.down then rg.base else rg.base + rg.size) <==> k < Backed(rg.size)
  {
  }

  /** Page k of a region, counted from the bottom, and its slot. */
  lemma PageOfRegion(rg: Region, k: nat)
    requires RegionShape(rg) && 0 <= Bottom(rg) && k < Backed(rg.size)
    ensures var va := Bottom(rg) + k * PGSIZE;
      && va >= 0 && va % PGSIZE == 0 && PageIn(rg, va) && (if rg.down then va < rg.base else rg.base <= va)
      && SlotIndex(rg.down, rg.base, va) == (if rg.down then Backed(rg.size) - 1 - k else k)
      && SlotIndex(rg.down, rg.base, va) < |rg.slots| && rg.slots[SlotIndex(rg.down, rg.base, va)].present
  {
  }

  lemma {:induction false} ExpectedOut(regions: seq<Region>, va: nat)
    requires forall r | 0 <= r < |regions| :: !PageIn(regions[r], va)
    ensures Expected(regions, va) == None
  {
    if regions != [] {
      ExpectedOut(regions[..|regions| - 1], va);
    }
  }

  lemma ExpectedNone(regions: seq<Region>)
    ensures forall va :: Expected(regions[..0], va) == None
  {
  }

  lemma PartlyNone(regions: seq<Region>, i: nat, va: nat)
    requires i < |regions|
    ensures Partly(regions, i, 0, va) == Expected(regions[..i], va)
  {
  }

  lemma PartlyAll(regions: seq<Region>, i: nat, va: nat)
    requires i < |regions|
    ensures Partly(regions, i, Backed(regions[i].size), va) == Expected(regions[..i + 1], va)
  {
    assert regions[..i + 1][..i] == regions[..i];
  }

  /** With disjoint regions the next page is not mapped yet. */
  lemma PartlyFree(regions: seq<Region>, i: nat, k: nat)
    requires InUserRange(regions) && i < |regions| && k < Backed(regions[i].size)
    ensures Disjoint(regions) ==> Partly(regions, i, k, Bottom(regions[i]) + k * PGSIZE) == None
  {
    hide RegionShape;
    if Disjoint(regions) {
      var va := Bottom(regions[i]) + k * PGSIZE;
      forall r | 0 <= r < i ensures !PageIn(regions[..i][r], va) {
        assert regions[..i][r] == regions[r];
      }
      ExpectedOut(regions[..i], va);
    }
  }

  /** The first k pages of region i had no entry when their turn came. */
  ghost predicate ClearPages(regions: seq<Region>, i: nat, k: nat)
    requires i < |regions|
  {
    forall j | 0 <= j < k && 0 <= Bottom(regions[i]) + j * PGSIZE ::
      Expected(regions[..i], Bottom(regions[i]) + j * PGSIZE) == None
  }

  lemma ClearStart(regions: seq<Region>, i: nat)
    requires i < |regions|
    ensures ClearPages(regions, i, 0)
  {
  }

  lemma ClearStep(regions: seq<Region>, i: nat, k: nat)
    requires i < |regions| && ClearPages(regions, i, k) && 0 <= Bottom(regions[i])
    requires Partly(regions, i, k, Bottom(regions[i]) + k * PGSIZE) == None
    ensures ClearPages(regions, i, k + 1)
  {
    hide Expected;
  }

  lemma SlotInstalled(rg: Region, va: nat)
    requires RegionShape(rg) && 0 <= Bottom(rg) && PageIn(rg, va)
    ensures Covers(Install(rg), va)
    ensures var k, m := SlotIndex(rg.down, rg.base, va), Install(rg);
      && k < |m.ptes| && m.ptes[k].present
      && SlotEntry(rg, va) == Some(Entry(m.ptes[k].ppn, true, m.ptes[k].writable, true))
  {
    var k := SlotIndex(rg.down, rg.base, va);
    assert SlotShape(rg.slots[k], true);
  }

  lemma {:induction false} ExpectedIn(regions: seq<Region>, r: nat, va: nat)
    requires InUserRange(regions) && r < |regions| && PageIn(regions[r], va)
    ensures Expected(regions, va).Some?
  {
    var n := |regions| - 1;
    if PageIn(regions[n], va) {
      SlotInstalled(regions[n], va);
    } else {
      ExpectedIn(regions[..n], r, va);
    }
  }

  /** A region whose pages were all clear has no page in common with those before it. */
  lemma ClearApart(regions: seq<Region>, i: nat)
    requires InUserRange(regions) && i < |regions| && ClearPages(regions, i, Backed(regions[i].size))
    ensures forall a | 0 <= a < i :: Apart(regions[a], regions[i])
  {
    hide Expected, RegionShape;
    forall a | 0 <= a < i ensures Apart(regions[a], regions[i]) {
      if !Apart(regions[a], regions[i]) {
        RegionFacts(regions[a]);
        RegionFacts(regions[i]);
        var low, high := Bottom(regions[i]), Bottom(regions[a]);
        var j := if low < high then (high - low) / PGSIZE else 0;
        assert 0 <= j < Backed(regions[i].size) && PageIn(regions[a], low + j * PGSIZE);
        assert regions[..i][a] == regions[a];
        ExpectedIn(regions[..i], a, low + j * PGSIZE);
      }
    }
  }

  lemma SamePage(va: nat, start: nat)
    requires start % PGSIZE == 0
    ensures va / PGSIZE == start / PGSIZE <==> start <= va < start + PGSIZE
  {
  }

  lemma SlotOfPage(rg: Region, k: nat, va: nat)
    requires RegionShape(rg) && 0 <= Bottom(rg) && k < Backed(rg.size)
    requires Bottom(rg) + k * PGSIZE <= va < Bottom(rg) + (k + 1) * PGSIZE
    ensures PageIn(rg, va)
    ensures var j := if rg.down then Backed(rg.size) - 1 - k else k;
      0 <= j < |rg.slots| && SlotEntry(rg, va) == Some(EntryOf(rg.slots[j]))
  {
  }

  lemma PartlyStep(regions: seq<Region>, i: nat, k: nat, va: nat)
    requires InUserRange(regions) && i < |regions| && k < Backed(regions[i].size)
    ensures var rg := regions[i];
      var start := Bottom(rg) + k * PGSIZE;
      && 0 <= start && (if rg.down then start < rg.base else rg.base <= start)
      && SlotIndex(rg.down, rg.base, start) < |rg.slots|
      && Partly(regions, i, k + 1, va) ==
         if va / PGSIZE == start / PGSIZE then Some(EntryOf(rg.slots[SlotIndex(rg.down, rg.base, start)]))
         else Partly(regions, i, k, va)
  {
    var rg := regions[i];
    PageOfRegion(rg, k);
    var start := Bottom(rg) + k * PGSIZE;
    SamePage(va, start);
    if start <= va < start + PGSIZE {
      assert PageIn(rg, va);
      SlotOfPage(rg, k, va);
    }
  }

  lemma InstallCovers(rg: Region, va: nat)
    requires RegionShape(rg)
    ensures Covers(Install(rg), va) <==> PageIn(rg, va)
  {
  }

  lemma {:induction false} OnlyRegion(regions: seq<Region>, r: nat, va: nat)
    requires Disjoint(regions) && r < |regions| && PageIn(regions[r], va)
    ensures Expected(regions, va) == SlotEntry(regions[r], va)
  {
    var n := |regions| - 1;
    if r < n {
      assert !PageIn(regions[n], va);
      OnlyRegion(regions[..n], r, va);
    }
  }

  /** With disjoint regions the tree says, page by page and for every user address, what the snapshot of
      the regions says, and nothing where no region has a page. */
  lemma ExpectedIsInstalled(regions: seq<Region>, va: nat)
    requires InUserRange(regions) && Disjoint(regions)
    ensures var hw := InstallAll(regions);
      var r := HwFind(hw, va);
      if r == |hw| then Expected(regions, va) == None
      else
        var k := SlotIndex(hw[r].down, hw[r].base, va);
        && k < |hw[r].ptes| && hw[r].ptes[k].present
        && Expected(regions, va) == Some(Entry(hw[r].ptes[k].ppn, true, hw[r].ptes[k].writable, true))
  {
    hide Disjoint, Expected, PageIn;
    var hw := InstallAll(regions);
    var r := HwFind(hw, va);
    forall i | 0 <= i < |regions| ensures Covers(hw[i], va) <==> PageIn(regions[i], va) {
      InstallCovers(regions[i], va);
    }
    if r == |hw| {
      ExpectedOut(regions, va);
    } else {
      OnlyRegion(regions, r, va);
      SlotInstalled(regions[r], va);
    }
  }

  lemma HighAddresses(start: nat)
    requires start % PGSIZE == 0 && start < SZ_512G
    ensures forall va | SZ_512G <= va < FANOUT * SZ_512G :: va / PGSIZE != start / PGSIZE
  {
  }

  lemma ReachesNothing(node: Nodes, regions: seq<Region>)
    ensures Reaches(node, node, regions)
  {
  }

  lemma ReachesMore(node0: Nodes, before: Nodes, node: Nodes, regions: seq<Region>, i: nat, va: nat)
    requires Reaches(node0, before, regions) && OnWay(before, node, va) && i < |regions| && PageIn(regions[i], va)
    ensures Reaches(node0, node, regions)
  {
    forall q | q in node && q !in node0
      ensures exists r, vb | 0 <= r < |regions| && PageIn(regions[r], vb) :: OnPath(q, vb)
    {
      if q !in before {
        assert OnPath(q, va);
      }
    }
  }

  lemma TreeFacts(tables: Tables, node: Nodes, p: Path)
    requires Tree(tables, node) && p in node
    ensures OnePath(node) && node[p] in tables && |tables[node[p]]| == FANOUT
    ensures |p| < 3 ==> forall i | 0 <= i < FANOUT :: LinkOk(tables, node, p, i)
  {
  }

  ghost predicate PartOf(t: Tables, t0: Tables, node: Nodes, p: Path)
  {
    Below(node, p) <= t.Keys <= t0.Keys && forall x | x in t :: t[x] == t0[x]
  }

  lemma RootLink(tables: Tables, node: Nodes)
    requires Tree(tables, node)
    ensures [] in node && node[[]] in tables && |tables[node[[]]]| == FANOUT
    ensures [] in Cut(node) && Cut(node)[[]] == node[[]]
    ensures var e := tables[node[[]]][0];
      && (e.present ==> [0] in node && e.page == node[[0]] && PartOf(tables, tables, node, [0]))
      && (!e.present ==> tables - Below(node, [0]) == tables)
  {
    TreeFacts(tables, node, []);
    assert LinkOk(tables, node, [], 0) && [] + [0] == [0];
    if [0] in node {
      BelowAll(tables, node, [0]);
    } else {
      NothingBelow(tables, node, [0]);
    }
  }

  lemma SameKeys(t: Tables, x: nat, v: seq<Entry>)
    requires x in t
    ensures t[x := v].Keys == t.Keys
  {
  }

  lemma ScanStart(t: Tables, node: Nodes, p: Path)
    ensures t - BelowFirst(node, p, 0) == t
  {
  }

  lemma BelowInner(node: Nodes, p: Path, i: nat)
    ensures Below(node, p + [i]) <= Below(node, p)
  {
  }

  /** The table being scanned is not among those already freed. */
  lemma NotYet(node: Nodes, p: Path, i: nat)
    requires p in node && OnePath(node)
    ensures node[p] !in BelowFirst(node, p, i)
  {
  }

  /** One turn of a scan that frees the children of `p` in order. */
  lemma ScanStep(t0: Tables, t: Tables, node: Nodes, p: Path, i: nat)
    requires Tree(t0, node) && p in node && |p| < 3 && i < FANOUT && PartOf(t, t0, node, p)
    ensures var now := t - BelowFirst(node, p, i);
      && node[p] in now && |now[node[p]]| == FANOUT && now[node[p]] == t0[node[p]] && LinkOk(t0, node, p, i)
      && now - Below(node, p + [i]) == t - BelowFirst(node, p, i + 1)
      && (p + [i] in node ==> PartOf(now, t0, node, p + [i]))
      && (p + [i] !in node ==> now == t - BelowFirst(node, p, i + 1))
  {
    TreeFacts(t0, node, p);
    BelowAll(t0, node, p);
    BelowStep(node, p, i);
    BelowInner(node, p, i);
    NotYet(node, p, i);
    hide Tree, LinkOk;
    MinusMinus(t, BelowFirst(node, p, i), Below(node, p + [i]));
    if p + [i] !in node {
      NothingBelow(t0, node, p + [i]);
    }
  }

  lemma ScanEnd(t0: Tables, t: Tables, node: Nodes, p: Path)
    requires Tree(t0, node) && p in node && PartOf(t, t0, node, p)
    ensures var now := t - BelowFirst(node, p, FANOUT); node[p] in now && now - {node[p]} == t - Below(node, p)
  {
    BelowAll(t0, node, p);
    hide Tree;
    MinusMinus(t, BelowFirst(node, p, FANOUT), {node[p]});
  }

  /** Below an entry of a page directory there is at most one page table. */
  lemma LeafBelow(tables: Tables, node: Nodes, p: Path, i: nat)
    requires Tree(tables, node) && p in node && |p| == 2 && i < FANOUT
    ensures Below(node, p + [i]) == if p + [i] in node then {node[p + [i]]} else {}
  {
    hide LinkOk;
    if p + [i] in node {
      forall q | q in node && Under(q, p + [i]) ensures q == p + [i] {
        assert NodeOk(tables, node, q);
        assert q[..3] == q;
      }
      assert Under(p + [i], p + [i]);
    } else {
      NothingBelow(tables, node, p + [i]);
    }
  }

  lemma OneTable(tables: Tables, node: Nodes, root: nat)
    requires tables == map[root := Blank()] && node == map[[] := root]
    ensures Tree(tables, node) && tables.Keys == {root} && forall va :: Lookup(tables, node, va) == None
  {
  }

  lemma InTables(tables: Tables, node: Nodes, p: Path, i: nat)
    requires Tree(tables, node) && p in node
    ensures p + [i] in node ==> node[p + [i]] in tables
  {
  }

  lemma RootIn(tables: Tables, node: Nodes)
    requires Tree(tables, node)
    ensures [] in node
  {
  }

  lemma SamePath(va: nat, a: nat)
    requires a % PGSIZE == 0 && a <= va < a + PGSIZE
    ensures PathOf(va) == PathOf(a) && PtIndex(va) == PtIndex(a)
  {
    assert va / PGSIZE == a / PGSIZE;
    assert va / SZ_2M == va / PGSIZE / FANOUT && a / SZ_2M == a / PGSIZE / FANOUT;
    assert va / SZ_1G == va / PGSIZE / FANOUT / FANOUT && a / SZ_1G == a / PGSIZE / FANOUT / FANOUT;
    assert va / SZ_512G == va / PGSIZE / FANOUT / FANOUT / FANOUT;
    assert a / SZ_512G == a / PGSIZE / FANOUT / FANOUT / FANOUT;
  }

  // ------------------------------------------------------ how many tables

  /** The first n steps on the way to page k of a region, counted from its bottom. */
  ghost function WayTo(rg: Region, k: nat, n: nat): Path
  {
    var va := Bottom(rg) + k * PGSIZE;
    if 0 <= va && n <= 3 then PathOf(va)[..n] else []
  }

  /** The table paths on the way to the pages of the regions. */
  ghost function TablePaths(regions: seq<Region>): set<Path>
  {
    set r, k, n | 0 <= r < |regions| && 0 <= k < Backed(regions[r].size) && 1 <= n <= 3 :: WayTo(regions[r], k, n)
  }

  /** The table paths of the user half. */
  ghost function UserPaths(node: Nodes): set<Path>
  {
    set q | q in node && q != [] && q[0] == 0
  }

  /** Some page of the regions has no page table. */
  ghost predicate Missing(node: Nodes, regions: seq<Region>)
  {
    exists r, va | 0 <= r < |regions| && PageIn(regions[r], va) :: PathOf(va) !in node
  }

  ghost predicate AllThere(node: Nodes, regions: seq<Region>)
  {
    forall r, va: nat | 0 <= r < |regions| && PageIn(regions[r], va) :: PathOf(va) in node
  }

  /** The page that holds va, counted from the bottom of its region. */
  lemma PageNumber(rg: Region, va: nat)
    requires 0 <= Bottom(rg) && Bottom(rg) % PGSIZE == 0 && PageIn(rg, va)
    ensures var k := (va - Bottom(rg)) / PGSIZE;
      0 <= k < Backed(rg.size) && PathOf(Bottom(rg) + k * PGSIZE) == PathOf(va)
  {
    var k := (va - Bottom(rg)) / PGSIZE;
    SamePath(va, Bottom(rg) + k * PGSIZE);
  }

  lemma PathLength(va: nat)
    ensures |PathOf(va)| == 3 && PathOf(va)[..3] == PathOf(va)
  {
  }

  /** A path is wanted exactly if it leads to a page of some region. */
  lemma PathWanted(regions: seq<Region>, r: nat, va: nat, q: Path)
    requires InUserRange(regions) && r < |regions| && PageIn(regions[r], va) && OnPath(q, va)
    ensures q in TablePaths(regions)
  {
    hide RegionShape, PathOf;
    RegionFacts(regions[r]);
    PageNumber(regions[r], va);
    var k := (va - Bottom(regions[r])) / PGSIZE;
    PathLength(va);
    assert q == WayTo(regions[r], k, |q|);
  }

  lemma UserPath(va: nat, n: nat)
    requires va < SZ_512G && 1 <= n <= 3
    ensures PathOf(va)[..n] != [] && PathOf(va)[..n][0] == 0
  {
  }

  /** Wanted paths belong to the user half. */
  lemma WantedIsUser(regions: seq<Region>, q: Path)
    requires InUserRange(regions) && q in TablePaths(regions)
    ensures q != [] && q[0] == 0
  {
    hide RegionShape, PathOf;
    var r, k, n :|
      0 <= r < |regions| && 0 <= k < Backed(regions[r].size) && 1 <= n <= 3 && q == WayTo(regions[r], k, n);
    UserPath(Bottom(regions[r]) + k * PGSIZE, n);
  }

  lemma {:induction false} ValueCount(node: Nodes)
    requires OnePath(node)
    ensures |node.Values| == |node|
  {
    if node != map[] {
      var p :| p in node;
      var rest := node - {p};
      ValueCount(rest);
      assert node.Keys == rest.Keys + {p};
      forall v | v in node.Values ensures v in rest.Values + {node[p]} {
        var q :| q in node && node[q] == v;
        assert q != p ==> q in rest && rest[q] == v;
      }
      forall v | v in rest.Values ensures v in node.Values && v != node[p] {
        var q :| q in rest && rest[q] == v;
        assert q in node && node[q] == v;
      }
      assert p in node && node[p] in node.Values;
      assert node.Values == rest.Values + {node[p]};
    }
  }

  /** One table page for each path. */
  lemma TableCount(tables: Tables, node: Nodes)
    requires Tree(tables, node)
    ensures |tables| == |node.Keys|
  {
    ValueCount(node);
  }

  /** The user half and the rest. */
  lemma CutCount(node: Nodes)
    requires [] in node
    ensures |node.Keys| == |Cut(node).Keys| + |UserPaths(node)|
  {
    assert node.Keys == Cut(node).Keys + UserPaths(node) && Cut(node).Keys !! UserPaths(node);
  }

  lemma ReachesWanted(node0: Nodes, node: Nodes, regions: seq<Region>)
    requires InUserRange(regions) && Reaches(node0, node, regions)
    ensures node0.Keys <= node.Keys <= node0.Keys + TablePaths(regions)
  {
    hide InUserRange, TablePaths, OnPath, PathOf;
    forall q | q in node && q !in node0 ensures q in TablePaths(regions) {
      var r, va :| 0 <= r < |regions| && PageIn(regions[r], va) && OnPath(q, va);
      PathWanted(regions, r, va, q);
    }
  }

  lemma AllWanted(tables: Tables, node: Nodes, regions: seq<Region>)
    requires InUserRange(regions) && Tree(tables, node) && AllThere(node, regions)
    ensures TablePaths(regions) <= node.Keys
  {
    hide RegionShape, PathOf, Tree;
    forall q | q in TablePaths(regions) ensures q in node {
      var r, k, n :|
        0 <= r < |regions| && 0 <= k < Backed(regions[r].size) && 1 <= n <= 3 && q == WayTo(regions[r], k, n);
      var va := Bottom(regions[r]) + k * PGSIZE;
      assert PageIn(regions[r], va);
      PathLength(va);
      PrefixIn(tables, node, PathOf(va), n);
    }
  }

  lemma SomeMissing(node: Nodes, regions: seq<Region>)
    requires InUserRange(regions) && Missing(node, regions)
    ensures exists q :: q in TablePaths(regions) && q !in node
  {
    hide InUserRange, TablePaths, PathOf;
    var r, va :| 0 <= r < |regions| && PageIn(regions[r], va) && PathOf(va) !in node;
    assert OnPath(PathOf(va), va);
    PathWanted(regions, r, va, PathOf(va));
  }

  lemma CountAbove<T>(a: set<T>, b: set<T>)
    requires a <= b
    ensures |a| <= |b| && (a != b ==> |a| < |b|)
  {
    assert b == a + (b - a);
    if a != b {
      assert b - a != {};
    }
  }

  lemma NotCut(node: Nodes, q: Path)
    requires q != [] && q[0] == 0
    ensures q !in Cut(node)
  {
  }

  /** A rebuild ends well exactly when its tables fit what is free once the old ones are back. */
  lemma TablesFit(tables0: Tables, node0: Nodes, tables: Tables, node: Nodes, regions: seq<Region>,
                  free0: int, free: int, mapped: bool)
    requires InUserRange(regions) && Tree(tables0, node0) && Tree(tables, node)
    requires Reaches(Cut(node0), node, regions) && free + |tables| == free0 + |tables0| && free >= 0
    requires mapped ==> AllThere(node, regions)
    requires !mapped ==> free == 0 && Missing(node, regions)
    ensures mapped <==> |TablePaths(regions)| <= free0 + |UserPaths(node0)|
    ensures mapped ==> free == free0 + |UserPaths(node0)| - |TablePaths(regions)|
    ensures mapped ==> UserPaths(node) == TablePaths(regions)
  {
    hide InUserRange, Tree, Reaches, Cut, TablePaths, AllThere, Missing;
    TableCount(tables0, node0);
    TableCount(tables, node);
    RootIn(tables0, node0);
    CutCount(node0);
    ReachesWanted(Cut(node0), node, regions);
    var kept, wanted := Cut(node0).Keys, TablePaths(regions);
    forall q | q in wanted ensures q !in kept && q != [] && q[0] == 0 {
      WantedIsUser(regions, q);
      NotCut(node0, q);
    }
    assert |kept + wanted| == |kept| + |wanted|;
    if mapped {
      AllWanted(tables, node, regions);
      assert node.Keys == kept + wanted;
      forall q | q in kept ensures q == [] || q[0] != 0 { if q != [] && q[0] == 0 { NotCut(node0, q); } }
    } else {
      SomeMissing(node, regions);
      CountAbove(node.Keys, kept + wanted);
    }
  }

  lemma LookupPath(tables: Tables, node: Nodes, va: nat)
    requires Lookup(tables, node, va).Some?
    ensures PathOf(va) in node
  {
  }

  lemma MappedThere(tables: Tables, node: Nodes, regions: seq<Region>)
    requires InUserRange(regions)
    requires forall va | 0 <= va < SZ_512G :: Lookup(tables, node, va) == Expected(regions, va)
    ensures AllThere(node, regions)
  {
    hide RegionShape, Lookup, Expected, PathOf;
    forall r, va: nat | 0 <= r < |regions| && PageIn(regions[r], va) ensures PathOf(va) in node {
      ExpectedIn(regions, r, va);
      LookupPath(tables, node, va);
    }
  }

  /** The tree's pages are claimed by nobody else. */
  ghost predicate Sole(tables: Tables, rest: multiset<nat>)
  {
    forall t | t in tables :: t !in rest
  }

  lemma SoleAt(tables: Tables, rest: multiset<nat>, t: nat)
    requires Sole(tables, rest) && t in tables
    ensures t !in rest
  {
  }

  lemma FreedOne(ph: Phys, m: multiset<nat>, t: nat)
    requires Ledger(ph, m) && m[t] == 1
    ensures t < |ph.core| == |ph.data| && Kfree(ph, t).freePages == ph.freePages + 1
  {
  }

  /** A page table below a missing path is missing. */
  lemma MissingBelow(tables: Tables, node: Nodes, va: nat, n: nat)
    requires Tree(tables, node) && n <= 3 && PathOf(va)[..n] !in node
    ensures PathOf(va) !in node
  {
    hide Tree;
    if PathOf(va) in node { PrefixIn(tables, node, PathOf(va), n); }
  }

  // ------------------------------------------------------ the tree, in place

  class Vspace {
    const mem: PhysMem
    const root: nat
    var tables: Tables
    ghost var node: Nodes

    /** setupkvm before it maps anything: a cleared page as PML4. */
    constructor (mem: PhysMem, root: nat, ghost rest: multiset<nat>)
      requires mem.Shape() && Ledger(mem.Value(), rest + multiset{root})
      ensures this.mem == mem && Valid(rest) && forall va :: At(va) == None
    {
      this.mem := mem;
      this.root := root;
      tables := map[root := seq(FANOUT, j => ZERO)];
      node := map[[] := root];
      new;
      OneTable(tables, node, root);
      assert multiset(tables.Keys) == multiset{root};
    }

    ghost predicate Valid(rest: multiset<nat>)
      reads this, mem, mem.coreMap, mem.data
    {
      && mem.Shape() && Tree(tables, node) && node[[]] == root
      && Ledger(mem.Value(), rest + multiset(tables.Keys))
    }

    /** Free pages and table pages together. */
    ghost function Stock(): int
      reads this`tables, mem
    {
      mem.freePages + |tables|
    }

    ghost function At(va: nat): Option<Entry>
      reads this
    {
      Lookup(tables, node, va)
    }

    /** One level of walkpml4 with alloc set: follow entry `i` of table `t`, making the next
        table when it is missing. */
    method Descend(t: nat, i: nat, ghost p: Path, ghost rest: multiset<nat>) returns (next: Option<nat>)
      requires Valid(rest) && p in node && node[p] == t && |p| < 3 && i < FANOUT
      modifies this`tables, this`node, mem, mem.coreMap
      ensures Valid(rest) && forall va :: At(va) == old(At(va))
      ensures Stock() == old(Stock())
      ensures next.None? ==> node == old(node) && tables == old(tables) && mem.freePages == 0 && p + [i] !in node
      ensures next.Some? ==> p + [i] in node && node[p + [i]] == next.value
      ensures next.Some? ==> node == if p + [i] in old(node) then old(node) else old(node)[p + [i] := next.value]
    {
      hide Tree, Ledger, Lookup;
      TreeFacts(tables, node, p);
      assert LinkOk(tables, node, p, i);
      InTables(tables, node, p, i);
      if tables[t][i].present {
        return Some(tables[t][i].page);
      }
      KallocLedger(mem.Value(), rest + multiset(tables.Keys));
      next := mem.AllocPage();
      if next.Some? {
        GrowTree(tables, node, p, i, next.value);
        KeysPlus(tables.Keys, next.value, rest);
        tables := tables[t := tables[t][i := Entry(next.value, true, true, true)]];
        tables := tables[next.value := seq(FANOUT, j => ZERO)];
        node := node[p + [i] := next.value];
        assert tables.Keys == old(tables).Keys + {next.value};
      }
    }

    /** walkpml4 with alloc set. */
    method Walk(va: nat, ghost rest: multiset<nat>) returns (table: Option<nat>)
      requires Valid(rest)
      modifies this`tables, this`node, mem, mem.coreMap
      ensures Valid(rest) && forall vb :: At(vb) == old(At(vb))
      ensures OnWay(old(node), node, va)
      ensures Stock() == old(Stock())
      ensures table.Some? ==> PathOf(va) in node && node[PathOf(va)] == table.value
      ensures table.None? ==> mem.freePages == 0 && PathOf(va) !in node
    {
      hide Tree, Ledger, Lookup;
      RootIn(tables, node);
      ghost var p := PathOf(va);
      assert p[..1] == [] + [p[0]] && p[..2] == p[..1] + [p[1]] && p == p[..2] + [p[2]];
      table := Descend(root, Pml4Index(va), [], rest);
      if table.None? {
        MissingBelow(tables, node, va, 1);
        return;
      }
      table := Descend(table.value, PdptIndex(va), p[..1], rest);
      if table.None? {
        MissingBelow(tables, node, va, 2);
        return;
      }
      table := Descend(table.value, PdIndex(va), p[..2], rest);
    }

    /** mappages for one page. */
    method MapPage(va: nat, e: Entry, ghost rest: multiset<nat>) returns (r: MapResult)
      requires Valid(rest) && va < FANOUT * SZ_512G
      modifies this`tables, this`node, mem, mem.coreMap
      ensures Valid(rest) && OnWay(old(node), node, va) && Stock() == old(Stock())
      ensures r.NoPage? ==> mem.freePages == 0 && PathOf(va) !in node
      ensures r.Remap? <==> !r.NoPage? && old(At(va)).Some?
      ensures forall vb | 0 <= vb < FANOUT * SZ_512G ::
        At(vb) == if r.Mapped? && vb / PGSIZE == va / PGSIZE then (if e.present then Some(e) else None)
                  else old(At(vb))
    {
      hide Tree, Ledger, Pml4Index, PdptIndex, PdIndex, PtIndex, OnWay;
      var table := Walk(va, rest);
      if table.None? {
        return NoPage;
      }
      SetLeaf(tables, node, va, e);
      if tables[table.value][PtIndex(va)].present {
        return Remap;
      }
      ghost var before := tables;
      tables := tables[table.value := tables[table.value][PtIndex(va) := e]];
      assert tables.Keys == before.Keys;
      return Mapped;
    }

    /** A table page goes back; reading it afterwards would need it in `tables`. */
    method FreeTable(t: nat, ghost rest: multiset<nat>)
      requires mem.Shape() && t in tables && Ledger(mem.Value(), rest + multiset(tables.Keys))
      modifies this`tables, mem, mem.coreMap, mem.data
      ensures mem.Shape() && tables == old(tables) - {t} && Ledger(mem.Value(), rest + multiset(tables.Keys))
      ensures t !in rest ==> Stock() == old(Stock())
    {
      if t !in rest { FreedOne(mem.Value(), rest + multiset(tables.Keys), t); }
      KeysMinus(tables.Keys, t, rest);
      KfreeLedger(mem.Value(), rest + multiset(tables.Keys), t);
      LedgerShape(mem.Value(), rest + multiset(tables.Keys));
      mem.FreePage(t);
      tables := tables - {t};
      assert tables.Keys == old(tables).Keys - {t};
    }

    /** Part of the tree `t0` is still there, and all of it below `p`. */
    ghost predicate Intact(t0: Tables, p: Path, rest: multiset<nat>)
      reads this, mem, mem.coreMap, mem.data
    {
      && mem.Shape() && Tree(t0, node) && p in node && PartOf(tables, t0, node, p)
      && Ledger(mem.Value(), rest + multiset(tables.Keys))
    }

    method FreePgdir(t: nat, ghost p: Path, ghost t0: Tables, ghost rest: multiset<nat>)
      requires Intact(t0, p, rest) && |p| == 2 && node[p] == t
      modifies this`tables, mem, mem.coreMap, mem.data
      ensures mem.Shape() && tables == old(tables) - Below(node, p)
      ensures Ledger(mem.Value(), rest + multiset(tables.Keys))
      ensures Sole(old(tables), rest) ==> Stock() == old(Stock())
    {
      hide Ledger, Tree, Below, BelowFirst, Sole;
      var i := 0;
      ScanStart(tables, node, p);
      while i < FANOUT
        invariant 0 <= i <= FANOUT && mem.Shape()
        invariant tables == old(tables) - BelowFirst(node, p, i)
        invariant Ledger(mem.Value(), rest + multiset(tables.Keys))
        invariant Sole(old(tables), rest) ==> Stock() == old(Stock())
      {
        ScanStep(t0, old(tables), node, p, i);
        LeafBelow(t0, node, p, i);
        if tables[t][i].present {
          if Sole(old(tables), rest) { SoleAt(old(tables), rest, tables[t][i].page); }
          FreeTable(tables[t][i].page, rest);
        }
        i := i + 1;
      }
      ScanEnd(t0, old(tables), node, p);
      if Sole(old(tables), rest) { SoleAt(old(tables), rest, t); }
      FreeTable(t, rest);
    }

    method FreePdpt(t: nat, ghost p: Path, ghost t0: Tables, ghost rest: multiset<nat>)
      requires Intact(t0, p, rest) && |p| == 1 && node[p] == t
      modifies this`tables, mem, mem.coreMap, mem.data
      ensures mem.Shape() && tables == old(tables) - Below(node, p)
      ensures Ledger(mem.Value(), rest + multiset(tables.Keys))
      ensures Sole(old(tables), rest) ==> Stock() == old(Stock())
    {
      hide Ledger, Tree, Below, BelowFirst;
      var i := 0;
      ScanStart(tables, node, p);
      while i < FANOUT
        invariant 0 <= i <= FANOUT && mem.Shape()
        invariant tables == old(tables) - BelowFirst(node, p, i)
        invariant Ledger(mem.Value(), rest + multiset(tables.Keys))
        invariant Sole(old(tables), rest) ==> Stock() == old(Stock())
      {
        ScanStep(t0, old(tables), node, p, i);
        if tables[t][i].present {
          FreePgdir(tables[t][i].page, p + [i], t0, rest);
        }
        i := i + 1;
      }
      ScanEnd(t0, old(tables), node, p);
      FreeTable(t, rest);
    }

    /** The first half of vspaceinvalidate: drop the user tables, entry 0 of the PML4. */
    method DropUser(ghost rest: multiset<nat>)
      requires Valid(rest)
      modifies this, mem, mem.coreMap, mem.data
      ensures Valid(rest) && node == Cut(old(node)) && (Sole(old(tables), rest) ==> Stock() == old(Stock()))
      ensures forall va | 0 <= va < FANOUT * SZ_512G :: At(va) == (if Pml4Index(va) == 0 then None else old(At(va)))
    {
      hide Ledger, Tree, Lookup, Below, Cut;
      CutTree(tables, node);
      RootLink(tables, node);
      ghost var t0 := tables;
      if tables[root][0].present {
        FreePdpt(tables[root][0].page, [0], tables, rest);
      }
      tables := tables[root := tables[root][0 := ZERO]];
      assert tables == CutTables(t0, node);
      SameKeys(t0 - Below(node, [0]), root, tables[root]);
      node := Cut(node);
    }

    /** The second half: map the pages of the regions, lowest address first within each. */
    method MapRegions(regions: seq<Region>, ghost rest: multiset<nat>) returns (r: MapResult)
      requires Valid(rest) && InUserRange(regions)
      requires forall va | 0 <= va < SZ_512G :: At(va) == None
      modifies this`tables, this`node, mem, mem.coreMap
      ensures Valid(rest) && Stock() == old(Stock())
      ensures r.NoPage? ==> mem.freePages == 0 && Missing(node, regions)
      ensures (r.Remap? ==> !Disjoint(regions)) && (r.Mapped? ==> Disjoint(regions))
      ensures r.Mapped? ==> forall va | 0 <= va < SZ_512G :: At(va) == Expected(regions, va)
      ensures forall va | SZ_512G <= va < FANOUT * SZ_512G :: At(va) == old(At(va))
      ensures Reaches(old(node), node, regions)
    {
      hide Tree, Ledger, Lookup, RegionShape, Reaches, Apart;
      r := Mapped;
      var i := 0;
      ReachesNothing(node, regions);
      ExpectedNone(regions);
      while i < |regions|
        invariant 0 <= i <= |regions| && Valid(rest) && r.Mapped? && Stock() == old(Stock())
        invariant forall a, b | 0 <= a < b < i :: Apart(regions[a], regions[b])
        invariant forall va | 0 <= va < SZ_512G :: At(va) == Expected(regions[..i], va)
        invariant forall va | SZ_512G <= va < FANOUT * SZ_512G :: At(va) == old(At(va))
        invariant Reaches(old(node), node, regions)
      {
        r := MapRegion(regions, i, old(node), rest);
        if !r.Mapped? {
          return;
        }
        i := i + 1;
      }
      assert regions[..|regions|] == regions;
    }

    method MapRegion(regions: seq<Region>, i: nat, ghost node0: Nodes, ghost rest: multiset<nat>) returns (r: MapResult)
      requires Valid(rest) && InUserRange(regions) && i < |regions| && Reaches(node0, node, regions)
      requires forall va | 0 <= va < SZ_512G :: At(va) == Expected(regions[..i], va)
      modifies this`tables, this`node, mem, mem.coreMap
      ensures Valid(rest) && Stock() == old(Stock())
      ensures r.NoPage? ==> mem.freePages == 0 && Missing(node, regions)
      ensures Disjoint(regions) ==> !r.Remap?
      ensures r.Mapped? ==> forall a | 0 <= a < i :: Apart(regions[a], regions[i])
      ensures r.Mapped? ==> forall va | 0 <= va < SZ_512G :: At(va) == Expected(regions[..i + 1], va)
      ensures forall va | SZ_512G <= va < FANOUT * SZ_512G :: At(va) == old(At(va))
      ensures Reaches(node0, node, regions)
    {
      hide Tree, Ledger, Lookup, Reaches, Expected, Partly, PtIndex, PathOf, ClearPages, Apart;
      var rg := regions[i];
      RegionFacts(rg);
      var start := if rg.down then rg.base - rg.size else rg.base;
      var end := if rg.down then rg.base else rg.base + rg.size;
      ghost var k := 0;
      r := Mapped;
      forall va | 0 <= va < SZ_512G ensures At(va) == Partly(regions, i, 0, va) {
        PartlyNone(regions, i, va);
      }
      ClearStart(regions, i);
      while start < end
        invariant 0 <= k <= Backed(rg.size) && start == Bottom(rg) + k * PGSIZE
        invariant (start < end) <==> k < Backed(rg.size)
        invariant Valid(rest) && r.Mapped? && Reaches(node0, node, regions) && Stock() == old(Stock())
        invariant forall va | 0 <= va < SZ_512G :: At(va) == Partly(regions, i, k, va)
        invariant ClearPages(regions, i, k)
        invariant forall va | SZ_512G <= va < FANOUT * SZ_512G :: At(va) == old(At(va))
      {
        PageOfRegion(rg, k);
        var v := rg.slots[SlotIndex(rg.down, rg.base, start)];
        ghost var before := node;
        PartlyFree(regions, i, k);
        r := MapPage(start, EntryOf(v), rest);
        ReachesMore(node0, before, node, regions, i, start);
        if !r.Mapped? {
          return;
        }
        forall va | 0 <= va < SZ_512G ensures At(va) == Partly(regions, i, k + 1, va) {
          PartlyStep(regions, i, k, va);
        }
        ClearStep(regions, i, k);
        HighAddresses(start);
        start := start + PGSIZE;
        k := k + 1;
      }
      forall va | 0 <= va < SZ_512G ensures At(va) == Expected(regions[..i + 1], va) {
        PartlyAll(regions, i, va);
      }
      ClearApart(regions, i);
    }

    /** vspaceinvalidate.  When it succeeds the first 512 GB translate exactly as the regions say,
        the rest of the address space is untouched, and the only claims of the tree are its new
        table pages: every old user table went back once.  With regions apart, and table pages nobody else
        claims, it succeeds exactly when there is a page for every table path of the regions. */
    method Invalidate(regions: seq<Region>, ghost rest: multiset<nat>) returns (r: MapResult)
      requires Valid(rest) && InUserRange(regions)
      modifies this, mem, mem.coreMap, mem.data
      ensures Valid(rest)
      ensures r.NoPage? ==> mem.freePages == 0
      ensures (r.Remap? ==> !Disjoint(regions)) && (r.Mapped? ==> Disjoint(regions))
      ensures r.Mapped? ==> forall va | 0 <= va < SZ_512G :: At(va) == Expected(regions, va)
      ensures forall va | SZ_512G <= va < FANOUT * SZ_512G :: At(va) == old(At(va))
      ensures Reaches(Cut(old(node)), node, regions)
      ensures Sole(old(tables), rest) && Disjoint(regions) ==>
        (r.Mapped? <==> |TablePaths(regions)| <= old(mem.freePages) + |UserPaths(old(node))|)
      ensures Sole(old(tables), rest) && r.Mapped? ==>
        && mem.freePages == old(mem.freePages) + |UserPaths(old(node))| - |TablePaths(regions)|
        && UserPaths(node) == TablePaths(regions)
    {
      hide Tree, Ledger, Lookup, Cut, Reaches, Missing, TablePaths, UserPaths, Sole, Disjoint, Expected;
      UserIsEntryZero();
      DropUser(rest);
      r := MapRegions(regions, rest);
      FreeCount(mem.Value(), rest + multiset(tables.Keys));
      if r.Mapped? { MappedThere(tables, node, regions); }
      if Sole(old(tables), rest) && !r.Remap? {
        TablesFit(old(tables), old(node), tables, node, regions, old(mem.freePages), mem.freePages, r.Mapped?);
      }
    }
  }
}
