/** kernel/x86_64vm.c and inc/mmu.h: the four-level table (section 4.5 of the Intel 64 and
    IA-32 Architectures Software Developer's Manual, Volume 3A) in physical pages.

    `tables` holds the contents of every table page; `node` says which page is reached by which
    index path ([] is the PML4, [i] a PDPT, [i, j] a page directory, [i, j, k] a page table). */
module PageTable {
  import opened Types
  import opened CoreMap

  const FANOUT := 512
  const SZ_2M := 0x20_0000
  const SZ_1G := 0x4000_0000
  const SZ_4G := 0x1_0000_0000
  const SZ_512G := 0x80_0000_0000

  type Path = seq<nat>

  datatype Entry = Entry(page: nat, present: bool, writable: bool, user: bool)

  const ZERO := Entry(0, false, false, false)

  // ------------------------------------------------------------------ inc/mmu.h

  function Pml4Index(va: nat): (i: nat) ensures i < FANOUT { va / SZ_512G % FANOUT }
  function PdptIndex(va: nat): (i: nat) ensures i < FANOUT { va / SZ_1G % FANOUT }
  function PdIndex(va: nat): (i: nat) ensures i < FANOUT { va / SZ_2M % FANOUT }
  function PtIndex(va: nat): (i: nat) ensures i < FANOUT { va / PGSIZE % FANOUT }

  function PathOf(va: nat): Path { [Pml4Index(va), PdptIndex(va), PdIndex(va)] }

  /** The four indices are the base-512 digits of the page number. */
  lemma IndexDigits(va: nat)
    requires va < FANOUT * SZ_512G
    ensures va / PGSIZE == ((Pml4Index(va) * FANOUT + PdptIndex(va)) * FANOUT + PdIndex(va)) * FANOUT + PtIndex(va)
  {
    var n := va / PGSIZE;
    assert va / SZ_2M == n / FANOUT;
    assert va / SZ_1G == n / FANOUT / FANOUT;
    assert va / SZ_512G == n / FANOUT / FANOUT / FANOUT;
  }

  /** Two addresses with the same indices lie in the same page. */
  lemma IndicesDetermine(va: nat, vb: nat)
    requires va < FANOUT * SZ_512G && vb < FANOUT * SZ_512G
    ensures va / PGSIZE == vb / PGSIZE <==> (PathOf(va) == PathOf(vb) && PtIndex(va) == PtIndex(vb))
  {
    IndexDigits(va);
    IndexDigits(vb);
    assert va / SZ_2M == va / PGSIZE / FANOUT && vb / SZ_2M == vb / PGSIZE / FANOUT;
    assert va / SZ_1G == va / PGSIZE / FANOUT / FANOUT && vb / SZ_1G == vb / PGSIZE / FANOUT / FANOUT;
    assert va / SZ_512G == va / PGSIZE / FANOUT / FANOUT / FANOUT;
    assert vb / SZ_512G == vb / PGSIZE / FANOUT / FANOUT / FANOUT;
    if PathOf(va) == PathOf(vb) {
      assert PathOf(va)[0] == PathOf(vb)[0] && PathOf(va)[1] == PathOf(vb)[1] && PathOf(va)[2] == PathOf(vb)[2];
    }
  }

  // ---------------------------------------------------------------------- the tree

  type Tables = map<nat, seq<Entry>>
  type Nodes = map<Path, nat>

  ghost predicate NodeOk(tables: Tables, node: Nodes, p: Path)
    requires p in node
  {
    && |p| <= 3 && node[p] in tables && |tables[node[p]]| == FANOUT
    && (p != [] ==> p[|p| - 1] < FANOUT && p[..|p| - 1] in node)
  }

  /** Entry i of an inner table is present exactly when the path continues, and then leads there. */
  ghost predicate LinkOk(tables: Tables, node: Nodes, p: Path, i: nat)
    requires p in node && node[p] in tables && i < |tables[node[p]]|
  {
    var e := tables[node[p]][i];
    (e.present <==> p + [i] in node) && (e.present ==> e.page == node[p + [i]] && e.writable && e.user)
  }

  /** The tables form a tree: one page a path, no page on two paths, no page off the tree. */
  ghost predicate Tree(tables: Tables, node: Nodes)
  {
    && [] in node
    && (forall p | p in node :: NodeOk(tables, node, p))
    && (forall p, q | p in node && q in node && node[p] == node[q] :: p == q)
    && tables.Keys == node.Values
    && (forall p, i | p in node && |p| < 3 && 0 <= i < FANOUT :: LinkOk(tables, node, p, i))
  }

  /** What the hardware finds for `va`: the leaf entry, when every level is present. */
  ghost function Lookup(tables: Tables, node: Nodes, va: nat): Option<Entry>
  {
    var p := PathOf(va);
    if p in node && node[p] in tables && |tables[node[p]]| == FANOUT && tables[node[p]][PtIndex(va)].present
    then Some(tables[node[p]][PtIndex(va)]) else None
  }

  ghost function Blank(): (t: seq<Entry>)
    ensures |t| == FANOUT
  {
    seq(FANOUT, i => ZERO)
  }

  lemma GrowLink(tables: Tables, node: Nodes, p: Path, i: nat, pg: nat, a: Path, j: nat)
    requires Tree(tables, node) && p in node && |p| < 3 && i < FANOUT && p + [i] !in node && pg !in tables && j < FANOUT
    requires a in node[p + [i] := pg] && |a| < 3
    ensures var node' := node[p + [i] := pg];
      var tables' := tables[node[p] := tables[node[p]][i := Entry(pg, true, true, true)]][pg := Blank()];
      node'[a] in tables' && j < |tables'[node'[a]]| && LinkOk(tables', node', a, j)
  {
    var q := p + [i];
    assert NodeOk(tables, node, p);
    if a == q {
      assert forall b | b in node :: NodeOk(tables, node, b);
      if a + [j] in node {
        assert NodeOk(tables, node, a + [j]);
        assert (a + [j])[..|a + [j]| - 1] == a;
      }
      assert a + [j] != q;
    } else {
      assert NodeOk(tables, node, a) && LinkOk(tables, node, a, j);
      assert node[a] in node.Values && node[a] != pg;
      if a + [j] == q {
        assert a == q[..|q| - 1] == p && j == q[|q| - 1] == i;
      }
      if a + [j] in node {
        assert node[a + [j]] in node.Values;
      }
    }
  }

  lemma GrowLookup(tables: Tables, node: Nodes, p: Path, i: nat, pg: nat, va: nat)
    requires Tree(tables, node) && p in node && |p| < 3 && i < FANOUT && p + [i] !in node && pg !in tables
    ensures var node' := node[p + [i] := pg];
      var tables' := tables[node[p] := tables[node[p]][i := Entry(pg, true, true, true)]][pg := Blank()];
      Lookup(tables', node', va) == Lookup(tables, node, va)
  {
    hide LinkOk, Pml4Index, PdptIndex, PdIndex, PtIndex;
    assert NodeOk(tables, node, p);
    var a := PathOf(va);
    if a in node {
      assert NodeOk(tables, node, a);
      assert node[a] in node.Values && node[a] != pg;
      assert a != p && node[a] != node[p];
    }
  }

  /** Adding an empty table under entry `i` of node `p`. */
  lemma GrowTree(tables: Tables, node: Nodes, p: Path, i: nat, pg: nat)
    requires Tree(tables, node) && p in node && |p| < 3 && i < FANOUT && p + [i] !in node && pg !in tables
    ensures var node' := node[p + [i] := pg];
      var tables' := tables[node[p] := tables[node[p]][i := Entry(pg, true, true, true)]][pg := Blank()];
      Tree(tables', node') && forall va :: Lookup(tables', node', va) == Lookup(tables, node, va)
  {
    hide Pml4Index, PdptIndex, PdIndex, PtIndex, Lookup;
    var q := p + [i];
    var node' := node[q := pg];
    assert NodeOk(tables, node, p);
    var tables' := tables[node[p] := tables[node[p]][i := Entry(pg, true, true, true)]][pg := Blank()];
    assert q[..|q| - 1] == p;
    forall a | a in node ensures node[a] != pg && NodeOk(tables, node, a) {
      assert node[a] in node.Values;
    }
    forall a | a in node' ensures NodeOk(tables', node', a) {}
    assert tables'.Keys == node'.Values by {
      assert tables'.Keys == tables.Keys + {pg};
      forall t | t in node.Values ensures t in node'.Values {
        var a :| a in node && node[a] == t;
        assert a in node' && node'[a] == t;
      }
      assert q in node';
    }
    forall a, j | a in node' && |a| < 3 && 0 <= j < FANOUT ensures LinkOk(tables', node', a, j) {
      GrowLink(tables, node, p, i, pg, a, j);
    }
    forall va ensures Lookup(tables', node', va) == Lookup(tables, node, va) {
      GrowLookup(tables, node, p, i, pg, va);
    }
  }

  /** Setting a leaf changes the translation of its own page and of nothing else. */
  lemma SetLeaf(tables: Tables, node: Nodes, va: nat, e: Entry)
    requires Tree(tables, node) && PathOf(va) in node && va < FANOUT * SZ_512G
    ensures node[PathOf(va)] in tables && |tables[node[PathOf(va)]]| == FANOUT
    ensures var t := node[PathOf(va)];
      var tables' := tables[t := tables[t][PtIndex(va) := e]];
      && Tree(tables', node)
      && forall vb | 0 <= vb < FANOUT * SZ_512G :: Lookup(tables', node, vb) ==
           if vb / PGSIZE == va / PGSIZE then (if e.present then Some(e) else None) else Lookup(tables, node, vb)
  {
    hide Pml4Index, PdptIndex, PdIndex, PtIndex;
    var p := PathOf(va);
    assert NodeOk(tables, node, p);
    var t := node[p];
    var tables' := tables[t := tables[t][PtIndex(va) := e]];
    assert tables'.Keys == tables.Keys;
    forall a | a in node ensures NodeOk(tables', node, a) {
      assert NodeOk(tables, node, a);
    }
    forall a, j | a in node && |a| < 3 && 0 <= j < FANOUT ensures LinkOk(tables', node, a, j) {
      assert NodeOk(tables, node, a) && LinkOk(tables, node, a, j);
      assert node[a] != t;
    }
    forall vb | 0 <= vb < FANOUT * SZ_512G ensures Lookup(tables', node, vb) ==
      if vb / PGSIZE == va / PGSIZE then (if e.present then Some(e) else None) else Lookup(tables, node, vb)
    {
      IndicesDetermine(va, vb);
      if PathOf(vb) in node && PathOf(vb) != p {
        assert node[PathOf(vb)] != t;
      }
    }
  }

  // ------------------------------------------------------------------- subtrees

  ghost predicate Under(q: Path, p: Path)
  {
    |p| <= |q| && q[..|p|] == p
  }

  lemma UnderStep(q: Path, p: Path, i: nat)
    ensures Under(q, p + [i]) <==> |p| < |q| && Under(q, p) && q[|p|] == i
  {
    if |p| < |q| {
      assert q[..|p| + 1] == q[..|p|] + [q[|p|]];
      if Under(q, p + [i]) {
        assert (p + [i])[..|p|] == p && q[..|p| + 1][..|p|] == q[..|p|] && (p + [i])[|p|] == i;
      }
    }
  }

  /** The table pages at and below path `p`. */
  ghost function Below(node: Nodes, p: Path): set<nat>
  {
    set q | q in node && Under(q, p) :: node[q]
  }

  /** Those below the first `i` entries of `p`. */
  ghost function BelowFirst(node: Nodes, p: Path, i: nat): set<nat>
  {
    set q | q in node && |p| < |q| && Under(q, p) && q[|p|] < i :: node[q]
  }

  ghost predicate OnePath(node: Nodes)
  {
    forall p, q | p in node && q in node && node[p] == node[q] :: p == q
  }

  lemma BelowStep(node: Nodes, p: Path, i: nat)
    requires OnePath(node)
    ensures BelowFirst(node, p, i + 1) == BelowFirst(node, p, i) + Below(node, p + [i])
    ensures BelowFirst(node, p, i) !! Below(node, p + [i])
  {
    forall q ensures Under(q, p + [i]) <==> |p| < |q| && Under(q, p) && q[|p|] == i {
      UnderStep(q, p, i);
    }
  }

  lemma {:induction false} PrefixIn(tables: Tables, node: Nodes, q: Path, k: nat)
    requires Tree(tables, node) && q in node && k <= |q|
    ensures q[..k] in node
    decreases |q|
  {
    assert NodeOk(tables, node, q);
    if k < |q| {
      PrefixIn(tables, node, q[..|q| - 1], k);
      assert q[..|q| - 1][..k] == q[..k];
    } else {
      assert q[..k] == q;
    }
  }

  lemma NothingBelow(tables: Tables, node: Nodes, p: Path)
    requires Tree(tables, node) && p !in node
    ensures Below(node, p) == {}
  {
    hide NodeOk, LinkOk;
    forall q | q in node && Under(q, p) ensures false {
      PrefixIn(tables, node, q, |p|);
    }
  }

  lemma BelowAll(tables: Tables, node: Nodes, p: Path)
    requires Tree(tables, node) && p in node
    ensures Below(node, p) == BelowFirst(node, p, FANOUT) + {node[p]}
    ensures node[p] !in BelowFirst(node, p, FANOUT)
    ensures Below(node, p) <= tables.Keys
  {
    hide LinkOk;
    forall q | q in node && Under(q, p) ensures q == p || (|p| < |q| && q[|p|] < FANOUT) {
      if |q| == |p| {
        assert q[..|p|] == q;
      } else {
        PrefixIn(tables, node, q, |p| + 1);
        assert NodeOk(tables, node, q[..|p| + 1]);
      }
    }
    forall q | q in node ensures node[q] in tables.Keys {
      assert node[q] in node.Values;
    }
    assert Under(p, p);
  }

  /** Cutting off everything below entry 0 of the root. */
  ghost function Cut(node: Nodes): Nodes
  {
    map q | q in node && (q == [] || q[0] != 0) :: node[q]
  }

  /** The tables once the subtree of entry 0 is gone and the entry is cleared. */
  ghost function CutTables(tables: Tables, node: Nodes): Tables
    requires [] in node && node[[]] in tables && |tables[node[[]]]| == FANOUT
  {
    (tables - Below(node, [0]))[node[[]] := tables[node[[]]][0 := ZERO]]
  }

  lemma KeptPage(tables: Tables, node: Nodes, q: Path)
    requires Tree(tables, node) && q in Cut(node)
    ensures node[q] !in Below(node, [0]) && node[q] in tables
  {
    hide LinkOk;
    assert NodeOk(tables, node, q);
    forall r | r in node && Under(r, [0]) ensures r != [] && r[0] == 0 {
      assert r[..1][0] == 0;
    }
  }

  lemma CutNode(tables: Tables, node: Nodes, q: Path)
    requires Tree(tables, node) && q in Cut(node)
    ensures [] in node && node[[]] in tables && |tables[node[[]]]| == FANOUT
    ensures NodeOk(CutTables(tables, node), Cut(node), q)
  {
    hide LinkOk;
    assert NodeOk(tables, node, []) && NodeOk(tables, node, q);
    KeptPage(tables, node, q);
    if |q| > 1 {
      assert q[..|q| - 1][0] == q[0];
    }
  }

  lemma CutLink(tables: Tables, node: Nodes, q: Path, i: nat)
    requires Tree(tables, node) && q in Cut(node) && |q| < 3 && i < FANOUT
    ensures [] in node && node[[]] in tables && |tables[node[[]]]| == FANOUT
    ensures NodeOk(CutTables(tables, node), Cut(node), q) && LinkOk(CutTables(tables, node), Cut(node), q, i)
  {
    CutNode(tables, node, q);
    assert NodeOk(tables, node, q) && LinkOk(tables, node, q, i);
    KeptPage(tables, node, q);
    assert (q + [i])[0] == if q == [] then i else q[0];
    if q != [] {
      assert node[q] != node[[]];
    }
  }

  lemma CutKeys(tables: Tables, node: Nodes)
    requires Tree(tables, node)
    ensures [] in node && node[[]] in tables && |tables[node[[]]]| == FANOUT
    ensures CutTables(tables, node).Keys == Cut(node).Values
  {
    hide LinkOk;
    assert NodeOk(tables, node, []);
    var tables', node' := CutTables(tables, node), Cut(node);
    KeptPage(tables, node, []);
    forall q | q in node && q != [] && q[0] == 0 ensures node[q] in Below(node, [0]) {
      assert q[..1] == [0];
    }
    forall q | q in node && q != [] ensures node[q] != node[[]] {}
    forall t | t in tables'.Keys ensures t in node'.Values {
      assert t in node.Values;
      var q :| q in node && node[q] == t;
      assert q in node' && node'[q] == t;
    }
    forall t | t in node'.Values ensures t in tables'.Keys {
      var q :| q in node' && node'[q] == t;
      KeptPage(tables, node, q);
    }
  }

  lemma CutLookup(tables: Tables, node: Nodes, va: nat)
    requires Tree(tables, node)
    ensures [] in node && node[[]] in tables && |tables[node[[]]]| == FANOUT
    ensures Lookup(CutTables(tables, node), Cut(node), va)
         == if Pml4Index(va) == 0 then None else Lookup(tables, node, va)
  {
    hide LinkOk;
    assert NodeOk(tables, node, []);
    var q := PathOf(va);
    if q in node && Pml4Index(va) != 0 {
      KeptPage(tables, node, q);
      assert NodeOk(tables, node, q);
      assert node[q] != node[[]];
    }
  }

  /** Clearing entry 0 forgets exactly the first 512 GB and leaves the kernel half alone. */
  lemma CutTree(tables: Tables, node: Nodes)
    requires Tree(tables, node)
    ensures [] in node && node[[]] in tables && |tables[node[[]]]| == FANOUT && node[[]] !in Below(node, [0])
    ensures Tree(CutTables(tables, node), Cut(node))
    ensures forall va | 0 <= va < FANOUT * SZ_512G ::
      Lookup(CutTables(tables, node), Cut(node), va) == if Pml4Index(va) == 0 then None else Lookup(tables, node, va)
  {
    CutKeys(tables, node);
    KeptPage(tables, node, []);
    var tables', node' := CutTables(tables, node), Cut(node);
    forall q | q in node' ensures NodeOk(tables', node', q) {
      CutNode(tables, node, q);
    }
    forall q, i | q in node' && |q| < 3 && 0 <= i < FANOUT ensures LinkOk(tables', node', q, i) {
      CutLink(tables, node, q, i);
    }
    forall va | 0 <= va < FANOUT * SZ_512G
      ensures Lookup(tables', node', va) == if Pml4Index(va) == 0 then None else Lookup(tables, node, va)
    {
      CutLookup(tables, node, va);
    }
  }
}
