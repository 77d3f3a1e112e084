/** kernel/kalloc.c: the reference-counted core map.

  `Phys` is the value of the physical memory and its counters; `Kalloc` and
  `Kfree` are the two critical sections as functions of it.  `Ledger(ph, m)`
  says that the reference counts are exactly the multiplicities of the multiset
  `m` of claims; every operation moves the ledger by exactly one claim.  The
  class `PhysMem` is the in-place code, proved against the functions. */
module CoreMap {
  import opened Types

  const PGSIZE := 4096

  function Filled(b: Byte): (p: seq<Byte>)
    ensures |p| == PGSIZE
  {
    seq(PGSIZE, i => b)
  }

  type Page = p: seq<Byte> | |p| == PGSIZE witness Filled(0)

  datatype CoreEntry = CoreEntry(available: bool, refCount: nat)

  /** `lo` is the first page handed to freerange: pages below it hold the kernel
      image and the core map itself and are never allocated. */
  datatype Phys = Phys(lo: nat, core: seq<CoreEntry>, data: seq<Page>, freePages: int, pagesInUse: int)

  ghost function FirstAvailable(core: seq<CoreEntry>, from: nat): (i: nat)
    requires from <= |core|
    ensures from <= i <= |core|
    ensures i < |core| ==> core[i].available
    ensures forall j | from <= j < i :: !core[j].available
    decreases |core| - from
  {
    if from == |core| || core[from].available then from else FirstAvailable(core, from + 1)
  }

  /** kalloc: the lowest available page, or nothing. */
  ghost function Kalloc(ph: Phys): (r: (Phys, Option<nat>))
    ensures |r.0.core| == |ph.core| && r.0.data == ph.data
    ensures r.1.Some? ==> r.1.value < |ph.core| && ph.core[r.1.value].available
    ensures r.1.None? ==> r.0 == ph
  {
    var i := FirstAvailable(ph.core, 0);
    if i == |ph.core| then (ph, None)
    else (ph.(core := ph.core[i := CoreEntry(false, 1)],
              pagesInUse := ph.pagesInUse + 1, freePages := ph.freePages - 1), Some(i))
  }

  /** kfree: drop one reference; the page goes back when none is left. */
  ghost function Kfree(ph: Phys, pg: nat): Phys
    requires pg < |ph.core| == |ph.data|
  {
    var e := ph.core[pg];
    var n := if e.refCount > 0 then e.refCount - 1 else 0;
    if n == 0 then
      ph.(core := ph.core[pg := CoreEntry(true, 0)], data := ph.data[pg := Filled(2)],
          pagesInUse := ph.pagesInUse - 1, freePages := ph.freePages + 1)
    else ph.(core := ph.core[pg := e.(refCount := n)])
  }

  /** The `ref_count++` of copy_vpi_page. */
  ghost function Share(ph: Phys, pg: nat): Phys
    requires pg < |ph.core|
  {
    ph.(core := ph.core[pg := ph.core[pg].(refCount := ph.core[pg].refCount + 1)])
  }

  /** The `ref_count--` of the copy-on-write fault, made only when the count exceeds 1. */
  ghost function Unshare(ph: Phys, pg: nat): Phys
    requires pg < |ph.core| && ph.core[pg].refCount > 0
  {
    ph.(core := ph.core[pg := ph.core[pg].(refCount := ph.core[pg].refCount - 1)])
  }

  ghost function Store(ph: Phys, pg: nat, page: Page): Phys
    requires pg < |ph.data|
  {
    ph.(data := ph.data[pg := page])
  }

  // ---------------------------------------------------------------- counting

  ghost function AvailableIn(core: seq<CoreEntry>): nat
  {
    if core == [] then 0
    else AvailableIn(core[..|core| - 1]) + (if core[|core| - 1].available then 1 else 0)
  }

  ghost function AllocatedIn(core: seq<CoreEntry>): nat
  {
    if core == [] then 0
    else AllocatedIn(core[..|core| - 1]) + (if core[|core| - 1].refCount > 0 then 1 else 0)
  }

  lemma {:induction false} CountsAfterUpdate(core: seq<CoreEntry>, i: nat, e: CoreEntry)
    requires i < |core|
    ensures AvailableIn(core[i := e]) ==
      AvailableIn(core) - (if core[i].available then 1 else 0) + (if e.available then 1 else 0)
    ensures AllocatedIn(core[i := e]) ==
      AllocatedIn(core) - (if core[i].refCount > 0 then 1 else 0) + (if e.refCount > 0 then 1 else 0)
  {
    var n := |core| - 1;
    if i == n {
      assert core[i := e][..n] == core[..n];
    } else {
      assert core[i := e][..n] == core[..n][i := e];
      CountsAfterUpdate(core[..n], i, e);
    }
  }

  lemma {:induction false} NoneAvailable(core: seq<CoreEntry>)
    ensures AvailableIn(core) == 0 <==> forall i | 0 <= i < |core| :: !core[i].available
  {
    if core != [] {
      var n := |core| - 1;
      NoneAvailable(core[..n]);
      assert forall i | 0 <= i < n :: core[..n][i] == core[i];
    }
  }

  // ------------------------------------------------------------------ ledger

  /** Below `lo` nothing is ever on loan; above it a page is available exactly when its
      count is 0; the two counters are the numbers of available and allocated pages. */
  ghost predicate PhysOk(ph: Phys)
  {
    && ph.lo <= |ph.core| == |ph.data|
    && (forall i | 0 <= i < ph.lo :: ph.core[i] == CoreEntry(false, 0))
    && (forall i | ph.lo <= i < |ph.core| :: ph.core[i].available <==> ph.core[i].refCount == 0)
    && ph.freePages == AvailableIn(ph.core)
    && ph.pagesInUse == AllocatedIn(ph.core)
  }

  ghost predicate Ledger(ph: Phys, m: multiset<nat>)
  {
    && PhysOk(ph)
    && (forall i | 0 <= i < |ph.core| :: ph.core[i].refCount == m[i])
    && (forall i | i in m :: ph.lo <= i < |ph.core|)
  }

  lemma FreeCount(ph: Phys, m: multiset<nat>)
    requires Ledger(ph, m)
    ensures ph.freePages >= 0
  {
  }

  lemma LedgerShape(ph: Phys, m: multiset<nat>)
    requires Ledger(ph, m)
    ensures |ph.core| == |ph.data|
  {
  }

  lemma LedgerBound(ph: Phys, m: multiset<nat>, pg: nat)
    requires Ledger(ph, m) && pg in m
    ensures pg < |ph.core|
  {
  }

  /** Two memories with the same contents on every page claimed in `m`. */
  ghost predicate SameData(ph: Phys, ph': Phys, m: multiset<nat>)
  {
    && |ph.data| == |ph'.data|
    && ph.lo == ph'.lo
    && forall i | i in m && i < |ph.data| :: ph.data[i] == ph'.data[i]
  }

  lemma KallocLedger(ph: Phys, m: multiset<nat>)
    requires Ledger(ph, m)
    ensures Kalloc(ph).1.None? <==> ph.freePages == 0
    ensures Kalloc(ph).1.None? ==> Kalloc(ph).0 == ph
    ensures Kalloc(ph).1.Some? ==>
      var (ph', pg) := (Kalloc(ph).0, Kalloc(ph).1.value);
      && pg !in m && ph.lo <= pg < |ph.core|
      && Ledger(ph', m + multiset{pg}) && ph'.data == ph.data && ph'.lo == ph.lo
      && ph'.freePages == ph.freePages - 1
  {
    NoneAvailable(ph.core);
    var i := FirstAvailable(ph.core, 0);
    if i < |ph.core| {
      CountsAfterUpdate(ph.core, i, CoreEntry(false, 1));
    }
  }

  lemma KfreeLedger(ph: Phys, m: multiset<nat>, pg: nat)
    requires Ledger(ph, m) && pg in m
    ensures Ledger(Kfree(ph, pg), m - multiset{pg})
    ensures SameData(ph, Kfree(ph, pg), m - multiset{pg})
    ensures Kfree(ph, pg).freePages == ph.freePages + (if m[pg] == 1 then 1 else 0)
  {
    var e := ph.core[pg];
    CountsAfterUpdate(ph.core, pg, if e.refCount == 1 then CoreEntry(true, 0) else e.(refCount := e.refCount - 1));
  }

  lemma ShareLedger(ph: Phys, m: multiset<nat>, pg: nat)
    requires Ledger(ph, m) && pg in m
    ensures Ledger(Share(ph, pg), m + multiset{pg})
  {
    CountsAfterUpdate(ph.core, pg, ph.core[pg].(refCount := ph.core[pg].refCount + 1));
  }

  lemma UnshareLedger(ph: Phys, m: multiset<nat>, pg: nat)
    requires Ledger(ph, m) && m[pg] > 1
    ensures Ledger(Unshare(ph, pg), m - multiset{pg})
  {
    CountsAfterUpdate(ph.core, pg, ph.core[pg].(refCount := ph.core[pg].refCount - 1));
  }

  // -------------------------------------------------- several pages at a time

  ghost function KallocN(ph: Phys, n: nat): (r: (Phys, Option<seq<nat>>))
    ensures r.1.Some? ==> |r.1.value| == n
    decreases n
  {
    if n == 0 then (ph, Some([]))
    else
      var (ph1, pg) := Kalloc(ph);
      if pg.None? then (ph1, None)
      else
        var (ph2, rest) := KallocN(ph1, n - 1);
        if rest.None? then (ph2, None) else (ph2, Some([pg.value] + rest.value))
  }

  ghost predicate InRange(pages: seq<nat>, n: nat)
  {
    forall i | 0 <= i < |pages| :: pages[i] < n
  }

  ghost function KfreeAll(ph: Phys, pages: seq<nat>): (r: Phys)
    requires |ph.core| == |ph.data| && InRange(pages, |ph.core|)
    ensures |r.core| == |r.data| == |ph.core|
    decreases pages
  {
    if pages == [] then ph else KfreeAll(Kfree(ph, pages[0]), pages[1..])
  }

  /** The pages are pairwise distinct and none of them is claimed in `m`. */
  ghost predicate NewPages(m: multiset<nat>, pages: seq<nat>)
  {
    forall i | i in multiset(pages) :: (m + multiset(pages))[i] == 1
  }

  lemma NewPagesCons(m: multiset<nat>, pg: nat, rest: seq<nat>)
    requires pg !in m && NewPages(m + multiset{pg}, rest)
    ensures multiset([pg] + rest) == multiset{pg} + multiset(rest)
    ensures m + multiset([pg] + rest) == m + multiset{pg} + multiset(rest)
    ensures NewPages(m, [pg] + rest)
  {
    assert pg in multiset(rest) ==> (m + multiset{pg} + multiset(rest))[pg] >= 2;
  }

  /** n calls of kalloc succeed exactly when n pages are free; the pages are new and distinct. */
  lemma {:induction false} KallocNLedger(ph: Phys, n: nat, m: multiset<nat>)
    requires Ledger(ph, m)
    ensures KallocN(ph, n).1.Some? <==> n <= ph.freePages
    ensures KallocN(ph, n).1.Some? ==>
      var (ph', pages) := (KallocN(ph, n).0, KallocN(ph, n).1.value);
      && Ledger(ph', m + multiset(pages)) && ph'.data == ph.data && ph'.lo == ph.lo
      && NewPages(m, pages)
      && ph'.freePages == ph.freePages - n
    decreases n
  {
    if n == 0 {
      assert m + multiset([]) == m;
    } else {
      KallocLedger(ph, m);
      var (ph1, pg) := Kalloc(ph);
      if pg.Some? {
        KallocNLedger(ph1, n - 1, m + multiset{pg.value});
        var rest := KallocN(ph1, n - 1).1;
        if rest.Some? {
          NewPagesCons(m, pg.value, rest.value);
        }
      }
    }
  }

  /** Freeing a list of claims removes exactly those claims and disturbs no page still claimed. */
  lemma {:induction false} KfreeAllLedger(ph: Phys, pages: seq<nat>, m: multiset<nat>)
    requires Ledger(ph, m) && multiset(pages) <= m
    ensures InRange(pages, |ph.core|)
    ensures Ledger(KfreeAll(ph, pages), m - multiset(pages))
    ensures SameData(ph, KfreeAll(ph, pages), m - multiset(pages))
    decreases pages
  {
    forall i | 0 <= i < |pages| ensures pages[i] in m {
      assert pages[i] in multiset(pages);
    }
    if pages != [] {
      var pg, rest := pages[0], pages[1..];
      assert multiset(pages) == multiset{pg} + multiset(rest) by {
        assert pages == [pg] + rest;
      }
      var m1 := m - multiset{pg};
      assert m1 - multiset(rest) == m - multiset(pages);
      KfreeLedger(ph, m, pg);
      KfreeAllLedger(Kfree(ph, pg), rest, m1);
    } else {
      assert m - multiset(pages) == m;
    }
  }

  /** Pages that have one claim each all become free. */
  lemma {:induction false} KfreeAllFrees(ph: Phys, pages: seq<nat>, m: multiset<nat>)
    requires Ledger(ph, m) && multiset(pages) <= m && forall x | x in pages :: m[x] == 1
    ensures InRange(pages, |ph.core|) && KfreeAll(ph, pages).freePages == ph.freePages + |pages|
    decreases pages
  {
    KfreeAllLedger(ph, pages, m);
    if pages != [] {
      var pg, rest := pages[0], pages[1..];
      assert multiset(pages) == multiset{pg} + multiset(rest) by { assert pages == [pg] + rest; }
      KfreeLedger(ph, m, pg);
      forall x | x in rest ensures (m - multiset{pg})[x] == 1 {
        assert x in multiset(rest) && x in pages;
        assert multiset(pages)[x] <= m[x];
      }
      KfreeAllFrees(Kfree(ph, pg), rest, m - multiset{pg});
    }
  }

  // ------------------------------------------------------------ the in-place code

  /** What freerange leaves is a map with exactly the managed pages available. */
  lemma {:induction false} FreshCounts(core: seq<CoreEntry>, lo: nat)
    requires forall i | 0 <= i < |core| :: core[i] == CoreEntry(lo <= i, 0)
    ensures AvailableIn(core) == if lo <= |core| then |core| - lo else 0
    ensures AllocatedIn(core) == 0
  {
    if core != [] {
      FreshCounts(core[..|core| - 1], lo);
    }
  }

  class PhysMem {
    const lo: nat
    const coreMap: array<CoreEntry>
    const data: array<Page>
    var freePages: int
    var pagesInUse: int

    ghost predicate Shape()
      reads this
    {
      lo <= coreMap.Length == data.Length
    }

    ghost function Value(): Phys
      reads this, coreMap, data
    {
      Phys(lo, coreMap[..], data[..], freePages, pagesInUse)
    }

    /** mem_init: freerange hands over every page from `lo` on through kfree, and the
        counters are then set outright. */
    constructor MemInit(lo: nat, npages: nat)
      requires lo <= npages
      ensures Shape() && fresh(coreMap) && fresh(data)
      ensures |Value().core| == npages && this.lo == lo
      ensures Ledger(Value(), multiset{})
    {
      this.lo := lo;
      coreMap := new CoreEntry[npages](_ => CoreEntry(false, 0));
      data := new Page[npages](_ => Filled(0));
      freePages := 0;
      pagesInUse := 0;
      new;
      FreeRange(lo, npages);
      freePages := npages - lo;
      pagesInUse := 0;
      FreshCounts(coreMap[..], lo);
    }

    method FreeRange(from: nat, to: nat)
      requires Shape() && from <= to <= coreMap.Length
      requires forall i | from <= i < to :: coreMap[i] == CoreEntry(false, 0)
      modifies this, coreMap, data
      ensures forall i | from <= i < to :: coreMap[i] == CoreEntry(true, 0)
      ensures forall i | 0 <= i < coreMap.Length && !(from <= i < to) :: coreMap[i] == old(coreMap[i])
      ensures freePages == old(freePages) + (to - from) && pagesInUse == old(pagesInUse) - (to - from)
    {
      var p := from;
      while p < to
        invariant from <= p <= to
        invariant forall i | from <= i < p :: coreMap[i] == CoreEntry(true, 0)
        invariant forall i | 0 <= i < coreMap.Length && !(from <= i < p) :: coreMap[i] == old(coreMap[i])
        invariant freePages == old(freePages) + (p - from) && pagesInUse == old(pagesInUse) - (p - from)
      {
        ghost var before := coreMap[..];
        FreePage(p);
        assert coreMap[..][p] == CoreEntry(true, 0);
        assert forall i | 0 <= i < coreMap.Length && i != p :: coreMap[..][i] == before[i];
        p := p + 1;
      }
    }

    method AllocPage() returns (r: Option<nat>)
      requires Shape()
      modifies this, coreMap
      ensures (Value(), r) == Kalloc(old(Value()))
    {
      var i := 0;
      while i < coreMap.Length
        invariant 0 <= i <= coreMap.Length
        invariant FirstAvailable(coreMap[..], 0) == FirstAvailable(coreMap[..], i)
        invariant Value() == old(Value())
      {
        if coreMap[i].available {
          coreMap[i] := CoreEntry(false, 1);
          pagesInUse := pagesInUse + 1;
          freePages := freePages - 1;
          assert coreMap[..] == old(coreMap[..])[i := CoreEntry(false, 1)];
          return Some(i);
        }
        i := i + 1;
      }
      r := None;
    }

    method FreePage(pg: nat)
      requires Shape() && pg < coreMap.Length
      modifies this, coreMap, data
      ensures Value() == Kfree(old(Value()), pg)
    {
      if coreMap[pg].refCount > 0 {
        coreMap[pg] := coreMap[pg].(refCount := coreMap[pg].refCount - 1);
      }
      if coreMap[pg].refCount == 0 {
        pagesInUse := pagesInUse - 1;
        freePages := freePages + 1;
        data[pg] := Filled(2);
        coreMap[pg] := CoreEntry(true, 0);
        assert data[..] == old(data[..])[pg := Filled(2)];
      }
      assert coreMap[..] == old(coreMap[..])[pg := coreMap[pg]];
    }
  }
}
