/** fork (vspacecopy) and reaping (vspacefree). */
module CowFork {
  import opened Types
  import opened CoreMap
  import opened CowSpace
  import opened CowMachine
  import opened CowView
  import opened CowSteps

  // -------------------------------------------------------------- copy_vpi_page

  /** The sharing loop: one more reference for each used slot, in order. */
  ghost function ShareAll(ph: Phys, slots: seq<Vpi>): (r: Phys)
    ensures |r.core| == |ph.core| && r.data == ph.data
  {
    if slots == [] then ph
    else
      var ph1 := ShareAll(ph, slots[..|slots| - 1]);
      var v := slots[|slots| - 1];
      if v.used && v.ppn < |ph1.core| then Share(ph1, v.ppn) else ph1
  }

  ghost function SourceSlot(v: Vpi): Vpi
  {
    if v.used then v.(writable := false, cow := true) else v
  }

  ghost function ChildSlot(v: Vpi): Vpi
  {
    if v.used then Vpi(true, v.present, false, true, v.ppn) else EMPTY
  }

  ghost function MapSlots(f: Vpi -> Vpi, slots: seq<Vpi>): (r: seq<Vpi>)
    ensures |r| == |slots|
  {
    seq(|slots|, i requires 0 <= i < |slots| => f(slots[i]))
  }

  datatype Chunks = Chunks(ph: Phys, pages: seq<nat>)

  /** copy_vpi_page over a list of `n` chunks; it stops at the first chunk it cannot get. */
  ghost function CopyChunks(ph: Phys, slots: seq<Vpi>, n: nat): (r: Chunks)
    requires |slots| == VPIPPAGE * n
    ensures |r.pages| <= n
    decreases n
  {
    if n == 0 then Chunks(ph, [])
    else
      var (ph1, pg) := Kalloc(ph);
      if pg.None? then Chunks(ph1, [])
      else
        var r := CopyChunks(ShareAll(ph1, slots[..VPIPPAGE]), slots[VPIPPAGE..], n - 1);
        Chunks(r.ph, [pg.value] + r.pages)
  }

  lemma {:induction false} ShareAllLedger(ph: Phys, slots: seq<Vpi>, m: multiset<nat>)
    requires Ledger(ph, m) && Named(slots) <= m
    ensures var ph' := ShareAll(ph, slots);
      Ledger(ph', m + Named(slots)) && ph'.lo == ph.lo && ph'.freePages == ph.freePages
  {
    if slots == [] {
      assert m + Named(slots) == m;
    } else {
      var init, v := slots[..|slots| - 1], slots[|slots| - 1];
      ShareAllLedger(ph, init, m);
      assert m + Named(slots) == m + Named(init) + One(v);
      if v.used {
        assert v.ppn in One(v);
        assert v.ppn in m by { assert Named(slots)[v.ppn] <= m[v.ppn]; }
        ShareLedger(ShareAll(ph, init), m + Named(init), v.ppn);
        LedgerBound(ph, m, v.ppn);
      } else {
        assert m + Named(init) + One(v) == m + Named(init);
      }
    }
  }

  lemma CopyParts(m: multiset<nat>, pg: multiset<nat>, head: multiset<nat>, tail: multiset<nat>)
    requires head + tail <= m
    ensures head <= m + pg && tail <= m + pg + head && m + pg <= m + pg + head
  {
  }

  lemma CopyJoin(m: multiset<nat>, pg: nat, pages: seq<nat>, head: multiset<nat>, tail: multiset<nat>)
    ensures m + multiset{pg} + head + multiset(pages) + tail == m + multiset([pg] + pages) + (head + tail)
  {
    assert multiset([pg] + pages) == multiset{pg} + multiset(pages);
  }

  lemma NoSlots(slots: seq<Vpi>)
    requires |slots| == 0
    ensures Named(slots) == multiset{}
  {
  }

  lemma NoNewPages(m: multiset<nat>)
    ensures NewPages(m, [])
  {
  }

  lemma NewPagesSub(m: multiset<nat>, m': multiset<nat>, pages: seq<nat>)
    requires m <= m' && NewPages(m', pages)
    ensures NewPages(m, pages)
  {
  }

  lemma CopyUnroll(ph: Phys, slots: seq<Vpi>, n: nat)
    requires |slots| == VPIPPAGE * n
    ensures var (ph1, pg) := Kalloc(ph);
      CopyChunks(ph, slots, n) ==
        if n == 0 then Chunks(ph, [])
        else if pg.None? then Chunks(ph1, [])
        else
          var r := CopyChunks(ShareAll(ph1, slots[..VPIPPAGE]), slots[VPIPPAGE..], n - 1);
          Chunks(r.ph, [pg.value] + r.pages)
  {
    hide Kalloc, ShareAll;
  }

  /** Copying succeeds exactly when a page is free for every chunk; then each used slot has one
      more reference and the chunk pages are new. */
  lemma {:induction false} CopyChunksLedger(ph: Phys, slots: seq<Vpi>, n: nat, m: multiset<nat>)
    requires Ledger(ph, m) && Named(slots) <= m && |slots| == VPIPPAGE * n
    ensures var c := CopyChunks(ph, slots, n);
      && (|c.pages| == n <==> n <= ph.freePages)
      && (|c.pages| == n ==>
        && Ledger(c.ph, m + multiset(c.pages) + Named(slots)) && NewPages(m, c.pages)
        && c.ph.data == ph.data && c.ph.lo == ph.lo && c.ph.freePages == ph.freePages - n)
    decreases n
  {
    hide Ledger, Named, NewPages, Kalloc, ShareAll, CopyChunks;
    FreeCount(ph, m);
    var c := CopyChunks(ph, slots, n);
    CopyUnroll(ph, slots, n);
    if n == 0 {
      NoSlots(slots);
      NoNewPages(m);
      assert m + multiset([]) + multiset{} == m;
    } else {
      KallocLedger(ph, m);
      var (ph1, pg) := Kalloc(ph);
      if pg.Some? {
        var head, tail := slots[..VPIPPAGE], slots[VPIPPAGE..];
        assert slots == head + tail;
        NamedAppend(head, tail);
        var m1 := m + multiset{pg.value};
        CopyParts(m, multiset{pg.value}, Named(head), Named(tail));
        ShareAllLedger(ph1, head, m1);
        var m2 := m1 + Named(head);
        CopyChunksLedger(ShareAll(ph1, head), tail, n - 1, m2);
        var r := CopyChunks(ShareAll(ph1, head), tail, n - 1);
        if |r.pages| == n - 1 {
          NewPagesSub(m1, m2, r.pages);
          NewPagesCons(m, pg.value, r.pages);
          CopyJoin(m, pg.value, r.pages, Named(head), Named(tail));
        }
      }
    }
  }

  // ------------------------------------------------------------------ vspacecopy

  ghost function SourceRegion(rg: Region, k: nat): Region
    requires k <= |rg.slots|
  {
    rg.(slots := MapSlots(SourceSlot, rg.slots[..k]) + rg.slots[k..])
  }

  ghost function ChildRegion(rg: Region, pages: seq<nat>, k: nat): Region
    requires k <= |rg.slots|
  {
    rg.(chunks := pages, slots := MapSlots(ChildSlot, rg.slots[..k]))
  }

  datatype Copied = Copied(ph: Phys, src: seq<Region>, dst: seq<Region>, ok: bool)

  /** vspacecopy, region by region.  The child's regions start as byte copies of the parent's,
      so those after a failure still hold the parent's own descriptor chunks. */
  ghost function CopyRegions(ph: Phys, regions: seq<Region>): Copied
    requires forall r | 0 <= r < |regions| :: ChunkShape(regions[r])
  {
    if regions == [] then Copied(ph, [], [], true)
    else
      var n := |regions| - 1;
      var rg := regions[n];
      assert ChunkShape(rg);
      var c := CopyRegions(ph, regions[..n]);
      if !c.ok then Copied(c.ph, c.src + [rg], c.dst + [rg], false)
      else
        var d := CopyChunks(c.ph, rg.slots, |rg.chunks|);
        var k := VPIPPAGE * |d.pages|;
        Copied(d.ph, c.src + [SourceRegion(rg, k)], c.dst + [ChildRegion(rg, d.pages, k)], |d.pages| == |rg.chunks|)
  }

  ghost function TotalChunks(regions: seq<Region>): nat
  {
    if regions == [] then 0 else TotalChunks(regions[..|regions| - 1]) + |regions[|regions| - 1].chunks|
  }

  ghost function NamedAll(regions: seq<Region>): multiset<nat>
  {
    if regions == [] then multiset{}
    else NamedAll(regions[..|regions| - 1]) + Named(regions[|regions| - 1].slots)
  }

  /** The child claims each user page as often as the parent does, and new pages once. */
  ghost predicate ChildClaims(regions: seq<Region>, dst: seq<Region>, m: multiset<nat>)
  {
    && (forall x | x in m :: RegionsClaims(dst)[x] == NamedAll(regions)[x])
    && (forall x | x !in m && x in RegionsClaims(dst) :: RegionsClaims(dst)[x] == 1)
  }

  ghost predicate CopiedRegions(regions: seq<Region>, src: seq<Region>, dst: seq<Region>)
  {
    && |src| == |dst| == |regions|
    && forall r | 0 <= r < |regions| ::
      && src[r] == SourceRegion(regions[r], |regions[r].slots|)
      && dst[r] == ChildRegion(regions[r], dst[r].chunks, |regions[r].slots|)
      && |dst[r].chunks| == |regions[r].chunks|
  }

  lemma ChildSlotClaims(slots: seq<Vpi>)
    ensures Named(MapSlots(ChildSlot, slots)) == Named(slots)
    ensures Named(MapSlots(SourceSlot, slots)) == Named(slots)
  {
    hide Named;
    assert forall v :: One(ChildSlot(v)) == One(v) && One(SourceSlot(v)) == One(v);
    NamedSame(MapSlots(ChildSlot, slots), slots);
    NamedSame(MapSlots(SourceSlot, slots), slots);
  }

  lemma ChildClaimsStep(regions: seq<Region>, dst: seq<Region>, rg: Region, rg': Region, m: multiset<nat>)
    requires ChildClaims(regions, dst, m) && Named(rg.slots) <= m
    requires Named(rg'.slots) == Named(rg.slots)
    requires NewPages(m + RegionsClaims(dst), rg'.chunks)
    ensures ChildClaims(regions + [rg], dst + [rg'], m)
  {
    hide Named;
    assert (regions + [rg])[..|regions|] == regions && (dst + [rg'])[..|dst|] == dst;
    var q := RegionsClaims(dst);
    var q' := RegionsClaims(dst + [rg']);
    assert q' == q + (multiset(rg'.chunks) + Named(rg.slots));
    assert NamedAll(regions + [rg]) == NamedAll(regions) + Named(rg.slots);
    forall x | x in m ensures q'[x] == NamedAll(regions + [rg])[x] {
      assert x in multiset(rg'.chunks) ==> (m + q + multiset(rg'.chunks))[x] >= 2;
    }
    forall x | x !in m && x in q' ensures q'[x] == 1 {
      assert Named(rg.slots)[x] <= m[x];
      assert x in multiset(rg'.chunks) ==> (m + q + multiset(rg'.chunks))[x] == 1;
    }
  }

  ghost predicate CopyResult(ph: Phys, regions: seq<Region>, m: multiset<nat>, c: Copied)
  {
    && Ledger(c.ph, m + RegionsClaims(c.dst)) && ChildClaims(regions, c.dst, m)
    && CopiedRegions(regions, c.src, c.dst)
    && c.ph.data == ph.data && c.ph.lo == ph.lo && c.ph.freePages == ph.freePages - TotalChunks(regions)
  }

  lemma LastClaims(dst: seq<Region>, rg': Region, m: multiset<nat>, pages: multiset<nat>, named: multiset<nat>)
    requires multiset(rg'.chunks) == pages && Named(rg'.slots) == named
    ensures m + RegionsClaims(dst + [rg']) == m + RegionsClaims(dst) + pages + named
  {
  }

  lemma LastChunks(regions: seq<Region>, rg: Region)
    ensures TotalChunks(regions + [rg]) == TotalChunks(regions) + |rg.chunks|
  {
  }

  lemma CopyLastRegion(ph: Phys, regions: seq<Region>, rg: Region, m: multiset<nat>, c: Copied)
    requires CopyResult(ph, regions, m, c) && ChunkShape(rg) && RegionClaims(rg) <= m
    ensures var d := CopyChunks(c.ph, rg.slots, |rg.chunks|);
      var k := VPIPPAGE * |d.pages|;
      && (|d.pages| == |rg.chunks| <==> |rg.chunks| <= c.ph.freePages)
      && (|d.pages| == |rg.chunks| ==>
        CopyResult(ph, regions + [rg], m,
          Copied(d.ph, c.src + [SourceRegion(rg, k)], c.dst + [ChildRegion(rg, d.pages, k)], true)))
  {
    hide Ledger, Named, NewPages, RegionsClaims, ChildClaims, CopyChunks, MapSlots;
    var m1 := m + RegionsClaims(c.dst);
    assert Named(rg.slots) <= m <= m1;
    CopyChunksLedger(c.ph, rg.slots, |rg.chunks|, m1);
    var d := CopyChunks(c.ph, rg.slots, |rg.chunks|);
    if |d.pages| == |rg.chunks| {
      var k := VPIPPAGE * |d.pages|;
      assert rg.slots[..k] == rg.slots;
      var rg' := ChildRegion(rg, d.pages, k);
      ChildSlotClaims(rg.slots);
      ChildClaimsStep(regions, c.dst, rg, rg', m);
      LastClaims(c.dst, rg', m, multiset(d.pages), Named(rg.slots));
      LastChunks(regions, rg);
    }
  }

  lemma CopyFree(ph: Phys, regions: seq<Region>, m: multiset<nat>, c: Copied)
    requires CopyResult(ph, regions, m, c)
    ensures c.ph.freePages == ph.freePages - TotalChunks(regions)
  {
  }

  lemma CopyNothing(ph: Phys, m: multiset<nat>)
    requires Ledger(ph, m)
    ensures CopyResult(ph, [], m, Copied(ph, [], [], true))
  {
  }

  /** vspacecopy succeeds exactly when a page is free for every descriptor chunk of the parent. */
  lemma {:induction false} CopyRegionsLedger(ph: Phys, regions: seq<Region>, m: multiset<nat>)
    requires Ledger(ph, m) && RegionsClaims(regions) <= m
    requires forall r | 0 <= r < |regions| :: ChunkShape(regions[r])
    ensures var c := CopyRegions(ph, regions);
      && (c.ok <==> TotalChunks(regions) <= ph.freePages)
      && (c.ok ==> CopyResult(ph, regions, m, c))
  {
    hide Ledger, RegionClaims, CopyResult, CopyChunks;
    FreeCount(ph, m);
    if regions == [] {
      CopyNothing(ph, m);
    } else {
      var n := |regions| - 1;
      assert RegionsClaims(regions[..n]) <= RegionsClaims(regions);
      assert RegionClaims(regions[n]) <= RegionsClaims(regions);
      CopyRegionsLedger(ph, regions[..n], m);
      var c := CopyRegions(ph, regions[..n]);
      if c.ok {
        CopyLastRegion(ph, regions[..n], regions[n], m, c);
        CopyFree(ph, regions[..n], m, c);
        assert regions[..n] + [regions[n]] == regions;
      }
    }
  }

  // ------------------------------------------------------------------------ fork

  /** fork: kernel stack, kernel half of a new table (`kmap` pages), vspacecopy, and the two
      rebuilds that vspacecopy makes when it succeeds.  The caller ignores its result. */
  ghost function Fork(s: State, p: nat, c: nat, kmap: nat, needC: nat, needP: nat): Outcome
    requires Live(s, p) && c < |s.procs| && s.procs[c].None?
    requires forall r | 0 <= r < |s.procs[p].value.regions| :: ChunkShape(s.procs[p].value.regions[r])
  {
    var sp := s.procs[p].value;
    var (ph1, ks) := Kalloc(s.ph);
    if ks.None? then Done(s, Silent)
    else
      var (ph2, kt) := KallocN(ph1, kmap);
      if kt.None? then Stuck
      else
        var copy := CopyRegions(ph2, sp.regions);
        var child := Space(ks.value, kt.value, [], copy.dst, []);
        var parent := sp.(regions := copy.src);
        if !copy.ok then
          Done(s.(ph := copy.ph, procs := s.procs[p := Some(parent)][c := Some(child)]), Forked(p, c))
        else
          var o := Finish(s, c, copy.ph, child, needC, Silent);
          if o.Stuck? then Stuck else Finish(o.s, p, o.s.ph, parent, needP, Forked(p, c))
  }

  /** Enough pages for the kernel stack, the kernel half of the table and every chunk. */
  ghost predicate ForkFits(s: State, p: nat, kmap: nat)
    requires Live(s, p)
  {
    s.ph.freePages >= 1 + kmap + TotalChunks(s.procs[p].value.regions)
  }

  lemma ChunkShapes(s: State, p: nat)
    requires Inv(s) && Live(s, p)
    ensures forall r | 0 <= r < |s.procs[p].value.regions| :: ChunkShape(s.procs[p].value.regions[r])
  {
  }

  /** What the new process claims, before its user table exists. */
  ghost predicate ChildStart(m: multiset<nat>, child: Space, regions: seq<Region>)
  {
    && (forall x | x in m :: Claims(Some(child))[x] == NamedAll(regions)[x])
    && (forall x | x !in m && x in Claims(Some(child)) :: Claims(Some(child))[x] == 1)
  }

  lemma StartClaims(m: multiset<nat>, ks: nat, kt: seq<nat>, dst: seq<Region>, regions: seq<Region>)
    requires ks !in m && NewPages(m + multiset{ks}, kt)
    requires ChildClaims(regions, dst, m + multiset{ks} + multiset(kt)) && NamedAll(regions) <= m
    ensures ChildStart(m, Space(ks, kt, [], dst, []), regions)
    ensures m + Claims(Some(Space(ks, kt, [], dst, []))) == m + multiset{ks} + multiset(kt) + RegionsClaims(dst)
  {
    hide RegionsClaims, NamedAll;
    var k := multiset{ks} + multiset(kt);
    var q, nm := RegionsClaims(dst), NamedAll(regions);
    var cl := Claims(Some(Space(ks, kt, [], dst, [])));
    assert cl == k + q;
    forall x | x in m ensures cl[x] == nm[x] {
      assert x in multiset(kt) ==> (m + multiset{ks} + multiset(kt))[x] >= 2;
      assert x in m + multiset{ks} + multiset(kt);
    }
    forall x | x !in m && x in cl ensures cl[x] == 1 {
      assert nm[x] <= m[x];
      if x in k {
        assert x in multiset(kt) ==> (m + multiset{ks} + multiset(kt))[x] == 1;
        assert x in m + multiset{ks} + multiset(kt);
      }
    }
  }

  lemma {:induction false} NamedAllBelow(regions: seq<Region>)
    ensures NamedAll(regions) <= RegionsClaims(regions)
  {
    if regions != [] {
      NamedAllBelow(regions[..|regions| - 1]);
    }
  }

  lemma OwnRegionsBelow(s: State, p: nat)
    requires Inv(s) && Live(s, p)
    ensures RegionsClaims(s.procs[p].value.regions) <= Claims(s.procs[p]) <= All(s)
  {
    hide Ledger, RegionsClaims, Total;
    RestSplit(s, p, None);
  }

  /** Everything after vspacecopy and before the rebuilds, on success. */
  lemma ForkCopied(s: State, p: nat, c: nat, kmap: nat)
    requires Inv(s) && Live(s, p) && c < |s.procs| && s.procs[c].None? && ForkFits(s, p, kmap)
    requires forall r | 0 <= r < |s.procs[p].value.regions| :: ChunkShape(s.procs[p].value.regions[r])
    ensures Kalloc(s.ph).1.Some? && KallocN(Kalloc(s.ph).0, kmap).1.Some?
    ensures var sp := s.procs[p].value;
      var (ph1, ks) := Kalloc(s.ph);
      var (ph2, kt) := KallocN(ph1, kmap);
      var copy := CopyRegions(ph2, sp.regions);
      var child := Space(ks.value, kt.value, [], copy.dst, []);
      && copy.ok && Ledger(copy.ph, All(s) + Claims(Some(child)))
      && ChildStart(All(s), child, sp.regions) && CopiedRegions(sp.regions, copy.src, copy.dst)
      && copy.ph.data == s.ph.data && copy.ph.lo == s.ph.lo
      && copy.ph.freePages == s.ph.freePages - 1 - kmap - TotalChunks(sp.regions)
  {
    hide Ledger, All, RegionsClaims, Claims, ChildClaims, NewPages, CopiedRegions, TotalChunks, CopyRegions, NamedAll;
    var sp := s.procs[p].value;
    var m := All(s);
    OwnRegionsBelow(s, p);
    KallocLedger(s.ph, m);
    var (ph1, ks) := Kalloc(s.ph);
    KallocNLedger(ph1, kmap, m + multiset{ks.value});
    var (ph2, kt) := KallocN(ph1, kmap);
    var m2 := m + multiset{ks.value} + multiset(kt.value);
    assert RegionsClaims(sp.regions) <= m2;
    CopyRegionsLedger(ph2, sp.regions, m2);
    var copy := CopyRegions(ph2, sp.regions);
    NamedAllBelow(sp.regions);
    StartClaims(m, ks.value, kt.value, copy.dst, sp.regions);
  }

  lemma ForkCopyFails(s: State, p: nat, c: nat, kmap: nat)
    requires Inv(s) && Live(s, p)
    requires s.ph.freePages >= 1 + kmap && !ForkFits(s, p, kmap)
    requires forall r | 0 <= r < |s.procs[p].value.regions| :: ChunkShape(s.procs[p].value.regions[r])
    ensures Kalloc(s.ph).1.Some? && KallocN(Kalloc(s.ph).0, kmap).1.Some?
    ensures !CopyRegions(KallocN(Kalloc(s.ph).0, kmap).0, s.procs[p].value.regions).ok
  {
    hide Ledger, All, RegionsClaims, Claims, CopyRegions, TotalChunks;
    OwnRegionsBelow(s, p);
    var m := All(s);
    KallocLedger(s.ph, m);
    var (ph1, ks) := Kalloc(s.ph);
    KallocNLedger(ph1, kmap, m + multiset{ks.value});
    var (ph2, kt) := KallocN(ph1, kmap);
    var m2 := m + multiset{ks.value} + multiset(kt.value);
    assert RegionsClaims(s.procs[p].value.regions) <= m2;
    CopyRegionsLedger(ph2, s.procs[p].value.regions, m2);
  }

  lemma InvRegions(s: State, p: nat)
    requires Inv(s) && Live(s, p)
    ensures |s.procs[p].value.hw| == |s.procs[p].value.regions| == NREGIONS
  {
    assert ProcOk(s.procs[p], All(s));
  }

  /** When chunks cannot be had, fork still starts the child, but its table translates no address at
      all, and so the child is not a copy of its parent. */
  lemma ForkShortOfMemory(s: State, p: nat, c: nat, kmap: nat, needC: nat, needP: nat)
    requires Inv(s) && Live(s, p) && c < |s.procs| && s.procs[c].None?
    requires s.ph.freePages >= 1 + kmap && !ForkFits(s, p, kmap)
    ensures forall r | 0 <= r < |s.procs[p].value.regions| :: ChunkShape(s.procs[p].value.regions[r])
    ensures var o := Fork(s, p, c, kmap, needC, needP);
      && o.Done? && o.did == Forked(p, c) && Live(o.s, c)
      && (forall va :: CowRead(o.s, c, va).None?)
      && Applies(View(s), o.did) && View(o.s) != Apply(View(s), o.did)
  {
    hide Inv, CopyRegions, TotalChunks, ForkFits, KallocN, Kalloc;
    ChunkShapes(s, p);
    ForkCopyFails(s, p, c, kmap);
    var o := Fork(s, p, c, kmap, needC, needP);
    assert Live(o.s, c) && o.s.procs[c].value.hw == [];
    assert SpaceView([], o.s.ph) == [];
    assert View(o.s)[c] == Some([]);
    assert Apply(View(s), o.did)[c] == View(s)[p];
    assert |View(s)[p].value| == NREGIONS by { InvRegions(s, p); }
  }

  // ------------------------------------------------- after the copy nobody may write

  ghost predicate ReadOnly(regions: seq<Region>)
  {
    forall r, k | 0 <= r < |regions| && 0 <= k < |regions[r].slots| ::
      regions[r].slots[k].used ==> !regions[r].slots[k].writable
  }

  lemma {:induction false} ChunkAboveNamed(regions: seq<Region>, r: nat, x: nat)
    requires r < |regions| && x in regions[r].chunks
    ensures NamedAll(regions)[x] < RegionsClaims(regions)[x]
  {
    hide Named;
    var n := |regions| - 1;
    if r == n {
      NamedAllBelow(regions[..n]);
      assert NamedAll(regions[..n])[x] <= RegionsClaims(regions[..n])[x];
      assert x in multiset(regions[n].chunks);
    } else {
      ChunkAboveNamed(regions[..n], r, x);
    }
  }

  /** A space that may write nothing owns its kernel pages only. */
  lemma ReadOnlyOwns(sp: Space, x: nat)
    requires Owns(sp, x) && ReadOnly(sp.regions)
    ensures NamedAll(sp.regions)[x] < Claims(Some(sp))[x]
  {
    hide NamedAll, RegionsClaims;
    NamedAllBelow(sp.regions);
    assert NamedAll(sp.regions)[x] <= RegionsClaims(sp.regions)[x];
    if x != sp.kstack && x !in sp.kernTables && x !in sp.userTables {
      var r :| 0 <= r < |sp.regions| && RegionOwns(sp.regions[r], x);
      ChunkAboveNamed(sp.regions, r, x);
    }
  }

  /** Same place, same pages, used in the same slots, none of them writable. */
  ghost predicate SameSlots(rg: Region, rg': Region)
  {
    && (rg'.down, rg'.base, rg'.size) == (rg.down, rg.base, rg.size) && |rg'.slots| == |rg.slots|
    && forall k | 0 <= k < |rg.slots| ::
      rg'.slots[k].used == rg.slots[k].used && rg'.slots[k].ppn == rg.slots[k].ppn
      && rg'.slots[k].present == rg.slots[k].present && !rg'.slots[k].writable
  }

  lemma CopiedRegion(rg: Region, src: Region, dst: Region)
    requires RegionShape(rg)
    requires src == SourceRegion(rg, |rg.slots|) && dst == ChildRegion(rg, dst.chunks, |rg.slots|)
    requires |dst.chunks| == |rg.chunks|
    ensures RegionShape(src) && RegionShape(dst) && SameSlots(rg, src) && SameSlots(rg, dst)
    ensures src.chunks == rg.chunks
  {
    assert rg.slots[..|rg.slots|] == rg.slots;
    forall k | 0 <= k < |rg.slots|
      ensures src.slots[k] == SourceSlot(rg.slots[k]) && dst.slots[k] == ChildSlot(rg.slots[k])
      ensures SlotShape(rg.slots[k], k < Backed(rg.size))
    {
    }
  }

  lemma CopiedFacts(regions: seq<Region>, src: seq<Region>, dst: seq<Region>)
    requires RegionsShape(regions) && CopiedRegions(regions, src, dst)
    ensures RegionsShape(src) && ReadOnly(src) && RegionsShape(dst) && ReadOnly(dst)
    ensures forall r | 0 <= r < |regions| :: SameSlots(regions[r], src[r]) && SameSlots(regions[r], dst[r])
    ensures forall r | 0 <= r < |regions| :: src[r].chunks == regions[r].chunks
  {
    forall r | 0 <= r < |regions|
      ensures RegionShape(src[r]) && RegionShape(dst[r])
      ensures SameSlots(regions[r], src[r]) && SameSlots(regions[r], dst[r])
      ensures src[r].chunks == regions[r].chunks && src[r].down == regions[r].down == dst[r].down
    {
      CopiedRegion(regions[r], src[r], dst[r]);
    }
    forall r, k | 0 <= r < |src| && 0 <= k < |src[r].slots| && src[r].slots[k].used ensures !src[r].slots[k].writable {
      assert SameSlots(regions[r], src[r]);
    }
    forall r, k | 0 <= r < |dst| && 0 <= k < |dst[r].slots| && dst[r].slots[k].used ensures !dst[r].slots[k].writable {
      assert SameSlots(regions[r], dst[r]);
    }
  }

  lemma {:induction false} SameClaims(a: seq<Region>, b: seq<Region>)
    requires |a| == |b| && forall r | 0 <= r < |a| :: SameSlots(a[r], b[r])
    ensures NamedAll(a) == NamedAll(b)
    ensures (forall r | 0 <= r < |a| :: a[r].chunks == b[r].chunks) ==> RegionsClaims(a) == RegionsClaims(b)
  {
    if a != [] {
      var n := |a| - 1;
      SameClaims(a[..n], b[..n]);
      NamedSame(a[n].slots, b[n].slots);
    }
  }

  lemma SameSlotsView(a: seq<Region>, b: seq<Region>, ph: Phys)
    requires |a| == |b| && forall r | 0 <= r < |a| :: RegionShape(a[r]) && SameSlots(a[r], b[r])
    ensures SpaceView(InstallAll(a), ph) == SpaceView(InstallAll(b), ph)
  {
    forall r | 0 <= r < |a| ensures MappingView(InstallAll(a)[r], ph) == MappingView(InstallAll(b)[r], ph) {
      assert RegionShape(a[r]) && SameSlots(a[r], b[r]);
    }
  }

  lemma ChildExclusive(m: multiset<nat>, child: Space, regions: seq<Region>)
    requires ChildStart(m, child, regions) && ReadOnly(child.regions) && NamedAll(child.regions) == NamedAll(regions)
    ensures Exclusive(child, m + Claims(Some(child)))
  {
    hide Claims, NamedAll, Owns;
    forall x | Owns(child, x) ensures (m + Claims(Some(child)))[x] == 1 {
      ReadOnlyOwns(child, x);
      OwnsClaimed(child, x);
    }
  }

  lemma ParentExclusive(m: multiset<nat>, sp: Space, parent: Space, child: Space)
    requires ChildStart(m, child, sp.regions) && Exclusive(sp, m) && Claims(Some(sp)) <= m
    requires ReadOnly(parent.regions) && parent == sp.(regions := parent.regions)
    requires NamedAll(parent.regions) == NamedAll(sp.regions) && Claims(Some(parent)) == Claims(Some(sp))
    requires forall x | Owns(parent, x) :: Owns(sp, x)
    ensures forall x | Owns(parent, x) :: x in m && (m + Claims(Some(child)))[x] == 1
  {
    hide Claims, NamedAll, Owns;
    forall x | Owns(parent, x) ensures x in m && (m + Claims(Some(child)))[x] == 1 {
      ReadOnlyOwns(parent, x);
      assert m[x] == 1;
      assert Claims(Some(sp))[x] <= m[x];
    }
  }

  lemma ParentOwns(sp: Space, parent: Space, x: nat)
    requires parent == sp.(regions := parent.regions) && |parent.regions| == |sp.regions|
    requires forall r | 0 <= r < |sp.regions| :: parent.regions[r].chunks == sp.regions[r].chunks
    requires ReadOnly(parent.regions) && Owns(parent, x)
    ensures Owns(sp, x)
  {
  }

  /** The facts about a fork between the copy and the two rebuilds. */
  ghost predicate ForkMiddle(s: State, p: nat, ph: Phys, child: Space, parent: Space)
    requires Live(s, p)
  {
    var sp := s.procs[p].value;
    var m := All(s);
    && Ledger(ph, m + Claims(Some(child))) && Exclusive(child, m + Claims(Some(child))) && RegionsShape(child.regions)
    && parent == sp.(regions := parent.regions) && RegionsShape(parent.regions)
    && Claims(Some(parent)) == Claims(Some(sp))
    && (forall x | Owns(parent, x) :: x in m && (m + Claims(Some(child)))[x] == 1)
    && Gentle(m, m + Claims(Some(child)), Rest(s, p))
    && ph.data == s.ph.data && ph.lo == s.ph.lo
    && (forall ph' :: SpaceView(InstallAll(child.regions), ph') == SpaceView(sp.hw, ph'))
    && (forall ph' :: SpaceView(InstallAll(parent.regions), ph') == SpaceView(sp.hw, ph'))
  }

  lemma ChildGentle(m: multiset<nat>, rest: multiset<nat>, own: multiset<nat>, child: Space, regions: seq<Region>)
    requires ChildStart(m, child, regions) && m == rest + own && NamedAll(regions) <= own
    ensures Gentle(m, m + Claims(Some(child)), rest)
  {
  }

  lemma CopiedView(sp: Space, src: seq<Region>, dst: seq<Region>)
    requires SpaceShape(sp) && CopiedRegions(sp.regions, src, dst)
    ensures forall ph' :: SpaceView(InstallAll(dst), ph') == SpaceView(sp.hw, ph')
    ensures forall ph' :: SpaceView(InstallAll(src), ph') == SpaceView(sp.hw, ph')
  {
    hide CopiedRegions, RegionShape, SameSlots, ReadOnly, SpaceView, InstallAll;
    CopiedFacts(sp.regions, src, dst);
    forall ph'
      ensures SpaceView(InstallAll(dst), ph') == SpaceView(sp.hw, ph')
      ensures SpaceView(InstallAll(src), ph') == SpaceView(sp.hw, ph')
    {
      SameSlotsView(sp.regions, dst, ph');
      SameSlotsView(sp.regions, src, ph');
    }
  }

  lemma ForkMiddleHolds(s: State, p: nat, ph: Phys, child: Space, parent: Space)
    requires Inv(s) && Live(s, p)
    requires parent == s.procs[p].value.(regions := parent.regions)
    requires Ledger(ph, All(s) + Claims(Some(child))) && ph.data == s.ph.data && ph.lo == s.ph.lo
    requires ChildStart(All(s), child, s.procs[p].value.regions)
    requires CopiedRegions(s.procs[p].value.regions, parent.regions, child.regions)
    ensures ForkMiddle(s, p, ph, child, parent)
  {
    hide Ledger, ChildStart, CopiedRegions, RegionShape, SameSlots, ReadOnly, Total, SpaceView, RegionsClaims,
      NamedAll, Owns, Rest, Gentle, InstallAll, Exclusive;
    var sp := s.procs[p].value;
    var m := All(s);
    RestAndOwn(s, p);
    CopiedFacts(sp.regions, parent.regions, child.regions);
    SameClaims(sp.regions, parent.regions);
    SameClaims(sp.regions, child.regions);
    ChildExclusive(m, child, sp.regions);
    forall x | Owns(parent, x) ensures Owns(sp, x) { ParentOwns(sp, parent, x); }
    OwnRegionsBelow(s, p);
    ParentExclusive(m, sp, parent, child);
    NamedAllBelow(sp.regions);
    ChildGentle(m, Rest(s, p), Claims(s.procs[p]), child, sp.regions);
    CopiedView(sp, parent.regions, child.regions);
  }

  lemma RegroupFork(b: multiset<nat>, t: multiset<nat>, cp: multiset<nat>, cc: multiset<nat>, cn: multiset<nat>)
    requires cp <= t
    ensures b + (t + cc - cp + cn) == b + t - cp + cc + cn
  {
  }

  lemma TwoUpdates(s: State, p: nat, c: nat, child: Space, parent: Space)
    requires p < |s.procs| && c < |s.procs| && p != c && s.procs[c].None?
    ensures All(s.(procs := s.procs[c := Some(child)][p := Some(parent)]))
      == Rest(s, p) + Claims(Some(child)) + Claims(Some(parent))
    ensures s.boot <= Rest(s, p)
  {
    hide Claims, Total;
    RestSplit(s, p, None);
    TotalUpdate(s.procs, c, Some(child));
    var procs1 := s.procs[c := Some(child)];
    TotalUpdate(procs1, p, Some(parent));
    ClaimsNone();
    var t, cp, cc, cn := Total(s.procs), Claims(s.procs[p]), Claims(Some(child)), Claims(Some(parent));
    TotalUpdate(s.procs, p, None);
    assert Total(procs1) == t + cc;
    RegroupFork(s.boot, t, cp, cc, cn);
  }

  /** Two processes replaced at once: the invariant and the view of the result. */
  lemma ForkInv(s: State, p: nat, c: nat, ph: Phys, child: Space, parent: Space)
    requires Inv(s) && Live(s, p) && c < |s.procs| && p != c && s.procs[c].None?
    requires var m := Rest(s, p) + Claims(Some(child)) + Claims(Some(parent));
      && Ledger(ph, m) && ProcOk(Some(child), m) && ProcOk(Some(parent), m) && Gentle(All(s), m, Rest(s, p))
    ensures Inv(s.(ph := ph, procs := s.procs[c := Some(child)][p := Some(parent)]))
  {
    hide Ledger, Claims, Rest, ProcOk, Total;
    var s' := s.(ph := ph, procs := s.procs[c := Some(child)][p := Some(parent)]);
    TwoUpdates(s, p, c, child, parent);
    assert All(s') == All(s.(procs := s'.procs));
    forall i | 0 <= i < |s'.procs| ensures ProcOk(s'.procs[i], All(s')) {
      if i != p && i != c {
        OtherClaims(s, p, i);
        ProcFrame(s.procs[i], All(s), All(s'), Rest(s, p));
      }
    }
    forall pg | pg in s'.boot ensures All(s')[pg] == 1 {
      assert pg in Rest(s, p);
    }
  }

  lemma ForkView(s: State, p: nat, c: nat, ph: Phys, child: Space, parent: Space)
    requires Inv(s) && Live(s, p) && c < |s.procs| && p != c && s.procs[c].None?
    requires SameData(s.ph, ph, Rest(s, p))
    requires SpaceView(child.hw, ph) == SpaceView(s.procs[p].value.hw, s.ph)
    requires SpaceView(parent.hw, ph) == SpaceView(s.procs[p].value.hw, s.ph)
    ensures View(s.(ph := ph, procs := s.procs[c := Some(child)][p := Some(parent)])) == Apply(View(s), Forked(p, c))
  {
    hide Ledger, Claims, Rest, SpaceView, SpaceShape;
    var s' := s.(ph := ph, procs := s.procs[c := Some(child)][p := Some(parent)]);
    forall i | 0 <= i < |s.procs| && i != p && i != c ensures View(s')[i] == View(s)[i] {
      OtherClaims(s, p, i);
      assert ProcOk(s.procs[i], All(s));
      ProcFrameView(s.procs[i], s.ph, ph, Rest(s, p));
    }
    assert View(s')[p] == View(s)[p] && View(s')[c] == View(s)[p];
  }

  lemma ForkedApplies(s: State, p: nat, c: nat)
    requires Live(s, p) && c < |s.procs| && s.procs[c].None?
    ensures Applies(View(s), Forked(p, c))
  {
  }

  lemma GentleAt(m: multiset<nat>, m': multiset<nat>, rest: multiset<nat>, x: nat)
    requires Gentle(m, m', rest) && x in rest && m[x] == 1
    ensures m'[x] == 1
  {
  }

  lemma GentlePart(m: multiset<nat>, m': multiset<nat>, rest: multiset<nat>, part: multiset<nat>)
    requires Gentle(m, m', rest) && part <= rest
    ensures Gentle(m, m', part)
  {
  }

  lemma RebuiltHw(ph: Phys, sp: Space, need: nat)
    requires |ph.core| == |ph.data| && InRange(sp.userTables, |ph.core|) && Rebuild(ph, sp, need).Some?
    ensures Rebuild(ph, sp, need).value.1.hw == InstallAll(sp.regions)
  {
  }

  lemma ParentFrame(parent: Space, ph: Phys, ph5: Phys, m: multiset<nat>)
    requires RegionsShape(parent.regions) && RegionsClaims(parent.regions) <= m && SameData(ph, ph5, m)
    ensures SpaceView(InstallAll(parent.regions), ph) == SpaceView(InstallAll(parent.regions), ph5)
  {
    hide SameData, RegionsClaims, RegionShape, SpaceView, InstallAll;
    SpaceFrame(parent.regions, ph, ph5, m);
  }

  /** Pages claimed before the fork keep their contents through both rebuilds. */
  lemma ForkData(s: State, p: nat, ph: Phys, ph4: Phys, ph5: Phys, child: Space, parent: Space, rest2: multiset<nat>)
    requires Inv(s) && Live(s, p) && ForkMiddle(s, p, ph, child, parent)
    requires SameData(ph, ph4, All(s) + BesideTables(child))
    requires Rest(s, p) <= rest2 && SameData(ph4, ph5, rest2 + BesideTables(parent))
    ensures SameData(s.ph, ph5, Rest(s, p))
    ensures SpaceView(InstallAll(child.regions), ph5) == SpaceView(s.procs[p].value.hw, s.ph)
    ensures SpaceView(InstallAll(parent.regions), ph5) == SpaceView(s.procs[p].value.hw, s.ph)
  {
    hide Ledger, Rest, SameData, RegionsClaims, SpaceView, InstallAll, Total, SpaceShape, Exclusive, Owns;
    var m, rest, sp := All(s), Rest(s, p), s.procs[p].value;
    RestAndOwn(s, p);
    SameDataEq(s.ph, ph, m);
    SameDataPart(ph, ph4, m + BesideTables(child), m);
    SameDataShrink(s.ph, ph, ph4, m, m);
    var part := rest + RegionsClaims(parent.regions);
    assert RegionsClaims(parent.regions) <= Claims(Some(parent)) == Claims(Some(sp));
    assert part <= m;
    assert part <= rest2 + BesideTables(parent);
    SameDataPart(ph4, ph5, rest2 + BesideTables(parent), part);
    SameDataShrink(s.ph, ph4, ph5, m, part);
    SameDataPart(s.ph, ph5, part, rest);
    ParentFrame(parent, s.ph, ph5, part);
  }

  /** The two rebuilds at the end of vspacecopy. */
  lemma ForkRebuilds(s: State, p: nat, c: nat, ph: Phys, child: Space, parent: Space, needC: nat, needP: nat)
    requires Inv(s) && Live(s, p) && c < |s.procs| && p != c && s.procs[c].None?
    requires ForkMiddle(s, p, ph, child, parent)
    ensures var o := Finish(s, c, ph, child, needC, Silent);
      o.Done? ==> Refines(s, Finish(o.s, p, o.s.ph, parent, needP, Forked(p, c)))
  {
    hide Ledger, Claims, Rest, SameData, Gentle, BesideTables, RegionsShape, Owns, SpaceView, InstallAll, Total,
      Rebuild, Inv, View, SpaceShape;
    var m, rest, sp := All(s), Rest(s, p), s.procs[p].value;
    RestAndOwn(s, p);
    RebuildProc(ph, child, needC, m);
    var o := Finish(s, c, ph, child, needC, Silent);
    if o.Done? {
      var (ph4, child1) := Rebuild(ph, child, needC).value;
      var rest2 := rest + Claims(Some(child1));
      assert rest2 + Claims(Some(parent)) == m + Claims(Some(child1));
      forall x | Owns(parent, x) ensures (rest2 + Claims(Some(parent)))[x] == 1 {
        GentleAt(m + Claims(Some(child)), m + Claims(Some(child1)), m, x);
      }
      RebuildProc(ph4, parent, needP, rest2);
      var o2 := Finish(o.s, p, o.s.ph, parent, needP, Forked(p, c));
      if o2.Done? {
        var (ph5, parent2) := Rebuild(ph4, parent, needP).value;
        var m5 := rest2 + Claims(Some(parent2));
        ProcFrame(Some(child1), m + Claims(Some(child1)), m5, rest2);
        GentlePart(m + Claims(Some(child)), m + Claims(Some(child1)), m, rest);
        GentlePart(m + Claims(Some(child1)), m5, rest2, rest);
        GentleTrans(m, m + Claims(Some(child)), m + Claims(Some(child1)), rest);
        GentleTrans(m, m + Claims(Some(child1)), m5, rest);
        ForkInv(s, p, c, ph5, child1, parent2);
        ForkData(s, p, ph, ph4, ph5, child, parent, rest2);
        RebuiltHw(ph, child, needC);
        RebuiltHw(ph4, parent, needP);
        ForkView(s, p, c, ph5, child1, parent2);
        assert Put(o.s, p, ph5, parent2) == s.(ph := ph5, procs := s.procs[c := Some(child1)][p := Some(parent2)]);
        ForkedApplies(s, p, c);
      }
    }
  }

  /** With a page for every chunk, fork gives the child what an eager copy would give it. */
  lemma ForkWithMemory(s: State, p: nat, c: nat, kmap: nat, needC: nat, needP: nat)
    requires Inv(s) && Live(s, p) && c < |s.procs| && s.procs[c].None? && ForkFits(s, p, kmap)
    ensures forall r | 0 <= r < |s.procs[p].value.regions| :: ChunkShape(s.procs[p].value.regions[r])
    ensures Refines(s, Fork(s, p, c, kmap, needC, needP))
    ensures Fork(s, p, c, kmap, needC, needP).Done? ==> Fork(s, p, c, kmap, needC, needP).did == Forked(p, c)
  {
    hide Ledger, All, Claims, CopyRegions, ForkMiddle, ChildStart, CopiedRegions, Kalloc, KallocN, Inv, Refines,
      ForkFits, Rebuild;
    ChunkShapes(s, p);
    ForkCopied(s, p, c, kmap);
    StuckRefines(s);
    var sp := s.procs[p].value;
    var (ph1, ks) := Kalloc(s.ph);
    var (ph2, kt) := KallocN(ph1, kmap);
    var copy := CopyRegions(ph2, sp.regions);
    var child := Space(ks.value, kt.value, [], copy.dst, []);
    var parent := sp.(regions := copy.src);
    ForkMiddleHolds(s, p, copy.ph, child, parent);
    ForkRebuilds(s, p, c, copy.ph, child, parent, needC, needP);
  }

  /** What fork needs to keep its promise: all its pages, or too few even for the kernel's part. */
  ghost predicate ForkKeeps(s: State, p: nat, kmap: nat)
    requires Live(s, p)
  {
    ForkFits(s, p, kmap) || s.ph.freePages < 1 + kmap
  }

  lemma ForkFailsCleanly(s: State, p: nat, c: nat, kmap: nat, needC: nat, needP: nat)
    requires Inv(s) && Live(s, p) && c < |s.procs| && s.procs[c].None? && s.ph.freePages < 1 + kmap
    ensures forall r | 0 <= r < |s.procs[p].value.regions| :: ChunkShape(s.procs[p].value.regions[r])
    ensures Fork(s, p, c, kmap, needC, needP) == if s.ph.freePages == 0 then Done(s, Silent) else Stuck
  {
    hide Ledger, All, CopyRegions, KallocN, Kalloc;
    ChunkShapes(s, p);
    FreeCount(s.ph, All(s));
    KallocLedger(s.ph, All(s));
    var (ph1, ks) := Kalloc(s.ph);
    if ks.Some? { KallocNLedger(ph1, kmap, All(s) + multiset{ks.value}); }
  }

  /** fork gives the child a copy of its parent, returns -1 or panics exactly when a page is free for every
      chunk, or not even for the kernel's own part; in between it starts a child without memory. */
  lemma ForkRefines(s: State, p: nat, c: nat, kmap: nat, needC: nat, needP: nat)
    requires Inv(s) && Live(s, p) && c < |s.procs| && s.procs[c].None?
    ensures forall r | 0 <= r < |s.procs[p].value.regions| :: ChunkShape(s.procs[p].value.regions[r])
    ensures Refines(s, Fork(s, p, c, kmap, needC, needP)) <==> ForkKeeps(s, p, kmap)
  {
    hide Inv, CopyRegions, ForkFits, KallocN, Kalloc, View;
    ChunkShapes(s, p);
    if ForkFits(s, p, kmap) {
      ForkWithMemory(s, p, c, kmap, needC, needP);
    } else if s.ph.freePages >= 1 + kmap {
      ForkShortOfMemory(s, p, c, kmap, needC, needP);
    } else {
      ForkFailsCleanly(s, p, c, kmap, needC, needP);
    }
  }

  // ------------------------------------------------------------------------ reaping

  ghost function ChunkPages(regions: seq<Region>): seq<nat>
  {
    if regions == [] then [] else ChunkPages(regions[..|regions| - 1]) + regions[|regions| - 1].chunks
  }

  function PtePages(ptes: seq<Pte>): seq<nat>
  {
    if ptes == [] then []
    else PtePages(ptes[..|ptes| - 1]) + (if ptes[|ptes| - 1].present then [ptes[|ptes| - 1].ppn] else [])
  }

  function MappedPages(hw: seq<Mapping>): seq<nat>
  {
    if hw == [] then [] else MappedPages(hw[..|hw| - 1]) + PtePages(hw[|hw| - 1].ptes)
  }

  /** The order of vspacefree and wait: descriptor chunks, then every page the table still
      maps, then the tables, then the kernel stack. */
  ghost function ReapList(sp: Space): seq<nat>
  {
    ChunkPages(sp.regions) + MappedPages(sp.hw) + sp.userTables + sp.kernTables + [sp.kstack]
  }

  ghost function Reap(s: State, p: nat): Outcome
    requires Live(s, p)
  {
    var sp := s.procs[p].value;
    if |s.ph.core| == |s.ph.data| && InRange(ReapList(sp), |s.ph.core|) then
      Done(s.(ph := KfreeAll(s.ph, ReapList(sp)), procs := s.procs[p := None]), Reaped(p))
    else Stuck
  }

  lemma {:induction false} PtePagesNamed(slots: seq<Vpi>, ptes: seq<Pte>)
    requires |ptes| == |slots|
    requires forall k | 0 <= k < |ptes| :: slots[k].used && slots[k].present && ptes[k] == PteOf(slots[k])
    ensures multiset(PtePages(ptes)) == Named(slots)
  {
    if ptes != [] {
      var n := |ptes| - 1;
      PtePagesNamed(slots[..n], ptes[..n]);
      assert multiset(PtePages(ptes[..n]) + [ptes[n].ppn]) == multiset(PtePages(ptes[..n])) + multiset{ptes[n].ppn};
    }
  }

  lemma NamedPrefix(slots: seq<Vpi>, n: nat)
    requires n <= |slots| && forall k | n <= k < |slots| :: !slots[k].used
    ensures Named(slots[..n]) == Named(slots)
  {
    assert slots == slots[..n] + slots[n..];
    NamedAppend(slots[..n], slots[n..]);
    NamedNothing(slots[n..]);
  }

  /** The table of a region maps exactly the pages its slots name. */
  lemma InstallNames(rg: Region)
    requires RegionShape(rg)
    ensures multiset(PtePages(Install(rg).ptes)) == Named(rg.slots)
  {
    hide Named, PtePages, Aligned, ChunkShape;
    var n := Backed(rg.size);
    forall k | 0 <= k < |rg.slots| ensures SlotShape(rg.slots[k], k < n) {}
    PtePagesNamed(rg.slots[..n], Install(rg).ptes);
    NamedPrefix(rg.slots, n);
  }

  lemma RegroupPairs(a: multiset<nat>, b: multiset<nat>, c: multiset<nat>, d: multiset<nat>)
    ensures (a + c) + (b + d) == (a + b) + (c + d)
  {
  }

  lemma {:induction false} MappedNames(regions: seq<Region>)
    requires forall r | 0 <= r < |regions| :: RegionShape(regions[r])
    ensures multiset(ChunkPages(regions)) + multiset(MappedPages(InstallAll(regions))) == RegionsClaims(regions)
  {
    hide RegionShape, Install, Named, PtePages;
    if regions != [] {
      var n := |regions| - 1;
      assert InstallAll(regions)[..n] == InstallAll(regions[..n]);
      MappedNames(regions[..n]);
      InstallNames(regions[n]);
      var a, b := ChunkPages(regions[..n]), MappedPages(InstallAll(regions[..n]));
      var c, d := regions[n].chunks, PtePages(Install(regions[n]).ptes);
      assert multiset(a + c) == multiset(a) + multiset(c);
      assert multiset(b + d) == multiset(b) + multiset(d);
      RegroupPairs(multiset(a), multiset(b), multiset(c), multiset(d));
    }
  }

  /** Teardown drops each claim of the process exactly once. */
  lemma ReapListClaims(sp: Space)
    requires SpaceShape(sp)
    ensures multiset(ReapList(sp)) == Claims(Some(sp))
  {
    hide RegionShape, ChunkPages, MappedPages, RegionsClaims;
    MappedNames(sp.regions);
    var a, b := ChunkPages(sp.regions), MappedPages(sp.hw);
    var k := sp.userTables + sp.kernTables + [sp.kstack];
    assert ReapList(sp) == a + b + k;
    assert multiset(k) == multiset(sp.userTables) + multiset(sp.kernTables) + multiset{sp.kstack};
    assert multiset(a + b + k) == multiset(a) + multiset(b) + multiset(k);
  }

  lemma ReapGentle(rest: multiset<nat>, own: multiset<nat>)
    ensures Gentle(rest + own, rest, rest)
    ensures rest + own - own == rest && own <= rest + own && rest + multiset{} == rest
  {
  }

  lemma ReapRefines(s: State, p: nat)
    requires Inv(s) && Live(s, p)
    ensures Reap(s, p).Done? && Refines(s, Reap(s, p))
  {
    hide Ledger, Claims, Rest, SameData, ReapList, SpaceView, Total, SpaceShape, Exclusive;
    var sp, rest := s.procs[p].value, Rest(s, p);
    RestAndOwn(s, p);
    ReapListClaims(sp);
    ReapGentle(rest, Claims(s.procs[p]));
    KfreeAllLedger(s.ph, ReapList(sp), All(s));
    LedgerShape(s.ph, All(s));
    ClaimsNone();
    var ph' := KfreeAll(s.ph, ReapList(sp));
    UpdateInv(s, p, None, ph');
    ViewUpdate(s, p, None, ph');
  }
}
