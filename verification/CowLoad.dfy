/** Loading a new region: mapping zeroed pages and then writing their contents comes to the same as
    mapping pages that hold those contents. */
module CowLoad {
  import opened Types
  import opened CoreMap
  import opened CowSpace
  import opened CowMachine
  import opened CowRuns

  /** The two memories differ at most in what their pages hold. */
  ghost predicate SameFrames(a: Phys, b: Phys)
  {
    |a.data| == |b.data| && a.(data := b.data) == b
  }

  ghost predicate SameSlot(r: Slot, r': Slot, size: nat)
  {
    match r
    case Found(ph, rg) => r'.Found? && SameFrames(ph, r'.ph) && r'.rg == rg.(size := size)
    case NoMemory(ph, rg) => r'.NoMemory? && SameFrames(ph, r'.ph) && r'.rg == rg.(size := size)
    case Crash => r'.Crash?
  }

  /** Finding a slot looks neither at the pages' contents nor at the region's size. */
  lemma {:induction false} SlotBlind(ph: Phys, ph': Phys, rg: Region, size: nat, idx: nat)
    requires SameFrames(ph, ph')
    ensures SameSlot(EnsureSlot(ph, rg, idx), EnsureSlot(ph', rg.(size := size), idx), size)
    decreases idx - |rg.slots|
  {
    if idx >= |rg.slots| {
      var (ph1, pg) := Kalloc(ph);
      if pg.Some? {
        SlotBlind(ph1, Kalloc(ph').0, WithChunk(rg, pg.value), size, idx);
      }
    }
  }

  ghost predicate SameAdded(r: Added, r': Added, size: nat)
  {
    match r
    case AddCrash => r'.AddCrash?
    case Added(ph, rg, d) => r'.Added? && SameFrames(ph, r'.ph) && r'.rg == rg.(size := size) && r'.done == d
  }

  /** Nor does mapping pages. */
  lemma {:induction false} AddBlind(ph: Phys, ph': Phys, rg: Region, size: nat, idx: nat, c: seq<Page>, c': seq<Page>)
    requires SameFrames(ph, ph') && |c| == |c'| && |ph.core| == |ph.data|
    ensures SameAdded(AddPages(ph, rg, idx, c), AddPages(ph', rg.(size := size), idx, c'), size)
    decreases |c|
  {
    hide EnsureSlot;
    if c != [] {
      SlotBlind(ph, ph', rg, size, idx);
      var e, e' := EnsureSlot(ph, rg, idx), EnsureSlot(ph', rg.(size := size), idx);
      if e.Found? {
        var (ph2, pg) := Kalloc(e.ph);
        if pg.Some? {
          var rg2 := SetSlot(e.rg, idx, NewSlot(pg.value));
          var ph3, ph3' := Store(ph2, pg.value, c[0]), Store(Kalloc(e'.ph).0, pg.value, c'[0]);
          AddBlind(ph3, ph3', rg2, size, idx + 1, c[1..], c'[1..]);
        }
      }
    }
  }

  ghost function StoreAll(data: seq<Page>, ps: seq<nat>, cs: seq<Page>): (r: seq<Page>)
    requires |ps| == |cs| && InRange(ps, |data|)
    ensures |r| == |data|
    decreases |ps|
  {
    if ps == [] then data else StoreAll(data[ps[0] := cs[0]], ps[1..], cs[1..])
  }

  /** What a page held before does not matter if it is written. */
  lemma {:induction false} StoreAllAt(d: seq<Page>, d': seq<Page>, ps: seq<nat>, cs: seq<Page>, x: nat)
    requires |ps| == |cs| && |d| == |d'| && InRange(ps, |d|) && x < |d|
    requires x in ps || d[x] == d'[x]
    ensures StoreAll(d, ps, cs)[x] == StoreAll(d', ps, cs)[x]
    decreases |ps|
  {
    if ps != [] {
      StoreAllAt(d[ps[0] := cs[0]], d'[ps[0] := cs[0]], ps[1..], cs[1..], x);
    }
  }

  lemma {:induction false} StoreAllElsewhere(d: seq<Page>, ps: seq<nat>, cs: seq<Page>, x: nat)
    requires |ps| == |cs| && InRange(ps, |d|) && x < |d| && x !in ps
    ensures StoreAll(d, ps, cs)[x] == d[x]
    decreases |ps|
  {
    if ps != [] {
      StoreAllElsewhere(d[ps[0] := cs[0]], ps[1..], cs[1..], x);
    }
  }

  /** Writing twice is writing the second time. */
  lemma Overwrite(d: seq<Page>, ps: seq<nat>, zs: seq<Page>, cs: seq<Page>)
    requires |ps| == |zs| == |cs| && InRange(ps, |d|)
    ensures StoreAll(StoreAll(d, ps, zs), ps, cs) == StoreAll(d, ps, cs)
  {
    hide StoreAll;
    forall x | 0 <= x < |d| ensures StoreAll(StoreAll(d, ps, zs), ps, cs)[x] == StoreAll(d, ps, cs)[x] {
      if x !in ps { StoreAllElsewhere(d, ps, zs, x); }
      StoreAllAt(StoreAll(d, ps, zs), d, ps, cs, x);
    }
  }

  /** The pages of d slots from idx on. */
  ghost function Frames(slots: seq<Vpi>, idx: nat, d: nat): (ps: seq<nat>)
    requires idx + d <= |slots|
    ensures |ps| == d
  {
    seq<nat>(d, i requires 0 <= i < d => slots[idx + i].ppn)
  }

  lemma FramesStep(rg3: Region, rg': Region, idx: nat, d: nat, contents: seq<Page>)
    requires Appended(rg3, rg', idx + 1, d) && d < |contents| && idx < |rg3.slots|
    ensures Frames(rg'.slots, idx, d + 1) == [rg3.slots[idx].ppn] + Frames(rg'.slots, idx + 1, d)
    ensures contents[..d + 1][1..] == contents[1..][..d]
  {
    assert rg'.slots[..idx + 1][idx] == rg3.slots[..idx + 1][idx];
  }

  /** The data after mapping: the contents, in the pages of the new slots. */
  lemma {:induction false} AddData(ph: Phys, rg: Region, idx: nat, contents: seq<Page>, rest: multiset<nat>)
    requires AddReady(ph, rg, idx, rest)
    ensures |ph.core| == |ph.data|
    ensures var a := AddPages(ph, rg, idx, contents);
      a.Added? ==>
        && a.done <= |contents| && idx + a.done <= |a.rg.slots| && InRange(Frames(a.rg.slots, idx, a.done), |ph.data|)
        && a.ph.data == StoreAll(ph.data, Frames(a.rg.slots, idx, a.done), contents[..a.done])
    decreases |contents|
  {
    hide Ledger, RegionClaims, FreshClaims, SameData, Contents, AddReady, EnsureSlot, Kalloc;
    AddReadyFacts(ph, rg, idx, rest);
    AddPagesLedger(ph, rg, idx, contents, rest);
    if contents != [] {
      var e := EnsureSlot(ph, rg, idx);
      if e.Found? && Kalloc(e.ph).1.Some? {
        AddFirstReady(ph, rg, idx, contents[0], rest);
        var (ph3, rg3) := AddFirst(ph, rg, idx, contents[0]);
        AddData(ph3, rg3, idx + 1, contents[1..], rest);
        AddPagesLedger(ph3, rg3, idx + 1, contents[1..], rest);
        var b := AddPages(ph3, rg3, idx + 1, contents[1..]);
        if b.Added? {
          FramesStep(rg3, b.rg, idx, b.done, contents);
        }
      }
    }
  }

  lemma EmptyReady(ph: Phys, rg: Region, m: multiset<nat>)
    requires Ledger(ph, m) && rg.chunks == [] && rg.slots == []
    ensures AddReady(ph, rg, 0, m)
  {
    NoClaims(rg, m);
  }

  /** A new region of zeros, grown from nothing, is the region NewRegion makes, but for the contents. */
  lemma LoadsAs(ph: Phys, down: bool, base: nat, contents: seq<Page>, m: multiset<nat>)
    requires Ledger(ph, m) && contents != [] && Aligned(down, base, |contents| * PGSIZE)
    ensures |ph.core| == |ph.data|
    ensures var g := Grow(ph, Region(down, base, 0, [], []), |contents| * PGSIZE);
      var a := NewRegion(ph, down, base, contents);
      && (g.Grew? <==> a.Added? && a.done == |contents|)
      && (g.Grew? ==>
        && g.rg == a.rg && SameFrames(g.ph, a.ph) && |contents| <= |g.rg.slots|
        && InRange(Frames(g.rg.slots, 0, |contents|), |g.ph.data|)
        && a.ph.data == StoreAll(g.ph.data, Frames(g.rg.slots, 0, |contents|), contents)
        && (contents == Zeros(|contents|) ==> g.ph == a.ph))
  {
    hide Ledger, RegionClaims, AddPages, RollBack, AddReady, StoreAll;
    var n := |contents|;
    var rg, rg' := Region(down, base, 0, [], []), Region(down, base, n * PGSIZE, [], []);
    assert rg' == rg.(size := n * PGSIZE) && Backed(0) == 0 && Backed(n * PGSIZE) == n;
    LedgerShape(ph, m);
    EmptyReady(ph, rg, m);
    EmptyReady(ph, rg', m);
    AddBlind(ph, ph, rg, n * PGSIZE, 0, Zeros(n), contents);
    AddData(ph, rg, 0, Zeros(n), m);
    AddData(ph, rg', 0, contents, m);
    var z, a := AddPages(ph, rg, 0, Zeros(n)), AddPages(ph, rg', 0, contents);
    if z.Added? && z.done == n {
      assert Zeros(n)[..n] == Zeros(n) && contents[..n] == contents;
      Overwrite(ph.data, Frames(z.rg.slots, 0, n), Zeros(n), contents);
    }
  }
}
