/** user/umalloc.c: the allocator of section 8.7 of The C Programming Language, 2nd edition.

    Addresses count header-sized units.  A block is a header at `h` and `size[h]` units from `h`
    on.  `order` lists the free blocks by address, starting with the static header `base`. */
module UMalloc {
  import opened Types

  const HEADER := 16
  const MINUNITS := 4096

  // --------------------------------------------------------------- the free list

  ghost function End(order: seq<nat>, size: map<nat, nat>, i: nat): nat
    requires i < |order|
  {
    order[i] + if order[i] in size then size[order[i]] else 0
  }

  ghost predicate Sorted(order: seq<nat>)
  {
    order != [] && forall i, j | 0 <= i < j < |order| :: order[i] < order[j]
  }

  function Next(n: nat, i: nat): (j: nat)
    ensures i < n ==> j < n
  {
    if i + 1 < n then i + 1 else 0
  }

  ghost predicate LinkAt(order: seq<nat>, ptr: map<nat, nat>, i: nat)
    requires i < |order|
  {
    order[i] in ptr && ptr[order[i]] == order[Next(|order|, i)]
  }

  ghost predicate Linked(order: seq<nat>, ptr: map<nat, nat>)
  {
    forall i | 0 <= i < |order| :: LinkAt(order, ptr, i)
  }

  ghost predicate Sized(order: seq<nat>, size: map<nat, nat>)
  {
    forall i | 0 <= i < |order| :: order[i] in size && (if i == 0 then size[order[i]] == 0 else size[order[i]] >= 1)
  }

  /** Blocks lie apart, except that those in `loose` may touch their successor. */
  ghost predicate Gaps(order: seq<nat>, size: map<nat, nat>, loose: set<nat>)
  {
    forall i, j | 1 <= i < j < |order| ::
      End(order, size, i) < order[j] || (i in loose && j == i + 1 && End(order, size, i) == order[j])
  }

  /** One circular list in address order with a single wrap, no two free blocks touching. */
  ghost predicate FreeList(order: seq<nat>, ptr: map<nat, nat>, size: map<nat, nat>)
  {
    Sorted(order) && Linked(order, ptr) && Sized(order, size) && Gaps(order, size, {})
  }

  /** The blocks in use: their headers intact, apart from each other and from the free ones. */
  ghost predicate LiveBlocks(order: seq<nat>, size: map<nat, nat>, live: map<nat, nat>)
  {
    && (forall h | h in live :: h in size && size[h] == live[h] >= 1 && order != [] && order[0] < h)
    && (forall h, i | h in live && 1 <= i < |order| :: End(order, size, i) <= h || h + live[h] <= order[i])
    && (forall g, h | g in live && h in live && g != h :: g + live[g] <= h || h + live[h] <= g)
  }

  ghost predicate InFree(order: seq<nat>, size: map<nat, nat>, u: nat)
  {
    exists i | 1 <= i < |order| :: order[i] <= u < End(order, size, i)
  }

  ghost predicate InLive(live: map<nat, nat>, u: nat)
  {
    exists h | h in live :: h <= u < h + live[h]
  }

  /** Every unit obtained from sbrk is in exactly one block, free or in use. */
  ghost predicate Conserved(order: seq<nat>, size: map<nat, nat>, live: map<nat, nat>, got: iset<nat>)
  {
    forall u :: u in got <==> InFree(order, size, u) || InLive(live, u)
  }

  /** The allocator's invariant, up to touching neighbours in `loose`. */
  ghost predicate Loose(order: seq<nat>, ptr: map<nat, nat>, size: map<nat, nat>, live: map<nat, nat>, got: iset<nat>,
                        loose: set<nat>)
  {
    && Sorted(order) && Linked(order, ptr) && Sized(order, size) && Gaps(order, size, loose)
    && LiveBlocks(order, size, live) && Conserved(order, size, live, got)
  }

  ghost predicate Arena(order: seq<nat>, ptr: map<nat, nat>, size: map<nat, nat>, live: map<nat, nat>, got: iset<nat>)
  {
    FreeList(order, ptr, size) && LiveBlocks(order, size, live) && Conserved(order, size, live, got)
  }

  // --------------------------------------------------------------- freeing a block

  /** The place of `b` in the list: after entry k. */
  ghost predicate Place(order: seq<nat>, b: nat, k: nat)
  {
    k < |order| && order[k] < b && (k + 1 < |order| ==> b < order[k + 1])
  }

  lemma PlaceSplits(order: seq<nat>, ptr: map<nat, nat>, size: map<nat, nat>, live: map<nat, nat>, b: nat, k: nat)
    requires FreeList(order, ptr, size) && LiveBlocks(order, size, live) && b in live && Place(order, b, k)
    ensures forall i | 1 <= i <= k :: End(order, size, i) <= b
    ensures forall i | k < i < |order| :: b + live[b] <= order[i]
  {
  }

  /** Link `b` in after entry k. */
  ghost function InsertOrder(order: seq<nat>, b: nat, k: nat): seq<nat>
    requires k < |order|
  {
    order[..k + 1] + [b] + order[k + 1..]
  }

  lemma InsertAt(order: seq<nat>, b: nat, k: nat)
    requires k < |order|
    ensures var o := InsertOrder(order, b, k);
      && |o| == |order| + 1
      && (forall i | 0 <= i <= k :: o[i] == order[i]) && o[k + 1] == b
      && (forall i | k + 1 < i < |o| :: o[i] == order[i - 1])
  {
  }

  lemma InsertSorted(order: seq<nat>, b: nat, k: nat)
    requires Sorted(order) && Place(order, b, k)
    ensures Sorted(InsertOrder(order, b, k))
  {
  }

  lemma InsertLinked(order: seq<nat>, ptr: map<nat, nat>, b: nat, k: nat)
    requires Sorted(order) && Linked(order, ptr) && Place(order, b, k)
    ensures LinkAt(order, ptr, k)
    ensures Linked(InsertOrder(order, b, k), ptr[b := ptr[order[k]]][order[k] := b])
  {
    assert LinkAt(order, ptr, k);
    var o, q := InsertOrder(order, b, k), ptr[b := ptr[order[k]]][order[k] := b];
    forall i | 0 <= i < |o| ensures LinkAt(o, q, i) {
      if i != k && i != k + 1 {
        var i' := if i < k then i else i - 1;
        assert LinkAt(order, ptr, i');
        assert o[i] == order[i'];
        assert order[i'] != order[k];
      }
    }
  }

  lemma InsertGap(order: seq<nat>, ptr: map<nat, nat>, size: map<nat, nat>, live: map<nat, nat>, b: nat, k: nat,
                  i: nat, j: nat)
    requires FreeList(order, ptr, size) && LiveBlocks(order, size, live) && b in live && Place(order, b, k)
    requires 1 <= i < j <= |order|
    ensures var o := InsertOrder(order, b, k);
      |o| == |order| + 1 && (End(o, size, i) < o[j] || (i in {k, k + 1} && j == i + 1 && End(o, size, i) == o[j]))
  {
    PlaceSplits(order, ptr, size, live, b, k);
    InsertAt(order, b, k);
    hide InsertOrder, Linked, LiveBlocks;
    if i != k + 1 && j != k + 1 {
      var i', j' := if i <= k then i else i - 1, if j <= k then j else j - 1;
      assert End(order, size, i') < order[j'];
    }
  }

  lemma InsertGaps(order: seq<nat>, ptr: map<nat, nat>, size: map<nat, nat>, live: map<nat, nat>, b: nat, k: nat)
    requires FreeList(order, ptr, size) && LiveBlocks(order, size, live) && b in live && Place(order, b, k)
    ensures Sized(InsertOrder(order, b, k), size) && Gaps(InsertOrder(order, b, k), size, {k, k + 1})
  {
    InsertAt(order, b, k);
    hide InsertOrder, Linked;
    var o := InsertOrder(order, b, k);
    assert Sized(o, size);
    assert Gaps(o, size, {k, k + 1}) by {
      hide Sized, Sorted, FreeList, LiveBlocks, End;
      forall i, j | 1 <= i < j < |o|
        ensures End(o, size, i) < o[j] || (i in {k, k + 1} && j == i + 1 && End(o, size, i) == o[j])
      {
        InsertGap(order, ptr, size, live, b, k, i, j);
      }
    }
  }

  lemma InsertLive(order: seq<nat>, ptr: map<nat, nat>, size: map<nat, nat>, live: map<nat, nat>, b: nat, k: nat)
    requires Sorted(order) && LiveBlocks(order, size, live) && b in live && Place(order, b, k)
    ensures LiveBlocks(InsertOrder(order, b, k), size, live - {b})
  {
    InsertAt(order, b, k);
    hide InsertOrder;
  }

  lemma InsertUnits(order: seq<nat>, size: map<nat, nat>, live: map<nat, nat>, got: iset<nat>, b: nat, k: nat)
    requires Conserved(order, size, live, got) && b in live && b in size && size[b] == live[b] && k < |order|
    ensures Conserved(InsertOrder(order, b, k), size, live - {b}, got)
  {
    InsertAt(order, b, k);
    var o := InsertOrder(order, b, k);
    hide InsertOrder;
    forall u: nat ensures InFree(o, size, u) <==> InFree(order, size, u) || b <= u < b + live[b] {
      if InFree(order, size, u) {
        var i :| 1 <= i < |order| && order[i] <= u < End(order, size, i);
        var j := if i <= k then i else i + 1;
        assert o[j] <= u < End(o, size, j);
      }
      if b <= u < b + live[b] { assert o[k + 1] <= u < End(o, size, k + 1); }
      if InFree(o, size, u) && !(b <= u < b + live[b]) {
        var j :| 1 <= j < |o| && o[j] <= u < End(o, size, j);
        var i := if j <= k then j else j - 1;
        assert order[i] <= u < End(order, size, i);
      }
    }
    forall u: nat ensures InLive(live, u) <==> InLive(live - {b}, u) || b <= u < b + live[b] {
      if InLive(live, u) && !(b <= u < b + live[b]) {
        var h :| h in live && h <= u < h + live[h];
        assert h in live - {b};
      }
      if InLive(live - {b}, u) {
        var h :| h in live - {b} && h <= u < h + (live - {b})[h];
        assert h in live;
      }
    }
  }

  /** Block m swallows its successor. */
  ghost function MergeOrder(order: seq<nat>, m: nat): seq<nat>
    requires m + 1 < |order|
  {
    order[..m + 1] + order[m + 2..]
  }

  lemma MergeAt(order: seq<nat>, m: nat)
    requires m + 1 < |order|
    ensures var o := MergeOrder(order, m);
      && |o| == |order| - 1 && (forall i | 0 <= i <= m :: o[i] == order[i])
      && (forall i | m < i < |o| :: o[i] == order[i + 1])
  {
  }

  lemma MergeLinked(order: seq<nat>, ptr: map<nat, nat>, m: nat)
    requires Sorted(order) && Linked(order, ptr) && m + 1 < |order|
    ensures order[m + 1] in ptr && Sorted(MergeOrder(order, m))
    ensures Linked(MergeOrder(order, m), ptr[order[m] := ptr[order[m + 1]]])
  {
    assert LinkAt(order, ptr, m + 1);
    var o, q := MergeOrder(order, m), ptr[order[m] := ptr[order[m + 1]]];
    forall i | 0 <= i < |o| ensures LinkAt(o, q, i) {
      if i != m {
        var i' := if i < m then i else i + 1;
        assert LinkAt(order, ptr, i');
        assert o[i] == order[i'] && order[i'] != order[m];
      }
    }
  }

  ghost function MergeSize(order: seq<nat>, size: map<nat, nat>, m: nat): map<nat, nat>
    requires m + 1 < |order| && order[m] in size && order[m + 1] in size
  {
    size[order[m] := size[order[m]] + size[order[m + 1]]]
  }

  lemma MergeEnds(order: seq<nat>, size: map<nat, nat>, m: nat)
    requires Sorted(order) && Sized(order, size) && 1 <= m && m + 1 < |order| && End(order, size, m) == order[m + 1]
    ensures var o, z := MergeOrder(order, m), MergeSize(order, size, m);
      Sized(o, z) && forall i | 0 <= i < |o| :: End(o, z, i) == End(order, size, if i < m then i else i + 1)
  {
  }

  lemma MergeGaps(order: seq<nat>, size: map<nat, nat>, loose: set<nat>, m: nat)
    requires Sorted(order) && Sized(order, size) && Gaps(order, size, loose) && 1 <= m && m + 1 < |order|
    requires End(order, size, m) == order[m + 1] && (forall l | l in loose :: l <= m)
    ensures Gaps(MergeOrder(order, m), MergeSize(order, size, m), loose - {m})
  {
    MergeAt(order, m);
    MergeEnds(order, size, m);
    var o, z := MergeOrder(order, m), MergeSize(order, size, m);
    hide MergeOrder, MergeSize, End, Sized;
    forall i, j | 1 <= i < j < |o|
      ensures End(o, z, i) < o[j] || (i in loose - {m} && j == i + 1 && End(o, z, i) == o[j])
    {
      var i', j' := if i < m then i else i + 1, if j <= m then j else j + 1;
      assert o[j] == order[j'];
    }
  }

  lemma MergeLive(order: seq<nat>, size: map<nat, nat>, live: map<nat, nat>, m: nat)
    requires Sorted(order) && Sized(order, size) && 1 <= m && m + 1 < |order| && End(order, size, m) == order[m + 1]
    requires LiveBlocks(order, size, live)
    ensures LiveBlocks(MergeOrder(order, m), MergeSize(order, size, m), live)
  {
    MergeEnds(order, size, m);
    MergeAt(order, m);
    var o, z := MergeOrder(order, m), MergeSize(order, size, m);
    hide MergeOrder;
    forall h | h in live ensures h in z && z[h] == live[h] {
      assert End(order, size, m) <= h || h + live[h] <= order[m];
    }
    forall h, i | h in live && 1 <= i < |o| ensures End(o, z, i) <= h || h + live[h] <= o[i] {
      assert o[i] == order[if i <= m then i else i + 1];
      if i == m {
        assert End(order, size, m) <= h || h + live[h] <= order[m];
        assert End(order, size, m + 1) <= h || h + live[h] <= order[m + 1];
      }
    }
  }

  lemma Seam(order: seq<nat>, size: map<nat, nat>, m: nat)
    requires Sorted(order) && Sized(order, size) && m + 1 < |order|
    ensures order[m] in size && order[m + 1] in size && order[m] < order[m + 1] <= End(order, size, m + 1)
  {
  }

  lemma MergeFree(order: seq<nat>, size: map<nat, nat>, m: nat, u: nat)
    requires Sorted(order) && Sized(order, size) && 1 <= m && m + 1 < |order| && End(order, size, m) == order[m + 1]
    ensures InFree(MergeOrder(order, m), MergeSize(order, size, m), u) <==> InFree(order, size, u)
  {
    hide MergeOrder, MergeSize, End, Sorted, Sized;
    MergeAt(order, m);
    MergeEnds(order, size, m);
    Seam(order, size, m);
    var o, z := MergeOrder(order, m), MergeSize(order, size, m);
    var seam := order[m + 1];
    if InFree(o, z, u) {
      var i :| 1 <= i < |o| && o[i] <= u < End(o, z, i);
      var i' := if i < m || (i == m && u < seam) then i else i + 1;
      assert order[i'] <= u < End(order, size, i');
    }
    if InFree(order, size, u) {
      var i :| 1 <= i < |order| && order[i] <= u < End(order, size, i);
      var i' := if i <= m then i else i - 1;
      assert o[i'] <= u < End(o, z, i');
    }
  }

  lemma MergeUnits(order: seq<nat>, size: map<nat, nat>, live: map<nat, nat>, got: iset<nat>, m: nat)
    requires Sorted(order) && Sized(order, size) && 1 <= m && m + 1 < |order| && End(order, size, m) == order[m + 1]
    requires Conserved(order, size, live, got)
    ensures Conserved(MergeOrder(order, m), MergeSize(order, size, m), live, got)
  {
    var o, z := MergeOrder(order, m), MergeSize(order, size, m);
    hide InFree, InLive, Sorted, Sized, MergeOrder, MergeSize;
    forall u: nat ensures InFree(o, z, u) <==> InFree(order, size, u) {
      MergeFree(order, size, m, u);
    }
  }

  lemma InsertLoose(order: seq<nat>, ptr: map<nat, nat>, size: map<nat, nat>, live: map<nat, nat>, got: iset<nat>,
                    b: nat, k: nat)
    requires Arena(order, ptr, size, live, got) && b in live && Place(order, b, k)
    ensures order[k] in ptr
    ensures Loose(InsertOrder(order, b, k), ptr[b := ptr[order[k]]][order[k] := b], size, live - {b}, got, {k, k + 1})
  {
    hide Sized, Gaps, Sorted, Linked, Conserved, InsertOrder;
    InsertSorted(order, b, k);
    InsertLinked(order, ptr, b, k);
    InsertGaps(order, ptr, size, live, b, k);
    InsertLive(order, ptr, size, live, b, k);
    InsertUnits(order, size, live, got, b, k);
  }

  lemma MergeLoose(order: seq<nat>, ptr: map<nat, nat>, size: map<nat, nat>, live: map<nat, nat>, got: iset<nat>,
                   loose: set<nat>, m: nat)
    requires Loose(order, ptr, size, live, got, loose) && 1 <= m && m + 1 < |order|
    requires End(order, size, m) == order[m + 1] && (forall l | l in loose :: l <= m)
    ensures order[m] in size && order[m + 1] in size && order[m + 1] in ptr
    ensures Loose(MergeOrder(order, m), ptr[order[m] := ptr[order[m + 1]]], MergeSize(order, size, m), live, got,
      loose - {m})
  {
    hide Sized, Gaps, Sorted, Linked, Conserved, MergeOrder, MergeSize, LiveBlocks, End;
    Seam(order, size, m);
    MergeLinked(order, ptr, m);
    MergeEnds(order, size, m);
    MergeGaps(order, size, loose, m);
    MergeLive(order, size, live, m);
    MergeUnits(order, size, live, got, m);
  }

  lemma Narrow(order: seq<nat>, size: map<nat, nat>, loose: set<nat>, m: nat)
    requires Gaps(order, size, loose) && m < |order| && (m + 1 < |order| ==> End(order, size, m) != order[m + 1])
    ensures Gaps(order, size, loose - {m})
  {
  }

  // --------------------------------------------------------------- handing out a block

  lemma TakeGaps(order: seq<nat>, size: map<nat, nat>, m: nat)
    requires Sorted(order) && Sized(order, size) && Gaps(order, size, {}) && m + 1 < |order|
    ensures Sized(MergeOrder(order, m), size) && Gaps(MergeOrder(order, m), size, {})
  {
    hide MergeOrder;
    MergeAt(order, m);
    var o := MergeOrder(order, m);
    forall i, j | 1 <= i < j < |o| ensures End(o, size, i) < o[j] {
      var i', j' := if i <= m then i else i + 1, if j <= m then j else j + 1;
      assert End(order, size, i') < order[j'];
    }
  }

  lemma TakeApart(order: seq<nat>, size: map<nat, nat>, m: nat)
    requires Sorted(order) && Sized(order, size) && Gaps(order, size, {}) && m + 1 < |order|
    ensures var o, b := MergeOrder(order, m), order[m + 1];
      forall i | 1 <= i < |o| :: End(o, size, i) <= b || b + size[b] <= o[i]
  {
    hide MergeOrder;
    MergeAt(order, m);
    var o, b := MergeOrder(order, m), order[m + 1];
    forall i | 1 <= i < |o| ensures End(o, size, i) <= b || b + size[b] <= o[i] {
      var i' := if i <= m then i else i + 1;
      assert o[i] == order[i'];
      assert i' <= m ==> End(order, size, i') < order[m + 1];
      assert i' > m + 1 ==> End(order, size, m + 1) < order[i'];
    }
  }

  lemma TakeLive(order: seq<nat>, size: map<nat, nat>, live: map<nat, nat>, m: nat)
    requires Sorted(order) && Sized(order, size) && Gaps(order, size, {}) && m + 1 < |order|
    requires LiveBlocks(order, size, live)
    ensures order[m + 1] in size && order[m + 1] !in live
    ensures LiveBlocks(MergeOrder(order, m), size, live[order[m + 1] := size[order[m + 1]]])
  {
    hide MergeOrder, Gaps;
    MergeAt(order, m);
    TakeApart(order, size, m);
    var o, b := MergeOrder(order, m), order[m + 1];
    assert size[b] >= 1 && order[0] < b && o[0] == order[0];
    forall h | h in live ensures h + live[h] <= b || b + size[b] <= h {
      assert End(order, size, m + 1) <= h || h + live[h] <= order[m + 1];
    }
    forall h, i | h in live && 1 <= i < |o| ensures End(o, size, i) <= h || h + live[h] <= o[i] {
      assert o[i] == order[if i <= m then i else i + 1];
    }
  }

  lemma TakeFree(order: seq<nat>, size: map<nat, nat>, m: nat, u: nat)
    requires m + 1 < |order| && order[m + 1] in size
    ensures InFree(order, size, u) <==>
      InFree(MergeOrder(order, m), size, u) || order[m + 1] <= u < order[m + 1] + size[order[m + 1]]
  {
    hide MergeOrder;
    MergeAt(order, m);
    var o, b := MergeOrder(order, m), order[m + 1];
    if InFree(o, size, u) {
      var i :| 1 <= i < |o| && o[i] <= u < End(o, size, i);
      var i' := if i <= m then i else i + 1;
      assert order[i'] <= u < End(order, size, i');
    }
    if b <= u < b + size[b] { assert order[m + 1] <= u < End(order, size, m + 1); }
    if InFree(order, size, u) && !(b <= u < b + size[b]) {
      var i :| 1 <= i < |order| && order[i] <= u < End(order, size, i);
      var i' := if i <= m then i else i - 1;
      assert o[i'] <= u < End(o, size, i');
    }
  }

  lemma AddLive(live: map<nat, nat>, b: nat, n: nat, u: nat)
    requires b !in live
    ensures InLive(live[b := n], u) <==> InLive(live, u) || b <= u < b + n
  {
    var live' := live[b := n];
    if InLive(live, u) {
      var h :| h in live && h <= u < h + live[h];
      assert h in live' && live'[h] == live[h];
    }
    if b <= u < b + n { assert b in live'; }
  }

  lemma TakeUnits(order: seq<nat>, size: map<nat, nat>, live: map<nat, nat>, got: iset<nat>, m: nat)
    requires m + 1 < |order| && order[m + 1] in size && order[m + 1] !in live && Conserved(order, size, live, got)
    ensures Conserved(MergeOrder(order, m), size, live[order[m + 1] := size[order[m + 1]]], got)
  {
    hide MergeOrder, InFree, InLive;
    var o, b := MergeOrder(order, m), order[m + 1];
    forall u: nat ensures InFree(order, size, u) <==> InFree(o, size, u) || b <= u < b + size[b] {
      TakeFree(order, size, m, u);
    }
    forall u: nat ensures InLive(live[b := size[b]], u) <==> InLive(live, u) || b <= u < b + size[b] {
      AddLive(live, b, size[b], u);
    }
  }

  /** An exact fit leaves the list and becomes a live block. */
  lemma TakeArena(order: seq<nat>, ptr: map<nat, nat>, size: map<nat, nat>, live: map<nat, nat>, got: iset<nat>, m: nat)
    requires Arena(order, ptr, size, live, got) && m + 1 < |order|
    ensures order[m + 1] in size && order[m + 1] in ptr && order[m + 1] !in live
    ensures Arena(MergeOrder(order, m), ptr[order[m] := ptr[order[m + 1]]], size,
      live[order[m + 1] := size[order[m + 1]]], got)
  {
    hide Sized, Gaps, Sorted, Linked, Conserved, MergeOrder, LiveBlocks;
    MergeLinked(order, ptr, m);
    TakeGaps(order, size, m);
    TakeLive(order, size, live, m);
    TakeUnits(order, size, live, got, m);
  }

  /** Entry m keeps its head; its last n units become a block of their own. */
  ghost function Tail(order: seq<nat>, size: map<nat, nat>, m: nat, n: nat): nat
    requires m < |order| && order[m] in size && n <= size[order[m]]
  {
    order[m] + size[order[m]] - n
  }

  ghost function SplitSize(order: seq<nat>, size: map<nat, nat>, m: nat, n: nat): map<nat, nat>
    requires m < |order| && order[m] in size && n <= size[order[m]]
  {
    size[order[m] := size[order[m]] - n][Tail(order, size, m, n) := n]
  }

  lemma SplitEnds(order: seq<nat>, size: map<nat, nat>, live: map<nat, nat>, m: nat, n: nat)
    requires Sorted(order) && Sized(order, size) && Gaps(order, size, {}) && 1 <= m < |order|
    requires LiveBlocks(order, size, live) && 1 <= n < size[order[m]]
    ensures var z, t := SplitSize(order, size, m, n), Tail(order, size, m, n);
      && Sized(order, z) && t !in live && order[0] < order[m] < t && t in z && z[t] == n
      && End(order, z, m) == t && t + n == End(order, size, m)
      && (forall i | 0 <= i < |order| && i != m :: End(order, z, i) == End(order, size, i))
      && (forall h | h in live :: h in z && z[h] == live[h] && (t + n <= h || h + live[h] <= t))
  {
  }

  lemma SplitUnit(order: seq<nat>, size: map<nat, nat>, live: map<nat, nat>, m: nat, n: nat, u: nat)
    requires Sorted(order) && Sized(order, size) && Gaps(order, size, {}) && 1 <= m < |order|
    requires LiveBlocks(order, size, live) && 1 <= n < size[order[m]]
    ensures InFree(order, size, u) <==>
      InFree(order, SplitSize(order, size, m, n), u) || Tail(order, size, m, n) <= u < Tail(order, size, m, n) + n
  {
    hide SplitSize, Sorted, Gaps, LiveBlocks, End;
    SplitEnds(order, size, live, m, n);
    var z, t := SplitSize(order, size, m, n), Tail(order, size, m, n);
    if InFree(order, z, u) {
      var i :| 1 <= i < |order| && order[i] <= u < End(order, z, i);
      assert order[i] <= u < End(order, size, i);
    }
    if t <= u < t + n { assert order[m] <= u < End(order, size, m); }
    if InFree(order, size, u) && !(t <= u < t + n) {
      var i :| 1 <= i < |order| && order[i] <= u < End(order, size, i);
      assert order[i] <= u < End(order, z, i);
    }
  }

  lemma SplitLive(order: seq<nat>, size: map<nat, nat>, live: map<nat, nat>, m: nat, n: nat)
    requires Sorted(order) && Sized(order, size) && Gaps(order, size, {}) && 1 <= m < |order|
    requires LiveBlocks(order, size, live) && 1 <= n < size[order[m]]
    ensures Gaps(order, SplitSize(order, size, m, n), {})
    ensures LiveBlocks(order, SplitSize(order, size, m, n), live[Tail(order, size, m, n) := n])
  {
    hide SplitSize, End, Tail;
    SplitEnds(order, size, live, m, n);
    var z, t := SplitSize(order, size, m, n), Tail(order, size, m, n);
    forall i | 1 <= i < |order| ensures End(order, z, i) <= t || t + n <= order[i] {
      assert i < m ==> End(order, size, i) < order[m] <= t;
      assert m < i ==> End(order, size, m) < order[i];
    }
    forall h, i | h in live && 1 <= i < |order| ensures End(order, z, i) <= h || h + live[h] <= order[i] {
      assert End(order, size, i) <= h || h + live[h] <= order[i];
    }
  }

  /** A larger block gives up its tail. */
  lemma SplitArena(order: seq<nat>, ptr: map<nat, nat>, size: map<nat, nat>, live: map<nat, nat>, got: iset<nat>,
                   m: nat, n: nat)
    requires Arena(order, ptr, size, live, got) && 1 <= m < |order| && 1 <= n && order[m] in size && n < size[order[m]]
    ensures Tail(order, size, m, n) !in live
    ensures Arena(order, ptr, SplitSize(order, size, m, n), live[Tail(order, size, m, n) := n], got)
  {
    hide SplitSize, Linked, End, InFree, InLive, LiveBlocks, Gaps, Sorted;
    SplitEnds(order, size, live, m, n);
    SplitLive(order, size, live, m, n);
    var z, t := SplitSize(order, size, m, n), Tail(order, size, m, n);
    forall u: nat ensures InFree(order, size, u) <==> InFree(order, z, u) || t <= u < t + n {
      SplitUnit(order, size, live, m, n, u);
    }
    forall u: nat ensures InLive(live[t := n], u) <==> InLive(live, u) || t <= u < t + n {
      AddLive(live, t, n, u);
    }
  }

  // --------------------------------------------------------------- sizes and the sbrk argument

  /** The units malloc looks for: a header and enough room behind it. */
  function Units(nbytes: nat): nat { (nbytes + HEADER - 1) / HEADER + 1 }

  lemma UnitsSuffice(nbytes: nat)
    ensures (Units(nbytes) - 1) * HEADER >= nbytes && Units(nbytes) >= 1
    ensures (Units(nbytes) - 2) * HEADER < nbytes
  {
  }

  /** The units morecore asks for. */
  function Asked(nunits: nat): nat { if nunits < MINUNITS then MINUNITS else nunits }

  /** The bytes sbrk grants when asked through its 32-bit signed argument: a negative count grants nothing. */
  function Granted(bytes: nat): nat
  {
    var low := bytes % 0x1_0000_0000;
    if low >= 0x8000_0000 then 0 else low
  }

  /** sbrk grants the bytes morecore asks for exactly when their number fits an int. */
  lemma GrantedIff(nunits: nat)
    ensures Granted(Asked(nunits) * HEADER) <= Asked(nunits) * HEADER && Granted(Asked(nunits) * HEADER) % HEADER == 0
    ensures Granted(Asked(nunits) * HEADER) == Asked(nunits) * HEADER <==> nunits * HEADER < 0x8000_0000
  {
  }

  // --------------------------------------------------------------- the allocator

  lemma {:induction false} PlaceExists(order: seq<nat>, b: nat)
    returns (k: nat)
    requires Sorted(order) && order[0] < b && b !in order
    ensures Place(order, b, k)
  {
    k := 0;
    while k + 1 < |order| && order[k + 1] < b
      invariant k < |order| && order[k] < b
    {
      k := k + 1;
    }
  }

  lemma ListLink(order: seq<nat>, ptr: map<nat, nat>, k: nat)
    requires Linked(order, ptr) && k < |order|
    ensures order[k] in ptr && ptr[order[k]] == order[Next(|order|, k)]
  {
    assert LinkAt(order, ptr, k);
  }

  lemma PlaceLast(order: seq<nat>, b: nat, k: nat)
    requires Sorted(order) && Place(order, b, k)
    ensures order[k] in order && order[k] < b && forall q | q in order && order[k] < q :: b < q
  {
  }

  lemma LiveNotFree(order: seq<nat>, size: map<nat, nat>, live: map<nat, nat>, b: nat)
    requires Sized(order, size) && LiveBlocks(order, size, live) && b in live
    ensures b !in order && order != [] && order[0] < b
  {
  }

  lemma PlaceFacts(order: seq<nat>, ptr: map<nat, nat>, size: map<nat, nat>, live: map<nat, nat>, got: iset<nat>,
                   b: nat, k: nat)
    requires Arena(order, ptr, size, live, got) && b in live && Place(order, b, k)
    ensures b in size && size[b] == live[b] && b !in order && order[k] in ptr && order[k] in size
    ensures var next := ptr[order[k]];
      && next in ptr && next in size && next == order[Next(|order|, k)]
      && (b + size[b] == next ==> k + 1 < |order| && next == order[k + 1] && next != order[k])
  {
    hide Gaps, Conserved, Linked;
    ListLink(order, ptr, k);
    ListLink(order, ptr, Next(|order|, k));
    LiveNotFree(order, size, live, b);
  }

  /** First half of free: after linking in, `b` swallows the free block it ends at, if any. */
  lemma JoinUp(order: seq<nat>, ptr: map<nat, nat>, size: map<nat, nat>, live: map<nat, nat>, got: iset<nat>, b: nat,
               k: nat)
    returns (o: seq<nat>, q: map<nat, nat>, z: map<nat, nat>)
    requires Arena(order, ptr, size, live, got) && b in live && Place(order, b, k)
    ensures b in size && size[b] == live[b] && order[k] in ptr && order[k] in size
    ensures var next := ptr[order[k]];
      && next in ptr && next in size
      && (if b + size[b] == next then
            z == size[b := size[b] + size[next]] && q == ptr[b := ptr[next]][order[k] := b]
          else z == size && q == ptr[b := next][order[k] := b])
    ensures k + 1 < |o| && o[0] == order[0] && o[k] == order[k] && o[k + 1] == b && b + live[b] <= End(o, z, k + 1)
    ensures Loose(o, q, z, live - {b}, got, {k})
  {
    hide Gaps, Linked, Conserved, InsertOrder, MergeOrder, LiveBlocks, Sorted, Sized;
    PlaceFacts(order, ptr, size, live, got, b, k);
    InsertLoose(order, ptr, size, live, got, b, k);
    InsertAt(order, b, k);
    o, q, z := InsertOrder(order, b, k), ptr[b := ptr[order[k]]][order[k] := b], size;
    var next := ptr[order[k]];
    if b + size[b] == next {
      MergeLoose(o, q, z, live - {b}, got, {k, k + 1}, k + 1);
      MergeAt(o, k + 1);
      o, q, z := MergeOrder(o, k + 1), q[b := q[next]], MergeSize(o, z, k + 1);
      assert q == ptr[b := ptr[next]][order[k] := b];
    } else {
      Narrow(o, z, {k, k + 1}, k + 1);
    }
    assert {k, k + 1} - {k + 1} == {k};
  }

  /** Second half: the block at entry k swallows its successor if they touch. */
  lemma JoinDown(order: seq<nat>, ptr: map<nat, nat>, size: map<nat, nat>, live: map<nat, nat>, got: iset<nat>,
                 k: nat, n: nat)
    returns (o: seq<nat>, q: map<nat, nat>, z: map<nat, nat>, j: nat)
    requires Loose(order, ptr, size, live, got, {k}) && k + 1 < |order| && order[k + 1] + n <= End(order, size, k + 1)
    ensures order[k] in size && order[k + 1] in size && order[k + 1] in ptr
    ensures if order[k] + size[order[k]] == order[k + 1] then
              z == size[order[k] := size[order[k]] + size[order[k + 1]]] && q == ptr[order[k] := ptr[order[k + 1]]]
            else z == size && q == ptr
    ensures o != [] && o[0] == order[0] && order[k] in o && Arena(o, q, z, live, got)
    ensures 1 <= j < |o| && o[j] <= order[k + 1] && order[k + 1] + n <= End(o, z, j)
  {
    hide Gaps, Linked, Conserved, MergeOrder, LiveBlocks;
    Seam(order, size, k);
    ListLink(order, ptr, k + 1);
    o, q, z, j := order, ptr, size, k + 1;
    if order[k] + size[order[k]] == order[k + 1] {
      MergeLoose(order, ptr, size, live, got, {k}, k);
      MergeAt(order, k);
      MergeEnds(order, size, k);
      o, q, z, j := MergeOrder(order, k), ptr[order[k] := ptr[order[k + 1]]], MergeSize(order, size, k), k;
    } else {
      Narrow(order, size, {k}, k);
    }
    assert {k} - {k} == {};
    assert o[k] == order[k];
  }

  /** What free writes into the headers, and that the list it leaves is sound. */
  lemma Freed(order: seq<nat>, ptr: map<nat, nat>, size: map<nat, nat>, live: map<nat, nat>, got: iset<nat>, b: nat,
              k: nat)
    returns (o: seq<nat>, q: map<nat, nat>, z: map<nat, nat>, j: nat)
    requires Arena(order, ptr, size, live, got) && b in live && Place(order, b, k)
    ensures b in size && order[k] in ptr && order[k] in size
    ensures ptr[order[k]] in ptr && ptr[order[k]] in size && b != order[k]
    ensures
      var p, next := order[k], ptr[order[k]];
      var z1 := if b + size[b] == next then size[b := size[b] + size[next]] else size;
      var q1 := ptr[b := if b + size[b] == next then ptr[next] else next];
      if p + size[p] == b then z == z1[p := z1[p] + z1[b]] && q == q1[p := q1[b]] else z == z1 && q == q1[p := b]
    ensures o != [] && o[0] == order[0] && order[k] in o && Arena(o, q, z, live - {b}, got)
    ensures 1 <= j < |o| && o[j] <= b && b + live[b] <= End(o, z, j)
  {
    hide Arena, Loose, End;
    PlaceFacts(order, ptr, size, live, got, b, k);
    var o1, q1, z1 := JoinUp(order, ptr, size, live, got, b, k);
    o, q, z, j := JoinDown(o1, q1, z1, live - {b}, got, k, live[b]);
  }

  ghost predicate Within(a: nat, b: nat, u: nat) { a <= u < b }

  ghost function Span(a: nat, b: nat): iset<nat> { iset u: nat | Within(a, b, u) }

  lemma BelowBrk(order: seq<nat>, ptr: map<nat, nat>, size: map<nat, nat>, live: map<nat, nat>, got: iset<nat>,
                 brk: nat)
    requires Arena(order, ptr, size, live, got) && (forall u | u in got :: u < brk)
    ensures forall i | 1 <= i < |order| :: End(order, size, i) <= brk
    ensures forall h | h in live :: h + live[h] <= brk
  {
    hide Linked, Gaps, Sorted;
    forall i | 1 <= i < |order| ensures End(order, size, i) <= brk {
      var u: nat := End(order, size, i) - 1;
      assert InFree(order, size, u);
    }
    forall h | h in live ensures h + live[h] <= brk {
      var u: nat := h + live[h] - 1;
      assert InLive(live, u);
    }
  }

  lemma NewGaps(order: seq<nat>, size: map<nat, nat>, z: map<nat, nat>)
    requires Gaps(order, size, {}) && forall i | 0 <= i < |order| :: End(order, z, i) == End(order, size, i)
    ensures Gaps(order, z, {})
  {
  }

  lemma SameFree(order: seq<nat>, size: map<nat, nat>, z: map<nat, nat>, u: nat)
    requires forall i | 0 <= i < |order| :: End(order, z, i) == End(order, size, i)
    ensures InFree(order, z, u) <==> InFree(order, size, u)
  {
  }

  /** Room fresh from sbrk lies beyond everything, so it can be taken for a block in use. */
  lemma NewBlock(order: seq<nat>, ptr: map<nat, nat>, size: map<nat, nat>, live: map<nat, nat>, got: iset<nat>,
                 base: nat, brk: nat, hp: nat, nu: nat)
    requires Arena(order, ptr, size, live, got) && (forall u | u in got :: u < brk)
    requires order[0] == base < brk <= hp && nu >= 1
    ensures hp !in live
    ensures Arena(order, ptr, size[hp := nu], live[hp := nu], got + Span(hp, hp + nu))
  {
    hide Linked, InFree, InLive, Gaps;
    BelowBrk(order, ptr, size, live, got, brk);
    var z := size[hp := nu];
    forall i | 0 <= i < |order| ensures order[i] < hp && End(order, z, i) == End(order, size, i) {
      assert i >= 1 ==> order[i] < End(order, size, i);
    }
    NewGaps(order, size, z);
    forall u: nat ensures InFree(order, z, u) <==> InFree(order, size, u) {
      SameFree(order, size, z, u);
    }
    forall u: nat ensures InLive(live[hp := nu], u) <==> InLive(live, u) || hp <= u < hp + nu {
      AddLive(live, hp, nu, u);
    }
  }

  lemma BlockSize(order: seq<nat>, ptr: map<nat, nat>, size: map<nat, nat>, live: map<nat, nat>, got: iset<nat>,
                  j: nat, hp: nat, nu: nat)
    requires Arena(order, ptr, size, live, got) && j < |order| && order[j] <= hp && hp + nu <= End(order, size, j)
    ensures order[j] in size && size[order[j]] >= nu
  {
  }

  lemma ListFacts(order: seq<nat>, ptr: map<nat, nat>, size: map<nat, nat>, live: map<nat, nat>, got: iset<nat>, i: nat)
    requires Arena(order, ptr, size, live, got) && i < |order|
    ensures order[i] in ptr && ptr[order[i]] == order[Next(|order|, i)] && order[i] in size
    ensures order[Next(|order|, i)] in size && order[Next(|order|, i)] in ptr
    ensures size[order[0]] == 0
  {
    hide Linked, Gaps, LiveBlocks, Conserved, Sorted;
    ListLink(order, ptr, i);
    ListLink(order, ptr, Next(|order|, i));
  }

  lemma EmptyArena(base: nat, ptr: map<nat, nat>, size: map<nat, nat>)
    requires base in ptr && ptr[base] == base && base in size && size[base] == 0
    ensures Arena([base], ptr, size, map[], iset{})
  {
  }

  ghost predicate AllSmall(order: seq<nat>, size: map<nat, nat>, n: nat)
  {
    forall j | 1 <= j < |order| :: order[j] in size && size[order[j]] < n
  }

  /** How far entry j lies ahead of entry i, going round. */
  function Ahead(n: nat, i: nat, j: nat): (d: nat)
    requires i < n && j < n
    ensures d < n
  {
    if i <= j then j - i else n - i + j
  }

  /** The `d` entries after entry f are too small. */
  ghost predicate Small(order: seq<nat>, size: map<nat, nat>, n: nat, f: nat, d: nat)
    requires f < |order|
  {
    forall j | 0 <= j < |order| && 1 <= Ahead(|order|, f, j) <= d :: order[j] in size && size[order[j]] < n
  }

  lemma NoSteps(order: seq<nat>, size: map<nat, nat>, n: nat, f: nat)
    requires f < |order|
    ensures Ahead(|order|, f, f) == 0 && Small(order, size, n, f, 0)
  {
  }

  /** One more step of malloc's search; when it comes round, every entry is too small. */
  lemma SmallStep(order: seq<nat>, ptr: map<nat, nat>, size: map<nat, nat>, live: map<nat, nat>, got: iset<nat>,
                  n: nat, f: nat, i: nat)
    requires Arena(order, ptr, size, live, got) && f < |order| && i < |order|
    requires Small(order, size, n, f, Ahead(|order|, f, i))
    requires var p := order[Next(|order|, i)]; p in size && size[p] < n
    ensures order[Next(|order|, i)] == order[f] ==> AllSmall(order, size, n)
    ensures order[Next(|order|, i)] != order[f] ==>
      var i' := Next(|order|, i);
      Ahead(|order|, f, i') == Ahead(|order|, f, i) + 1 && Small(order, size, n, f, Ahead(|order|, f, i'))
  {
  }

  /** Every free block of at least n units ends at `top`. */
  ghost predicate OnlyAt(order: seq<nat>, size: map<nat, nat>, n: nat, top: nat)
  {
    forall j | 1 <= j < |order| && order[j] in size && size[order[j]] >= n :: End(order, size, j) == top
  }

  /** Free blocks do not touch, so what is free from u to v is one block. */
  lemma {:induction false} OneBlock(order: seq<nat>, ptr: map<nat, nat>, size: map<nat, nat>, a: nat, u: nat, v: nat)
    requires FreeList(order, ptr, size) && 1 <= a < |order| && order[a] <= u < End(order, size, a) && u < v
    requires forall w | u <= w < v :: InFree(order, size, w)
    ensures v <= End(order, size, a)
    decreases v - u
  {
    if u + 1 < v {
      assert InFree(order, size, u + 1);
      var b :| 1 <= b < |order| && order[b] <= u + 1 < End(order, size, b);
      assert b == a;
      OneBlock(order, ptr, size, a, u + 1, v);
    }
  }

  lemma InBlock(o: seq<nat>, z: map<nat, nat>, live: map<nat, nat>, got: iset<nat>, hp: nat, nu: nat, j: nat, w: nat)
    requires Conserved(o, z, live, got + Span(hp, hp + nu)) && (forall u | u in got :: u < hp)
    requires 1 <= j < |o| && o[j] <= w < End(o, z, j)
    ensures if w < hp then w in got else w < hp + nu
  {
    assert InFree(o, z, w);
  }

  lemma FreeNotLive(o: seq<nat>, z: map<nat, nat>, live: map<nat, nat>, j: nat, w: nat)
    requires LiveBlocks(o, z, live) && 1 <= j < |o| && o[j] <= w < End(o, z, j)
    ensures !InLive(live, w)
  {
  }

  /** Beside a new block, freeing makes no block larger than there was. */
  lemma SmallBelow(o: seq<nat>, q: map<nat, nat>, z: map<nat, nat>, order: seq<nat>, ptr: map<nat, nat>,
                   size: map<nat, nat>, live: map<nat, nat>, got: iset<nat>, hp: nat, nu: nat, n: nat, j: nat)
    requires Arena(order, ptr, size, live, got) && (forall u | u in got :: u < hp)
    requires AllSmall(order, size, n)
    requires Arena(o, q, z, live, got + Span(hp, hp + nu))
    requires 1 <= j < |o| && End(o, z, j) <= hp
    ensures o[j] in z && z[o[j]] < n
  {
    hide Linked;
    var end := End(o, z, j);
    forall w | o[j] <= w < end ensures InFree(order, size, w) {
      InBlock(o, z, live, got, hp, nu, j, w);
      FreeNotLive(o, z, live, j, w);
    }
    assert InFree(order, size, o[j]);
    var a :| 1 <= a < |order| && order[a] <= o[j] < End(order, size, a);
    OneBlock(order, ptr, size, a, o[j], end);
  }

  lemma EndsWithNew(o: seq<nat>, q: map<nat, nat>, z: map<nat, nat>, live: map<nat, nat>, got: iset<nat>,
                    hp: nat, nu: nat, j: nat)
    requires Arena(o, q, z, live, got + Span(hp, hp + nu)) && (forall u | u in got :: u < hp)
    requires forall h | h in live :: h + live[h] <= hp
    requires 1 <= j < |o| && hp < End(o, z, j)
    ensures End(o, z, j) == hp + nu
  {
    hide Linked;
    var end := End(o, z, j);
    InBlock(o, z, live, got, hp, nu, j, end - 1);
    assert end < hp + nu ==> end in Span(hp, hp + nu);
    assert end in got + Span(hp, hp + nu) ==> InFree(o, z, end) || InLive(live, end);
  }

  /** After a block `[hp, hp + nu)` beyond all others has been freed into a list without a block of n units,
      a block of n units ends where it ends. */
  lemma LargeIsNew(o: seq<nat>, q: map<nat, nat>, z: map<nat, nat>, order: seq<nat>, ptr: map<nat, nat>,
                   size: map<nat, nat>, live: map<nat, nat>, got: iset<nat>, hp: nat, nu: nat, n: nat)
    requires Arena(order, ptr, size, live, got) && (forall u | u in got :: u < hp)
    requires AllSmall(order, size, n)
    requires Arena(o, q, z, live, got + Span(hp, hp + nu))
    ensures OnlyAt(o, z, n, hp + nu)
  {
    hide Arena;
    BelowBrk(order, ptr, size, live, got, hp);
    forall j | 1 <= j < |o| && o[j] in z && z[o[j]] >= n ensures End(o, z, j) == hp + nu {
      if End(o, z, j) <= hp {
        SmallBelow(o, q, z, order, ptr, size, live, got, hp, nu, n, j);
      } else {
        EndsWithNew(o, q, z, live, got, hp, nu, j);
      }
    }
  }

  /** An entry of n units is a free block of n units: the static header has none. */
  lemma LargeSeen(order: seq<nat>, ptr: map<nat, nat>, size: map<nat, nat>, live: map<nat, nat>, claimed: iset<nat>,
                  n: nat, j: nat)
    requires Arena(order, ptr, size, live, claimed) && j < |order| && order[j] in size && size[order[j]] >= n >= 1
    ensures !AllSmall(order, size, n)
  {
  }

  lemma EndsAtTop(order: seq<nat>, size: map<nat, nat>, n: nat, top: nat, j: nat)
    requires OnlyAt(order, size, n, top) && j < |order| && order[j] in size && size[order[j]] >= n
    ensures j >= 1 ==> order[j] + size[order[j]] == top
  {
  }

  lemma BlockClaimed(order: seq<nat>, ptr: map<nat, nat>, size: map<nat, nat>, live: map<nat, nat>,
                     claimed: iset<nat>, h: nat)
    requires Arena(order, ptr, size, live, claimed) && h in live
    ensures Span(h, h + live[h]) <= claimed && live[h] >= 1
  {
    forall u | u in Span(h, h + live[h]) ensures u in claimed {
      assert InLive(live, u);
    }
  }

  lemma LastUnit(got: iset<nat>, h: nat, n: nat)
    requires n >= 1
    ensures h + n - 1 !in got ==> !(Span(h, h + n) <= got)
  {
    assert h + n - 1 in Span(h, h + n);
  }

  lemma NothingGranted(hp: nat)
    ensures Span(hp, hp) == iset{}
  {
  }

  class Heap {
    const base: nat
    var ptr: map<nat, nat>
    var size: map<nat, nat>
    var freep: Option<nat>
    var brk: nat
    ghost var order: seq<nat>
    ghost var live: map<nat, nat>
    ghost var claimed: iset<nat>
    ghost var got: iset<nat>
    ghost var asked: nat
    ghost var refused: nat

    /** List and blocks in use are sound, for the units the headers lay claim to. */
    ghost predicate Sound()
      reads this
    {
      match freep
      case None => live == map[] && claimed == iset{}
      case Some(p) => Arena(order, ptr, size, live, claimed) && order[0] == base && p in order
    }

    /** And those are the units that sbrk has granted. */
    ghost predicate Valid()
      reads this
    {
      Sound() && claimed == got && base < brk && forall u | u in got :: u < brk
    }

    /** No free block has n units. */
    ghost predicate NoneOf(n: nat)
      reads this
    {
      AllSmall(order, size, n)
    }

    /** Some free block has n units. */
    ghost predicate HasBlock(n: nat)
      reads this
    {
      freep.Some? && !NoneOf(n)
    }

    /** A free block of n units ends with a unit that was not granted. */
    ghost predicate Short(n: nat, top: nat)
      reads this
    {
      top >= 1 && top - 1 !in got && OnlyAt(order, size, n, top)
    }

    constructor (base: nat, brk: nat)
      requires base < brk
      ensures Valid() && live == map[] && got == iset{} && freep.None?
    {
      this.base, this.brk := base, brk;
      ptr, size, freep := map[], map[], None;
      order, live, claimed, got, asked, refused := [base], map[], iset{}, iset{}, 0, 0;
    }

    /** The search of free: ends at the entry after which `bp` belongs. */
    method Search(bp: nat) returns (p: nat, ghost k: nat)
      requires Sound() && bp in live
      ensures Place(order, bp, k) && p == order[k]
      ensures p in order && p < bp && forall q | q in order && p < q :: bp < q
    {
      hide Gaps, Conserved, Linked, End, LiveBlocks, Sized;
      LiveNotFree(order, size, live, bp);
      ghost var goal := PlaceExists(order, bp);
      p := freep.value;
      k :| k < |order| && order[k] == p;
      while true
        invariant k < |order| && order[k] == p
        decreases Ahead(|order|, k, goal)
      {
        ListLink(order, ptr, k);
        var next := ptr[p];
        if bp > p && bp < next { break; }
        if p >= next && (bp > p || bp < next) { break; }
        p, k := next, Next(|order|, k);
      }
      PlaceLast(order, bp, k);
    }

    /** The header writes of free: `bp` goes in after `p`, joined with the neighbours it touches. */
    method Join(bp: nat, p: nat)
      requires bp in size && p in ptr && p in size && ptr[p] in ptr && ptr[p] in size && bp != p
      modifies `ptr, `size, `freep
      ensures freep == Some(p)
      ensures
        var next := old(ptr[p]);
        var up := bp + old(size[bp]) == next;
        var z1 := if up then old(size)[bp := old(size[bp]) + old(size)[next]] else old(size);
        var q1 := old(ptr)[bp := if up then old(ptr)[next] else next];
        if p + old(size[p]) == bp then size == z1[p := z1[p] + z1[bp]] && ptr == q1[p := q1[bp]]
        else size == z1 && ptr == q1[p := bp]
    {
      var next := ptr[p];
      if bp + size[bp] == next {
        size := size[bp := size[bp] + size[next]];
        ptr := ptr[bp := ptr[next]];
      } else {
        ptr := ptr[bp := next];
      }
      if p + size[p] == bp {
        size := size[p := size[p] + size[bp]];
        ptr := ptr[p := ptr[bp]];
      } else {
        ptr := ptr[p := bp];
      }
      freep := Some(p);
    }

    /** Puts the block before `ap` back on the list. */
    method Free(ap: nat)
      requires Sound() && ap >= 1 && ap - 1 in live
      modifies `ptr, `size, `freep, `order, `live
      ensures Sound() && freep.Some?
      ensures live == old(live) - {ap - 1}
      ensures exists j | 1 <= j < |order| :: order[j] <= ap - 1 && ap - 1 + old(live[ap - 1]) <= End(order, size, j)
    {
      hide Arena, Place, End;
      var bp := ap - 1;
      var p, k := Search(bp);
      ghost var o, q, z, j := Freed(order, ptr, size, live, claimed, bp, k);
      Join(bp, p);
      order, live := o, live - {bp};
      assert size == z && ptr == q;
    }

    /** The system call: refuses, or moves the break by what it grants of `bytes` and returns where the new
        room starts.  To grant nothing it never refuses. */
    method Sbrk(bytes: nat) returns (p: Option<nat>)
      requires bytes % HEADER == 0
      modifies `brk, `got, `asked, `refused
      ensures asked == old(asked) + 1
      ensures p.None? ==> Granted(bytes) > 0 && brk == old(brk) && got == old(got) && refused == old(refused) + 1
      ensures p.Some? ==> p.value >= old(brk) && brk == p.value + Granted(bytes) / HEADER && refused == old(refused)
      ensures p.Some? ==> got == old(got) + Span(p.value, brk)
    {
      asked := asked + 1;
      var ok: bool, elsewhere: nat := *, *;
      if ok || Granted(bytes) == 0 {
        p := Some(brk + elsewhere);
        brk := brk + elsewhere + Granted(bytes) / HEADER;
        got := got + Span(p.value, brk);
      } else {
        p := None;
        refused := refused + 1;
      }
    }

    /** Asks for more room and frees it into the list as a block at hp; the list then has a block of at
        least nunits.  The block lies in memory that was granted exactly if its bytes fit an int. */
    method MoreCore(nunits: nat) returns (r: Option<nat>, ghost hp: nat)
      requires Valid() && freep.Some?
      modifies this
      ensures Sound() && live == old(live) && asked == old(asked) + 1
      ensures r.None? ==> refused == old(refused) + 1 && Granted(Asked(nunits) * HEADER) > 0
      ensures r.None? ==> Valid() && unchanged(`ptr, `size, `freep, `brk, `order, `claimed, `got)
      ensures r.Some? ==> refused == old(refused) && r == freep && hp >= old(brk)
      ensures r.Some? ==> claimed == old(claimed) + Span(hp, hp + Asked(nunits))
      ensures r.Some? ==> got == old(got) + Span(hp, hp + Granted(Asked(nunits) * HEADER) / HEADER)
      ensures r.Some? ==> (Span(hp, hp + Asked(nunits)) <= got <==> nunits * HEADER < 0x8000_0000)
      ensures r.Some? ==> (Valid() <==> nunits * HEADER < 0x8000_0000)
      ensures r.Some? ==> !NoneOf(nunits)
      ensures r.Some? && !Valid() && old(NoneOf(nunits)) ==> Short(nunits, hp + Asked(nunits))
    {
      hide Arena, FreeList, LiveBlocks, Conserved, End, Granted, OnlyAt;
      var nu := if nunits < MINUNITS then MINUNITS else nunits;
      GrantedIff(nunits);
      var p := Sbrk(nu * HEADER);
      hp := 0;
      if p.None? { return None, hp; }
      hp := p.value;
      NewBlock(order, ptr, size, live, claimed, base, old(brk), hp, nu);
      size := size[p.value := nu];
      live := live[hp := nu];
      claimed := claimed + Span(hp, hp + nu);
      Free(p.value + 1);
      assert live == old(live);
      ghost var j :| 1 <= j < |order| && order[j] <= hp && hp + nu <= End(order, size, j);
      BlockSize(order, ptr, size, live, claimed, j, hp, nu);
      if old(NoneOf(nunits)) {
        LargeIsNew(order, ptr, size, old(order), old(ptr), old(size), live, old(claimed), hp, nu, nunits);
      }
      assert hp + nu - 1 in claimed;
      LastUnit(got, hp, nu);
      r := freep;
    }

    /** Takes nunits from the block `p` behind `prevp`: all of it, or its tail. */
    method Give(prevp: nat, p: nat, nunits: nat, ghost i: nat, ghost top: nat) returns (h: nat)
      requires Sound() && freep.Some? && i < |order| && order[i] == prevp && p == order[Next(|order|, i)]
      requires p in size && size[p] >= nunits >= 1 && (Valid() || Short(nunits, top))
      modifies `ptr, `size, `freep, `order, `live
      ensures Sound() && freep.Some? && h !in old(live) && live == old(live)[h := nunits]
      ensures (Valid() <==> old(Valid())) && (Span(h, h + nunits) <= got <==> Valid())
    {
      hide FreeList, LiveBlocks, Conserved, End, MergeOrder, OnlyAt, Span;
      ListFacts(order, ptr, size, live, claimed, i);
      if !Valid() { EndsAtTop(order, size, nunits, top, i + 1); }
      h := p;
      if size[p] == nunits {
        TakeArena(order, ptr, size, live, claimed, i);
        MergeAt(order, i);
        ptr := ptr[prevp := ptr[p]];
        order := MergeOrder(order, i);
        assert order[i] == prevp;
      } else {
        SplitArena(order, ptr, size, live, claimed, i + 1, nunits);
        ghost var z := SplitSize(order, size, i + 1, nunits);
        size := size[p := size[p] - nunits];
        h := p + size[p];
        size := size[h := nunits];
        assert size == z;
      }
      live := live[h := nunits];
      freep := Some(prevp);
      BlockClaimed(order, ptr, size, live, claimed, h);
      LastUnit(got, h, nunits);
    }

    /** The first call starts the list with the static header alone. */
    method Prime(ghost n: nat)
      requires Valid()
      modifies `ptr, `size, `freep, `order
      ensures Valid() && Sound() && freep.Some?
      ensures old(freep.Some?) ==> unchanged(this)
      ensures NoneOf(n) <==> !old(HasBlock(n))
    {
      if freep.None? {
        ptr, size, freep := ptr[base := base], size[base := 0], Some(base);
        order := [base];
        EmptyArena(base, ptr, size);
      }
    }

    /** Hands out a block with room for nbytes; asks sbrk exactly if no free block has the units, and then
        once.  The block lies in memory that was granted, and the allocator stays in order, exactly if the
        list has a block or the bytes fit an int. */
    method Malloc(nbytes: nat) returns (r: Option<nat>)
      requires Valid() && nbytes < 0x1_0000_0000
      modifies this
      ensures Sound() && freep.Some?
      ensures r.None? ==> live == old(live)
      ensures r.Some? ==>
        && r.value >= 1 && r.value - 1 !in old(live) && live == old(live)[r.value - 1 := Units(nbytes)]
        && (live[r.value - 1] - 1) * HEADER >= nbytes
      ensures r.None? <==> refused != old(refused)
      ensures r.None? ==> Granted(Asked(Units(nbytes)) * HEADER) > 0
      ensures asked == if old(HasBlock(Units(nbytes))) then old(asked) else old(asked) + 1
      ensures old(HasBlock(Units(nbytes))) ==> r.Some?
      ensures old(HasBlock(Units(nbytes))) || Granted(Asked(Units(nbytes)) * HEADER) == 0 ==> got == old(got)
      ensures Valid() <==> old(HasBlock(Units(nbytes))) || r.None? || Units(nbytes) * HEADER < 0x8000_0000
      ensures r.Some? ==> (Span(r.value - 1, r.value - 1 + Units(nbytes)) <= got <==> Valid())
    {
      hide Arena, End, Small, AllSmall, Next, Ahead, Granted, Short, Asked, Span, Valid;
      UnitsSuffice(nbytes);
      var nunits := (nbytes + HEADER - 1) / HEADER + 1;
      Prime(nunits);
      label Start:
      var prevp := freep.value;
      ghost var f: nat :| f < |order| && order[f] == prevp;
      ghost var i: nat := f;
      NoSteps(order, size, nunits, f);
      ghost var refilled := false;
      ghost var top: nat := 0;
      ListFacts(order, ptr, size, live, claimed, i);
      var p := ptr[prevp];
      while true
        invariant Sound() && freep.Some? && live == old(live) && refused == old(refused)
        invariant f < |order| && order[f] == freep.value
        invariant i < |order| && order[i] == prevp && p == order[Next(|order|, i)] && p in size
        invariant Small(order, size, nunits, f, Ahead(|order|, f, i))
        invariant !refilled ==> unchanged@Start(this) && asked == old(asked) && Valid()
        invariant refilled ==> asked == old(asked) + 1 && !NoneOf(nunits)
        invariant refilled ==> !old(HasBlock(Units(nbytes)))
        invariant refilled ==> (Valid() <==> nunits * HEADER < 0x8000_0000)
        invariant Valid() || Short(nunits, top)
        invariant refilled && Granted(Asked(nunits) * HEADER) == 0 ==> got == old(got)
        decreases if refilled then 0 else 1, |order| - Ahead(|order|, f, i)
      {
        if size[p] >= nunits {
          LargeSeen(order, ptr, size, live, claimed, nunits, Next(|order|, i));
          var h := Give(prevp, p, nunits, i, top);
          return Some(h + 1);
        }
        SmallStep(order, ptr, size, live, claimed, nunits, f, i);
        if p == freep.value {
          var q, hp := MoreCore(nunits);
          if q.None? { return None; }
          NothingGranted(hp);
          p := q.value;
          f :| f < |order| && order[f] == p;
          i := f;
          NoSteps(order, size, nunits, f);
          refilled, top := true, hp + Asked(nunits);
        } else {
          i := Next(|order|, i);
        }
        ListFacts(order, ptr, size, live, claimed, i);
        prevp, p := p, ptr[p];
      }
    }
  }

  /** A first request for 2 GB: sbrk is asked for a negative number of bytes and grants none, and malloc
      hands out a block of 2^27 + 1 units. */
  method TwoGigabytes(base: nat, brk: nat) returns (heap: Heap, r: Option<nat>)
    requires base < brk
    ensures fresh(heap) && r.Some? && r.value >= 1 && heap.got == iset{} && !heap.Valid()
    ensures heap.live == map[r.value - 1 := 0x800_0001]
  {
    heap := new Heap(base, brk);
    r := heap.Malloc(0x8000_0000);
    assert r.value - 1 in Span(r.value - 1, r.value - 1 + Units(0x8000_0000));
  }
}
