/** kernel/console.c: the input ring behind the keyboard.

    The ring of 128 bytes and its three 32-bit indices stand for a queue of committed bytes, which
    readers may take, and the line still being edited. */
module Console {
  import opened Types

  const SIZE := 128
  const WRAP := 0x1_0000_0000

  const CTRL_D: Byte := 4
  const CTRL_H: Byte := 8
  const NEWLINE: Byte := 10
  const RETURN: Byte := 13
  const CTRL_P: Byte := 16
  const CTRL_U: Byte := 21
  const DELETE: Byte := 127

  // --------------------------------------------------------------- what the console is meant to do

  datatype Input = Input(committed: seq<Byte>, line: seq<Byte>)

  predicate Ends(c: Byte) { c == NEWLINE || c == CTRL_D }

  function Cooked(c: Byte): Byte { if c == RETURN then NEWLINE else c }

  function Shorter(line: seq<Byte>): seq<Byte> { if line == [] then [] else line[..|line| - 1] }

  /** One key: the edit keys touch the line only; a full ring or an ending key commits it. */
  function Key(s: Input, c: Byte): Input
  {
    if c == CTRL_P then s
    else if c == CTRL_U then Input(s.committed, [])
    else if c == CTRL_H || c == DELETE then
      Input(s.committed, Shorter(s.line))
    else if c == 0 || |s.committed| + |s.line| >= SIZE then s
    else
      var line := s.line + [Cooked(c)];
      if Ends(Cooked(c)) || |s.committed| + |line| == SIZE then Input(s.committed + line, [])
      else Input(s.committed, line)
  }

  function Keys(s: Input, cs: seq<Byte>): Input
  {
    if cs == [] then s else Key(Keys(s, cs[..|cs| - 1]), cs[|cs| - 1])
  }

  /** What a reader that still wants n bytes and already has `got` takes from the queue: the bytes,
      what it leaves, and whether it is finished or has to wait for more. */
  function Take(q: seq<Byte>, n: nat, got: nat): (t: (seq<Byte>, seq<Byte>, bool))
    ensures |t.0| <= n && |t.0| + |t.1| <= |q|
    ensures !t.2 ==> t.0 == q && t.1 == [] && |q| < n
  {
    if n == 0 then ([], q, true)
    else if q == [] then ([], q, false)
    else if q[0] == CTRL_D then ([], if got > 0 then q else q[1..], true)
    else if q[0] == NEWLINE then ([NEWLINE], q[1..], true)
    else
      var t := Take(q[1..], n - 1, got + 1);
      ([q[0]] + t.0, t.1, t.2)
  }

  lemma TakeUnroll(q: seq<Byte>, n: nat, got: nat)
    ensures n == 0 ==> Take(q, n, got) == ([], q, true)
    ensures n > 0 && q == [] ==> Take(q, n, got) == ([], q, false)
    ensures n > 0 && q != [] && q[0] == CTRL_D ==> Take(q, n, got) == ([], if got > 0 then q else q[1..], true)
    ensures n > 0 && q != [] && q[0] == NEWLINE ==> Take(q, n, got) == ([NEWLINE], q[1..], true)
    ensures n > 0 && q != [] && q[0] != CTRL_D && q[0] != NEWLINE ==>
      var t := Take(q[1..], n - 1, got + 1);
      Take(q, n, got) == ([q[0]] + t.0, t.1, t.2)
  {
  }

  function Resumed(t: (seq<Byte>, seq<Byte>, bool), more: seq<Byte>, n: nat, got: nat): (seq<Byte>, seq<Byte>, bool)
    requires |t.0| <= n
  {
    if t.2 then (t.0, t.1 + more, true)
    else var u := Take(more, n - |t.0|, got + |t.0|); (t.0 + u.0, u.1, u.2)
  }

  lemma ResumeStep(c: Byte, t: (seq<Byte>, seq<Byte>, bool), more: seq<Byte>, n: nat, got: nat)
    requires |t.0| < n
    ensures var u := Resumed(t, more, n - 1, got + 1);
      Resumed(([c] + t.0, t.1, t.2), more, n, got) == ([c] + u.0, u.1, u.2)
  {
    var u := Take(more, n - 1 - |t.0|, got + 1 + |t.0|);
    assert [c] + (t.0 + u.0) == ([c] + t.0) + u.0;
  }

  /** Sleeping in the middle of a read changes nothing: bytes committed meanwhile are read as if
      they had been there from the start. */
  lemma {:induction false} TakeResumes(q: seq<Byte>, more: seq<Byte>, n: nat, got: nat)
    ensures Take(q + more, n, got) == Resumed(Take(q, n, got), more, n, got)
  {
    if n == 0 {
    } else if q == [] {
      assert q + more == more;
      var u := Take(more, n, got);
      assert [] + u.0 == u.0;
    } else {
      assert (q + more)[0] == q[0] && (q + more)[1..] == q[1..] + more;
      if !Ends(q[0]) {
        TakeResumes(q[1..], more, n - 1, got + 1);
        ResumeStep(q[0], Take(q[1..], n - 1, got + 1), more, n, got);
      }
    }
  }

  function Concat(qs: seq<seq<Byte>>): seq<Byte>
  {
    if qs == [] then [] else qs[0] + Concat(qs[1..])
  }

  /** A read that sleeps whenever the queue is empty, and finds `qs[0]`, `qs[1]`, ... committed each
      time it is awake. */
  function TakeAll(qs: seq<seq<Byte>>, n: nat, got: nat): (seq<Byte>, seq<Byte>, bool)
    decreases |qs|
  {
    if qs == [] then Take([], n, got)
    else
      var t := Take(qs[0], n, got);
      if t.2 then (t.0, t.1 + Concat(qs[1..]), true)
      else var u := TakeAll(qs[1..], n - |t.0|, got + |t.0|); (t.0 + u.0, u.1, u.2)
  }

  /** However the interrupts are spread over a read, it returns what it would have returned had all
      the bytes been there. */
  lemma {:induction false} SpreadDoesNotMatter(qs: seq<seq<Byte>>, n: nat, got: nat)
    ensures TakeAll(qs, n, got) == Take(Concat(qs), n, got)
    decreases |qs|
  {
    hide Take;
    if qs != [] {
      var t := Take(qs[0], n, got);
      TakeResumes(qs[0], Concat(qs[1..]), n, got);
      SpreadDoesNotMatter(qs[1..], n - |t.0|, got + |t.0|);
    }
  }

  /** Keys never touch committed bytes: they only add to them. */
  lemma {:induction false} KeysOnlyAdd(s: Input, cs: seq<Byte>)
    ensures s.committed <= Keys(s, cs).committed
  {
    if cs != [] { KeysOnlyAdd(s, cs[..|cs| - 1]); }
  }

  /** The bytes a read takes are the queue's, in order, up to the end mark that stops it; an end of
      file met after some bytes stays for the next read, which then returns nothing. */
  lemma {:induction false} TakeDelivers(q: seq<Byte>, n: nat, got: nat)
    ensures var t := Take(q, n, got);
      && t.0 <= q && CTRL_D !in t.0
      && (t.1 == q[|t.0|..] || (got + |t.0| == 0 && q != [] && q[0] == CTRL_D && t.1 == q[1..]))
      && (t.2 && 0 < |t.0| < n && t.0[|t.0| - 1] != NEWLINE ==> t.1 != [] && t.1[0] == CTRL_D)
      && (forall k | 0 <= k < |t.0| - 1 :: t.0[k] != NEWLINE)
  {
    if n > 0 && q != [] && !Ends(q[0]) {
      TakeDelivers(q[1..], n - 1, got + 1);
      var t, u := Take(q, n, got), Take(q[1..], n - 1, got + 1);
      assert q[|t.0|..] == q[1..][|u.0|..];
      forall k | 0 <= k < |t.0| - 1 ensures t.0[k] != NEWLINE {
        assert k > 0 ==> t.0[k] == u.0[k - 1];
      }
    }
  }

  predicate Plain(s: Input, c: Byte)
  {
    && c !in {0, CTRL_P, CTRL_U, CTRL_H, DELETE, RETURN} && !Ends(c)
    && |s.committed| + |s.line| + 1 < SIZE
  }

  /** Backspace undoes the last plain key, and kill-line any number of them. */
  lemma BackspaceUndoes(s: Input, c: Byte)
    requires Plain(s, c)
    ensures Key(Key(s, c), CTRL_H) == s && Key(Key(s, c), CTRL_U) == Key(s, CTRL_U)
  {
  }

  // --------------------------------------------------------------- indices that wrap

  function Minus(a: int, b: int): (d: nat)
    ensures d < WRAP
  {
    (a - b) % WRAP
  }

  function Slot(i: int): (k: nat)
    ensures k < SIZE
  {
    i % SIZE
  }

  lemma SlotShifts(i: int, q: int)
    ensures Slot(i + SIZE * q) == Slot(i)
  {
  }

  /** Wrapping at 2^32 does not move a slot. */
  lemma SlotWraps(i: int)
    ensures Slot(i % WRAP) == Slot(i)
  {
    var q := i / WRAP;
    assert i == i % WRAP + SIZE * (q * 0x200_0000);
    SlotShifts(i % WRAP, q * 0x200_0000);
  }

  lemma SlotsDiffer(i: int, j: int)
    requires 0 < j - i < SIZE
    ensures Slot(i) != Slot(j)
  {
  }

  function Ring(b: seq<Byte>, r: nat, n: nat): (s: seq<Byte>)
    requires |b| == SIZE
    ensures |s| == n
  {
    seq(n, i requires 0 <= i < n => b[Slot(r + i)])
  }

  lemma EndSlot(r: nat, e: nat)
    requires r < WRAP && e < WRAP
    ensures Slot(r + Minus(e, r)) == Slot(e) && e == (r + Minus(e, r)) % WRAP
  {
  }

  /** Storing at the edit index adds one byte to a ring with room. */
  lemma RingStores(b: seq<Byte>, r: nat, e: nat, c: Byte)
    requires |b| == SIZE && r < WRAP && e < WRAP && Minus(e, r) < SIZE
    ensures Ring(b[Slot(e) := c], r, Minus(e, r) + 1) == Ring(b, r, Minus(e, r)) + [c]
  {
    hide Minus, Slot;
    var n := Minus(e, r);
    EndSlot(r, e);
    var s, t := Ring(b[Slot(e) := c], r, n + 1), Ring(b, r, n) + [c];
    forall i | 0 <= i < n + 1 ensures s[i] == t[i] {
      if i < n { SlotsDiffer(r + i, r + n); }
    }
  }

  lemma SameWrap(r: nat, i: nat)
    ensures ((r + 1) % WRAP + i) % WRAP == (r + (i + 1)) % WRAP
  {
  }

  /** Taking one byte moves the front of the ring. */
  lemma RingTakes(b: seq<Byte>, r: nat, n: nat)
    requires |b| == SIZE && r < WRAP && n >= 1
    ensures Ring(b, r, n) == [b[Slot(r)]] + Ring(b, (r + 1) % WRAP, n - 1)
  {
    hide Slot;
    var s, t := Ring(b, r, n), [b[Slot(r)]] + Ring(b, (r + 1) % WRAP, n - 1);
    forall i | 0 <= i < n ensures s[i] == t[i] {
      if i > 0 {
        SlotWraps(r + i);
        SlotWraps((r + 1) % WRAP + (i - 1));
        SameWrap(r, i - 1);
      }
    }
  }

  /** How the distances from the read index move with the indices. */
  lemma Distances(r: nat, w: nat, e: nat)
    requires r < WRAP && w < WRAP && e < WRAP
    ensures Minus(w, r) == Minus(e, r) <==> w == e
    ensures Minus(w, r) == 0 <==> w == r
    ensures Minus(e, r) == SIZE <==> e == (r + SIZE) % WRAP
  {
  }

  lemma StepBack(r: nat, e: nat)
    requires r < WRAP && e < WRAP && Minus(e, r) > 0
    ensures Minus((e - 1) % WRAP, r) == Minus(e, r) - 1
  {
  }

  lemma StepOn(r: nat, e: nat)
    requires r < WRAP && e < WRAP && Minus(e, r) < WRAP - 1
    ensures Minus((e + 1) % WRAP, r) == Minus(e, r) + 1
  {
  }

  lemma StepFront(r: nat, w: nat)
    requires r < WRAP && w < WRAP && w != r
    ensures Minus(w, r) > 0 && Minus(w, (r + 1) % WRAP) == Minus(w, r) - 1 && ((r + 1) % WRAP - 1) % WRAP == r
  {
  }

  // --------------------------------------------------------------- the driver

  class Driver {
    const buf: array<Byte>
    var r: nat
    var w: nat
    var e: nat

    ghost predicate Valid()
      reads this, buf
    {
      && buf.Length == SIZE && r < WRAP && w < WRAP && e < WRAP
      && Minus(w, r) <= Minus(e, r) <= SIZE
      && (Minus(e, r) == SIZE ==> w == e)
      && forall c | c in Abs().line :: !Ends(c)
    }

    ghost function Abs(): Input
      reads this, buf
    {
      if buf.Length == SIZE && Minus(w, r) <= Minus(e, r) then
        var s := Ring(buf[..], r, Minus(e, r));
        Input(s[..Minus(w, r)], s[Minus(w, r)..])
      else Input([], [])
    }

    constructor ()
      ensures Valid() && fresh(buf) && Abs() == Input([], [])
    {
      buf := new Byte[SIZE];
      r, w, e := 0, 0, 0;
    }

    /** Drops the last byte of the line. */
    method Rub()
      requires Valid() && e != w
      modifies `e
      ensures Valid() && e == (old(e) - 1) % WRAP && Abs() == Input(old(Abs()).committed, Shorter(old(Abs()).line))
    {
      hide Minus, Slot;
      Distances(r, w, e);
      StepBack(r, e);
      e := (e - 1) % WRAP;
      Distances(r, w, e);
      ghost var b, n, k := buf[..], Minus(old(e), r), Minus(w, r);
      assert Ring(b, r, n - 1) == Ring(b, r, n)[..n - 1];
      assert Ring(b, r, n)[..n - 1][..k] == Ring(b, r, n)[..k];
      assert Ring(b, r, n)[..n - 1][k..] == Ring(b, r, n)[k..][..n - 1 - k];
    }

    /** The line being edited never ends in a newline: that would have committed it. */
    lemma LastByte()
      requires Valid() && e != w
      ensures buf[Slot((e - 1) % WRAP)] != NEWLINE
    {
      hide Minus, Slot;
      Distances(r, w, e);
      StepBack(r, e);
      EndSlot(r, (e - 1) % WRAP);
      var line := Abs().line;
      assert line[|line| - 1] == buf[Slot((e - 1) % WRAP)] && line[|line| - 1] in line;
    }

    method KillLine()
      requires Valid()
      modifies `e
      ensures Valid() && Abs() == Input(old(Abs()).committed, [])
    {
      hide Minus, Slot;
      while e != w && buf[Slot((e - 1) % WRAP)] != NEWLINE
        invariant Valid() && Abs().committed == old(Abs()).committed
        decreases Minus(e, r)
      {
        Distances(r, w, e);
        StepBack(r, e);
        Rub();
      }
      Distances(r, w, e);
      if e != w {
        LastByte();
        assert false;
      }
      assert |Abs().line| == 0;
    }

    /** Adds a byte to the line, and commits the line if it ends it or fills the ring. */
    method Store(c: Byte)
      requires Valid() && Minus(e, r) < SIZE
      modifies buf, `e, `w
      ensures Valid()
      ensures var s := old(Abs()); var line := s.line + [c];
        Abs() == if Ends(c) || |s.committed| + |line| == SIZE then Input(s.committed + line, [])
                 else Input(s.committed, line)
    {
      hide Minus, Slot, Ring;
      RingStores(buf[..], r, e, c);
      StepOn(r, e);
      ghost var s := Ring(buf[..], r, Minus(e, r));
      buf[Slot(e)] := c;
      e := (e + 1) % WRAP;
      Distances(r, w, e);
      ghost var t := Ring(buf[..], r, Minus(e, r));
      ghost var k := Minus(w, r);
      assert t == s + [c] && t[..k] == s[..k] && t[k..] == s[k..] + [c];
      if Ends(c) || e == (r + SIZE) % WRAP {
        w := e;
        assert t == s[..k] + (s[k..] + [c]);
      }
    }

    /** One character from the keyboard. */
    method KeyIn(key: Byte)
      requires Valid()
      modifies this, buf
      ensures Valid() && Abs() == Key(old(Abs()), key)
    {
      hide Minus, Slot, Ring;
      Distances(r, w, e);
      if key == CTRL_U {
        KillLine();
      } else if key == CTRL_H || key == DELETE {
        if e != w { Rub(); }
      } else if key != CTRL_P && key != 0 && Minus(e, r) < SIZE {
        Store(Cooked(key));
      }
    }

    /** The interrupt handler drains the keyboard; a process listing is printed afterwards if asked for. */
    method Interrupt(keys: seq<Byte>) returns (dump: bool)
      requires Valid()
      modifies this, buf
      ensures Valid() && Abs() == Keys(old(Abs()), keys) && (dump <==> CTRL_P in keys)
    {
      dump := false;
      for k := 0 to |keys|
        invariant Valid() && Abs() == Keys(old(Abs()), keys[..k]) && (dump <==> CTRL_P in keys[..k])
      {
        assert keys[..k + 1][..k] == keys[..k];
        if keys[k] == CTRL_P { dump := true; }
        KeyIn(keys[k]);
      }
      assert keys[..|keys|] == keys;
    }

    method NextByte() returns (c: Byte)
      requires Valid() && r != w
      modifies `r
      ensures Valid() && r == (old(r) + 1) % WRAP && (r - 1) % WRAP == old(r)
      ensures old(Abs()) == Input([c] + Abs().committed, Abs().line)
    {
      hide Minus, Slot, Ring;
      Distances(r, w, e);
      Distances(r, e, e);
      StepFront(r, w);
      StepFront(r, e);
      RingTakes(buf[..], r, Minus(e, r));
      c := buf[Slot(r)];
      r := (r + 1) % WRAP;
      assert old(Abs()).committed == [c] + Abs().committed;
      assert old(Abs()).line == Abs().line;
    }

    lemma Committed()
      requires Valid()
      ensures r == w <==> Abs().committed == []
    {
      hide Minus, Slot, Ring;
      Distances(r, w, e);
    }

    twostate lemma Restored()
      requires r == old(r) && w == old(w) && e == old(e) && buf[..] == old(buf[..])
      ensures Abs() == old(Abs()) && (old(Valid()) ==> Valid())
    {
    }

    /** Reads until satisfied, a line end or an end of file, or until it has to sleep. */
    method ReadSome(n: nat, got: nat) returns (out: seq<Byte>, done: bool)
      requires Valid()
      modifies `r
      ensures Valid() && Abs().line == old(Abs()).line
      ensures (out, Abs().committed, done) == Take(old(Abs()).committed, n, got)
    {
      hide Valid, Abs, Take;
      var left: nat := n;
      out, done := [], true;
      ghost var all := Take(Abs().committed, n, got);
      assert [] + all.0 == all.0;
      while left > 0
        invariant Valid() && Abs().line == old(Abs()).line && left + |out| == n && done
        invariant var t := Take(Abs().committed, left, got + |out|);
          Take(old(Abs()).committed, n, got) == (out + t.0, t.1, t.2)
      {
        Committed();
        assert out + [] == out;
        ghost var q := Abs().committed;
        TakeUnroll(q, left, got + |out|);
        if r == w { return out, false; }
        label Before:
        var c := NextByte();
        assert q[0] == c && q[1..] == Abs().committed;
        if c == CTRL_D {
          if left < got + n {
            r := (r - 1) % WRAP;
            Restored@Before();
          }
          return;
        }
        ghost var t := Take(Abs().committed, left - 1, got + |out| + 1);
        assert out + ([c] + t.0) == (out + [c]) + t.0;
        left, out := left - 1, out + [c];
        if c == NEWLINE { return; }
      }
      TakeUnroll(Abs().committed, 0, got + |out|);
      assert out + [] == out;
    }
  }
}
