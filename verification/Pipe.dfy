/** kernel/file.c: pipes.

    Readers and writers take turns under the pipe's lock, giving it up only to sleep.  Each stretch
    between taking and giving up the lock is one method; every interleaving is a sequence of calls. */
module Pipe {
  import opened Types

  const SIZE := 2048

  type Pid = nat

  /** How a stretch ends: the call returns its count, returns -1, goes to sleep, or stores outside the
      buffer. */
  datatype End = Done | GaveUp | Sleeps | Outside

  /** The bytes that have a slot of their own before the int counters turn negative. */
  const LIMIT := 0x8000_0001

  // --------------------------------------------------------------- int indices

  /** The value of an int counter after k increments from zero. */
  function Int32(k: nat): int
  {
    var low := k % 0x1_0000_0000;
    if low >= 0x8000_0000 then low - 0x1_0000_0000 else low
  }

  /** C's remainder: it has the sign of the dividend. */
  function Rem(a: int): int { if a >= 0 then a % SIZE else -((-a) % SIZE) }

  predicate HasSlot(k: nat) { 0 <= Rem(Int32(k)) < SIZE }

  /** Before 2^31 bytes have passed, the slot is the one the count asks for; after them, until the
      counter is positive again, only every 2048th byte has a slot inside the buffer. */
  lemma SlotInside(k: nat)
    ensures HasSlot(k) <==> k % 0x1_0000_0000 < 0x8000_0000 || k % SIZE == 0
  {
  }

  lemma SlotBefore(k: nat)
    requires k < LIMIT
    ensures Rem(Int32(k)) == k % SIZE
  {
  }

  lemma FirstOutside(k: nat)
    requires k <= LIMIT
    ensures HasSlot(k) <==> k < LIMIT
  {
  }

  lemma SlotsDiffer(i: nat, j: nat)
    requires 0 < j - i < SIZE
    ensures i % SIZE != j % SIZE
  {
  }

  // --------------------------------------------------------------- the pipe

  /** With one descriptor left, its holder is the only one. */
  lemma LoneHolder(ends: multiset<Pid>, p: Pid, q: Pid)
    requires p in ends && q in ends && |ends| == 1
    ensures q == p
  {
    assert |ends - multiset{p}| == 0;
    assert ends == multiset{p} + (ends - multiset{p});
  }

  function Min(a: nat, b: int): int { if a < b then a else b }

  class Channel {
    const buf: array<Byte>
    var head: int
    var tail: int
    /** Who holds the open descriptors; the reference count is their number. */
    var ends: multiset<Pid>
    /** The processes asleep on the two channels. */
    var readers: set<Pid>
    var writers: set<Pid>
    /** A call returned without giving the lock back. */
    var jammed: bool
    ghost var sent: seq<Byte>
    ghost var received: seq<Byte>

    /** What was taken out is a prefix of what was accepted, the rest is in the ring, nobody sleeps while
        there is something for it to do, and whoever sleeps has the pipe open. */
    ghost predicate Valid()
      reads this, buf
    {
      && Ring()
      && (readers != {} ==> head == tail)
      && (writers != {} && !jammed ==> tail - head == SIZE)
      && Open()
    }

    ghost predicate Ring()
      reads `head, `tail, `sent, `received, buf
    {
      && buf.Length == SIZE && received <= sent && head == |received| && tail == |sent| <= LIMIT
      && 0 <= tail - head <= SIZE
      && forall k | head <= k < tail :: buf[k % SIZE] == sent[k]
    }

    ghost predicate Open()
      reads `ends, `readers, `writers
    {
      forall q | q in readers + writers :: q in ends
    }

    lemma RingBounds()
      requires Ring()
      ensures tail == |sent| <= LIMIT && 0 <= tail - head <= SIZE
    {
    }

    /** p has the pipe open and is not asleep in it. */
    ghost predicate Awake(p: Pid)
      reads this
    {
      p in ends && p !in readers + writers
    }

    /** Who has the only descriptor is alone with the pipe. */
    lemma Alone(p: Pid)
      requires Open() && Awake(p) && |ends| == 1
      ensures ends == multiset{p} && readers == {} == writers
    {
      forall q | q in ends ensures q == p { LoneHolder(ends, p, q); }
      assert ends == multiset{p};
    }

    /** Somebody sleeps, and everybody who has the pipe open does: no call can come that wakes them. */
    ghost predicate Stranded()
      reads this
    {
      readers + writers != {} && forall q | q in ends :: q in readers + writers
    }

    /** pipe: the maker has both descriptors. */
    constructor (maker: Pid)
      ensures Valid() && fresh(buf) && sent == [] && readers == {} == writers && !jammed
      ensures ends == multiset{maker, maker}
    {
      buf := new Byte[SIZE];
      head, tail, ends, jammed := 0, 0, multiset{maker, maker}, false;
      readers, writers, sent, received := {}, {}, [], [];
    }

    /** dup, or fork with q for the child. */
    method Share(p: Pid, q: Pid)
      requires Valid() && Awake(p)
      modifies `ends
      ensures Valid() && ends == old(ends) + multiset{q} && (Awake(q) <==> q !in readers + writers)
    {
      ends := ends + multiset{q};
    }

    /** close wakes nobody: it strands the sleepers exactly if it closes the last descriptor of the last
        process that is awake. */
    method Close(p: Pid)
      requires Valid() && Awake(p)
      modifies `ends
      ensures Valid() && ends == old(ends) - multiset{p}
      ensures Stranded() <==>
        readers + writers != {} && old(ends)[p] == 1 && forall q | q in old(ends) && q != p :: q in readers + writers
    {
      ends := ends - multiset{p};
    }

    /** kill makes a sleeper runnable. */
    method Kill(p: Pid)
      requires Valid()
      modifies `readers, `writers
      ensures Valid() && readers == old(readers) - {p} && writers == old(writers) - {p}
    {
      readers, writers := readers - {p}, writers - {p};
    }

    /** Descriptors are opened and closed under another lock, so that can happen in the middle of a call. */
    method Meanwhile(p: Pid)
      requires Open() && Awake(p)
      modifies `ends
      ensures Open() && Awake(p)
    {
      var e: multiset<Pid> := *;
      if p in e && forall q | q in readers + writers :: q in e {
        ends := e;
      }
    }

    method Put(c: Byte)
      requires Ring() && tail - head < SIZE && tail < LIMIT
      modifies buf, `tail, `sent
      ensures Ring() && sent == old(sent) + [c]
    {
      SlotBefore(tail);
      ghost var was := tail;
      buf[Rem(Int32(tail))] := c;
      tail := tail + 1;
      sent := sent + [c];
      forall k | head <= k < tail ensures buf[k % SIZE] == sent[k] {
        if k < was {
          SlotsDiffer(k, was);
          assert old(buf[k % SIZE]) == old(sent[k]);
        }
      }
    }

    /** A writer's stretch: accepts bytes in order until all are in, the ring is full, it has the only
        descriptor left, or the counter has turned negative.  It leaves no reader asleep, and its own sleep
        strands it exactly if all others that have the pipe open were asleep writing. */
    method Write(p: Pid, data: seq<Byte>) returns (n: nat, end: End)
      requires Valid() && Awake(p) && !jammed
      modifies this, buf
      ensures n <= |data| && sent == old(sent) + data[..n] && received == old(received) && !jammed
      ensures end.Outside? ==> n < |data| && |sent| == LIMIT
      ensures !end.Outside? ==> Valid() && readers == {} && p in ends
      ensures end.Done? ==> n == |data| && writers == old(writers)
      ensures end.Sleeps? ==> n < |data| && writers == old(writers) + {p} && tail - head == SIZE
      ensures end.GaveUp? ==> n < |data| && ends == multiset{p} && writers == {}
      ensures !end.Outside? ==>
        (Stranded() <==> end.Sleeps? && forall q | q in ends :: q == p || q in old(writers))
    {
      hide HasSlot, Ring;
      n := 0;
      while n < |data|
        invariant n <= |data| && sent == old(sent) + data[..n] && received == old(received)
        invariant Ring() && !jammed && Open() && Awake(p)
        invariant readers == old(readers) && writers == old(writers) && (writers != {} ==> tail - head == SIZE)
      {
        Meanwhile(p);
        RingBounds();
        if tail - head == SIZE {
          readers, writers := {}, writers + {p};
          return n, Sleeps;
        }
        if |ends| == 1 {
          Alone(p);
          return n, GaveUp;
        }
        FirstOutside(tail);
        if !HasSlot(tail) {
          return n, Outside;
        }
        Put(data[n]);
        n := n + 1;
      }
      readers := {};
      end := Done;
    }

    /** The loop that empties the ring.  A reader found killed in it leaves with the lock held. */
    method Take(max: nat, dies: Option<nat>) returns (out: seq<Byte>)
      requires Valid() && !jammed && readers == {}
      modifies `head, `received, `jammed
      ensures buf.Length == SIZE && received <= sent && head == |received| <= tail && received == old(received) + out
      ensures jammed <==> dies.Some? && dies.value < max && dies.value <= old(tail - head)
      ensures |out| == if jammed then dies.value else Min(max, old(tail - head))
    {
      out := [];
      while |out| < max
        invariant |out| <= max && |out| == head - old(head) && received == old(received) + out
        invariant received <= sent && head == |received| <= tail && !jammed
        invariant dies.Some? && dies.value < max ==> |out| <= dies.value
      {
        if dies == Some(|out|) {
          jammed := true;
          return;
        }
        if head == tail {
          return;
        }
        SlotBefore(head);
        var c := buf[Rem(Int32(head))];
        assert c == sent[head];
        out := out + [c];
        received := received + [c];
        head := head + 1;
      }
    }

    /** A reader's stretch: waits while the ring is empty, else takes what there is, up to max.  With the
        only descriptor left it returns 0 from an empty ring.  `dies` says after how many bytes it is
        found killed: then it returns -1, from an empty ring in order, from any other with the lock held
        and the bytes it took lost. */
    method Read(p: Pid, max: nat, dies: Option<nat>) returns (out: seq<Byte>, end: End)
      requires Valid() && Awake(p) && !jammed
      modifies `head, `ends, `readers, `writers, `received, `jammed
      ensures Valid() && received == old(received) + out && p in ends
      ensures jammed <==> old(head < tail) && dies.Some? && dies.value < max && dies.value <= old(tail - head)
      ensures end.GaveUp? <==> jammed || (old(head == tail) && dies == Some(0))
      ensures end.Done? && old(head < tail) ==> writers == {} && |out| == Min(max, old(tail - head))
      ensures end.Done? && old(head == tail) ==> out == [] && ends == multiset{p} && readers == {}
      ensures end.Sleeps? ==> out == [] && old(head == tail) && readers == old(readers) + {p} && writers == {}
      ensures Stranded() <==> end.Sleeps? && forall q | q in ends :: q == p || q in old(readers)
    {
      out := [];
      Meanwhile(p);
      if head == tail {
        if dies == Some(0) {
          return out, GaveUp;
        }
        if |ends| == 1 {
          Alone(p);
          return out, Done;
        }
        writers, readers := {}, readers + {p};
        return out, Sleeps;
      }
      out := Take(max, dies);
      if jammed {
        return out, GaveUp;
      }
      writers := {};
      end := Done;
    }
  }
}
