/**
 * The ring logs: Log<T> of src/Log.h and src/Log.t, and CheckpointLog of
 * src/checkpoint_log.h and src/checkpoint_log.cc.  Each holds a window of
 * sequence numbers; slots outside the window are clear.
 */
module Logs {
  import opened Multiples
  import opened Types

  /** The value of x after it is stored in a 32-bit int. */
  function Int32(x: int): int {
    (x + 0x8000_0000) % 0x1_0000_0000 - 0x8000_0000
  }

  /** s & mask, for a size that is a power of two: the remainder, never negative. */
  function Mod(s: int, size: nat): nat
    requires size > 0
  {
    s % size
  }

  predicate InRange(head: Seqno, size: nat, n: Seqno) {
    head <= n < head + size
  }

  function AllClear<T>(head: Seqno, size: nat, cleared: T): map<Seqno, T> {
    map n | head <= n < head + size && InRange(head, size, n) :: cleared
  }

  /** The loop counters of truncate count as if they were not cut to 32 bits. */
  predicate Countable(head: Seqno, newHead: Seqno) {
    Int32(newHead) - Int32(head) == newHead - head
  }

  lemma ModSame(a: int, b: int, size: nat)
    requires size > 0 && a <= b < a + size && a % size == b % size
    ensures a == b
  {
    var q := b / size - a / size;
    assert b - a == q * size;
    Multiple(q, size);
  }

  /** Cutting a sequence number to 32 bits does not change its slot, the size of the log being a power of two. */
  lemma SlotOfInt32(x: int, size: nat)
    requires size > 0 && 0x1_0000_0000 % size == 0
    ensures Mod(Int32(x), size) == Mod(x, size)
  {
    var k := (x + 0x8000_0000) / 0x1_0000_0000;
    var c := 0x1_0000_0000 / size;
    assert Int32(x) == x - k * 0x1_0000_0000;
    assert 0x1_0000_0000 == c * size;
    calc {
      k * 0x1_0000_0000;
      k * (c * size);
      { Assoc(k, c, size); }
      (k * c) * size;
    }
    ModShift(x, k * c, size);
  }

  lemma Assoc(a: int, b: int, c: int)
    ensures a * (b * c) == (a * b) * c
  {
  }

  lemma ModShift(x: int, q: int, size: nat)
    requires size > 0
    ensures (x - q * size) % size == x % size
  {
    var y := x - q * size;
    assert y == (y / size) * size + y % size;
    assert x == (x / size) * size + x % size;
    assert (y / size - x / size + q) * size == x % size - y % size;
    Multiple(y / size - x / size + q, size);
  }

  /** Within a log of fewer than 2^31 slots the loop either counts right or not at all. */
  lemma CountsOrStops(head: Seqno, newHead: Seqno)
    requires head < newHead < head + 0x8000_0000
    ensures !Countable(head, newHead) ==> Int32(newHead) < Int32(head)
  {
  }

  /**
   * Heads are one past a stable checkpoint: when 2^31 becomes stable the head
   * goes from 2^31 - 127 to 2^31 + 1, and the loop stops.
   */
  lemma StopsAtTwoToThe31()
    ensures !Countable(0x8000_0000 - CHECKPOINT_INTERVAL + 1, 0x8000_0000 + 1)
  {
  }

  /** Away from multiples of 2^32 minus 2^31 it counts right. */
  lemma CountableIff(head: Seqno, newHead: Seqno)
    requires head <= newHead < head + 0x8000_0000
    ensures Countable(head, newHead) <==>
              (head + 0x8000_0000) / 0x1_0000_0000 == (newHead + 0x8000_0000) / 0x1_0000_0000
  {
  }

  class Log<T(!new)> {
    const size: nat
    const cleared: T            // what clear() leaves of an element
    const elems: array<T>
    var head: Seqno

    ghost predicate Valid() {
      0 < size < 0x8000_0000 && 0x1_0000_0000 % size == 0 && elems.Length == size
    }

    /** What the window holds. */
    ghost function Contents(): map<Seqno, T>
      requires Valid()
      reads this, elems
    {
      map n | head <= n < head + size :: elems[Mod(n, size)]
    }

    constructor (size: nat, h: Seqno, cleared: T)
      requires 0 < size < 0x8000_0000 && 0x1_0000_0000 % size == 0
      ensures Valid() && fresh(elems) && this.size == size && this.cleared == cleared && head == h
      ensures Contents() == AllClear(h, size, cleared)
    {
      this.size, this.cleared, head := size, cleared, h;
      elems := new T[size](_ => cleared);
    }

    method WithinRange(n: Seqno) returns (b: bool)
      requires Valid()
      ensures b <==> n in Contents()
    {
      b := n >= head && n < head + size;
    }

    method Clear(h: Seqno)
      requires Valid()
      modifies this`head, elems
      ensures head == h && Contents() == AllClear(h, size, cleared)
    {
      for i := 0 to size
        invariant forall j :: 0 <= j < i ==> elems[j] == cleared
        modifies elems
      {
        elems[i] := cleared;
      }
      head := h;
    }

    /** fetch gives a reference to the entry; Fetch reads it and Update writes through it. */
    method Fetch(n: Seqno) returns (t: T)
      requires Valid() && n in Contents()
      ensures t == Contents()[n]
    {
      t := elems[Mod(n, size)];
    }

    method Update(n: Seqno, t: T)
      requires Valid() && n in Contents()
      modifies elems
      ensures Contents() == old(Contents())[n := t]
    {
      forall k | head <= k < head + size && k != n ensures Mod(k, size) != Mod(n, size) {
        if Mod(k, size) == Mod(n, size) {
          if k < n { ModSame(k, n, size); } else { ModSame(n, k, size); }
        }
      }
      elems[Mod(n, size)] := t;
    }

    /**
     * Truncates the log: entries below newHead are cleared and make room.  The
     * loop counts in 32 bits; where that goes wrong nothing is cleared.
     */
    method Truncate(newHead: Seqno)
      requires Valid()
      modifies this`head, elems
      ensures head == if newHead <= old(head) then old(head) else newHead
      ensures forall n :: n in Contents() && n in old(Contents()) ==>
                Contents()[n] == if newHead >= old(head) + size then cleared else old(Contents())[n]
      ensures forall n :: n in Contents() && n !in old(Contents()) ==>
                Contents()[n] == if newHead >= old(head) + size || Countable(old(head), newHead) then cleared
                                 else old(elems[Mod(n, size)])
    {
      if newHead <= head { return; }
      var i, max := Int32(head), Int32(newHead);
      if newHead - head >= size {
        i, max := 0, size;
      } else {
        CountsOrStops(head, newHead);
      }
      ghost var first := i;
      while i < max
        invariant first <= i && (i <= max || i == first)
        invariant forall j :: 0 <= j < size ==>
          elems[j] == if Hit(first, i, size, j) then cleared else old(elems[j])
        modifies elems
      {
        HitNext(first, i, size);
        elems[Mod(i, size)] := cleared;
        i := i + 1;
      }
      LoopClears(head, newHead, size, first, i);
      head := newHead;
    }
  }

  /** Slot j is that of one of the counters from first up to i. */
  ghost predicate Hit(first: int, i: int, size: nat, j: nat)
    requires size > 0
  {
    exists c :: first <= c < i && Mod(c, size) == j
  }

  lemma HitNext(first: int, i: int, size: nat)
    requires size > 0 && first <= i
    ensures forall j: nat :: Hit(first, i + 1, size, j) <==> Hit(first, i, size, j) || j == Mod(i, size)
  {
    forall j: nat ensures Hit(first, i + 1, size, j) <==> Hit(first, i, size, j) || j == Mod(i, size) {
      if Hit(first, i, size, j) {
        var c :| first <= c < i && Mod(c, size) == j;
        assert first <= c < i + 1 && Mod(c, size) == j;
      }
      if j == Mod(i, size) {
        assert first <= i < i + 1 && Mod(i, size) == j;
      }
    }
  }

  /** The slots that the loop cleared, against the sequence numbers that leave and enter the window. */
  lemma LoopClears(head: Seqno, newHead: Seqno, size: nat, first: int, last: int)
    requires 0 < size < 0x8000_0000 && 0x1_0000_0000 % size == 0 && head < newHead
    requires if newHead - head >= size then first == 0 && last == size
             else first == Int32(head) && last == if Countable(head, newHead) then Int32(newHead) else first
    ensures forall n :: newHead <= n < newHead + size ==>
      (Hit(first, last, size, Mod(n, size)) <==>
         newHead - head >= size || (Countable(head, newHead) && n >= head + size))
  {
    hide Mod, Int32, Countable, Hit;
    forall n | newHead <= n < newHead + size
      ensures Hit(first, last, size, Mod(n, size)) <==>
                newHead - head >= size || (Countable(head, newHead) && n >= head + size)
    {
      if newHead - head >= size {
        HitInRound(n, size);
      } else if Countable(head, newHead) {
        TruncatedSlot(head, newHead, size, n);
      } else {
        HitNone(first, size, Mod(n, size));
      }
    }
  }

  lemma HitInRound(n: Seqno, size: nat)
    requires size > 0
    ensures Hit(0, size, size, Mod(n, size))
  {
    assert 0 <= Mod(n, size) < size && Mod(Mod(n, size), size) == Mod(n, size);
  }

  lemma HitNone(first: int, size: nat, j: nat)
    requires size > 0
    ensures !Hit(first, first, size, j)
  {
  }

  lemma TruncatedSlot(head: Seqno, newHead: Seqno, size: nat, n: Seqno)
    requires 0 < size && 0x1_0000_0000 % size == 0 && head < newHead < head + size
    requires newHead <= n < newHead + size && Countable(head, newHead)
    ensures Hit(Int32(head), Int32(newHead), size, Mod(n, size)) <==> n >= head + size
  {
    hide Mod, Int32;
    var shift := Int32(head) - head;
    if n >= head + size {
      var c := n - size + shift;
      ShiftSlot(head, size, c);
      OneRound(n, size);
      assert Int32(head) <= c < Int32(newHead) && Mod(c, size) == Mod(n, size);
    }
    if Hit(Int32(head), Int32(newHead), size, Mod(n, size)) {
      var c :| Int32(head) <= c < Int32(newHead) && Mod(c, size) == Mod(n, size);
      ShiftSlot(head, size, c);
      SlotsDiffer(c - shift, n, size);
    }
  }

  lemma OneRound(n: Seqno, size: nat)
    requires size > 0
    ensures Mod(n - size, size) == Mod(n, size)
  {
    ModShift(n, 1, size);
  }

  /** Sequence numbers less than a round apart have different slots. */
  lemma SlotsDiffer(a: Seqno, b: Seqno, size: nat)
    requires size > 0 && Mod(a, size) == Mod(b, size) && a < b
    ensures b >= a + size
  {
    if b < a + size {
      ModSame(a, b, size);
    }
  }

  lemma ShiftSlot(head: Seqno, size: nat, c: int)
    requires size > 0 && 0x1_0000_0000 % size == 0
    ensures Mod(c, size) == Mod(c - (Int32(head) - head), size)
  {
    var k := (head + 0x8000_0000) / 0x1_0000_0000;
    var m := 0x1_0000_0000 / size;
    assert Int32(head) - head == 0 - k * 0x1_0000_0000;
    assert 0x1_0000_0000 == m * size;
    Assoc(k, m, size);
    ModShift(c + k * 0x1_0000_0000, k * m, size);
  }

  // ------------------------------------------------------------------
  // Checkpoints
  // ------------------------------------------------------------------

  const MAX_SIZE: nat := MAX_OUT / CHECKPOINT_INTERVAL + 1

  /** A sequence number of a checkpoint that the log has room for. */
  predicate IsSlot(head: Seqno, n: Seqno) {
    head <= n <= head + MAX_OUT && n % CHECKPOINT_INTERVAL == 0
  }

  /** certificate_index. */
  function CertIndex(headIndex: nat, head: Seqno, n: Seqno): (i: nat)
    requires head <= n
    ensures i < MAX_SIZE
  {
    (headIndex + (n - head) / CHECKPOINT_INTERVAL) % MAX_SIZE
  }

  /** Different checkpoints of the window have different slots, and every slot has one. */
  lemma IndexIsOneToOne(headIndex: nat, head: Seqno, a: Seqno, b: Seqno)
    requires headIndex < MAX_SIZE && head % CHECKPOINT_INTERVAL == 0 && IsSlot(head, a) && IsSlot(head, b)
    ensures CertIndex(headIndex, head, a) == CertIndex(headIndex, head, b) ==> a == b
  {
  }

  /** Moving the head within the window moves no certificate. */
  lemma IndexFollows(headIndex: nat, head: Seqno, newHead: Seqno, n: Seqno)
    requires headIndex < MAX_SIZE && head % CHECKPOINT_INTERVAL == 0 && IsSlot(head, newHead) && newHead <= n
    requires n % CHECKPOINT_INTERVAL == 0
    ensures CertIndex(CertIndex(headIndex, head, newHead), newHead, n) == CertIndex(headIndex, head, n)
  {
    hide CertIndex;
    var a, b := (newHead - head) / CHECKPOINT_INTERVAL, (n - newHead) / CHECKPOINT_INTERVAL;
    Intervals(newHead - head, n - newHead);
    AddRemainder(headIndex + a, b);
    IndexIs(headIndex, head, newHead, a);
    IndexIs(CertIndex(headIndex, head, newHead), newHead, n, b);
    IndexIs(headIndex, head, n, a + b);
  }

  lemma IndexIs(headIndex: nat, head: Seqno, n: Seqno, a: nat)
    requires head <= n && a == (n - head) / CHECKPOINT_INTERVAL
    ensures CertIndex(headIndex, head, n) == (headIndex + a) % MAX_SIZE
  {
  }

  lemma Intervals(x: nat, y: nat)
    requires x % CHECKPOINT_INTERVAL == 0
    ensures (x + y) / CHECKPOINT_INTERVAL == x / CHECKPOINT_INTERVAL + y / CHECKPOINT_INTERVAL
  {
  }

  lemma AddRemainder(x: nat, y: nat)
    ensures (x % MAX_SIZE + y) % MAX_SIZE == (x + y) % MAX_SIZE
  {
  }

  /** A checkpoint one window later has the slot of the earlier one. */
  lemma IndexRepeats(headIndex: nat, head: Seqno, n: Seqno)
    requires headIndex < MAX_SIZE && head % CHECKPOINT_INTERVAL == 0 && n % CHECKPOINT_INTERVAL == 0 && head <= n
    ensures CertIndex(headIndex, head, n + MAX_OUT + CHECKPOINT_INTERVAL) == CertIndex(headIndex, head, n)
  {
    var a := (n - head) / CHECKPOINT_INTERVAL;
    assert (n + MAX_OUT + CHECKPOINT_INTERVAL - head) / CHECKPOINT_INTERVAL == a + MAX_SIZE;
  }

  class CheckpointLog<T(!new)> {
    const cleared: T
    const certs: array<T>
    var head: Seqno
    var headIndex: nat

    ghost predicate Valid()
      reads this
    {
      certs.Length == MAX_SIZE && head >= 0 && head % CHECKPOINT_INTERVAL == 0 && headIndex < MAX_SIZE
    }

    /** What the log holds for the checkpoints of its window. */
    ghost function Contents(): map<Seqno, T>
      requires Valid()
      reads this, certs
    {
      map n | head <= n <= head + MAX_OUT && IsSlot(head, n) :: certs[CertIndex(headIndex, head, n)]
    }

    constructor (cleared: T)
      ensures Valid() && fresh(certs) && this.cleared == cleared && head == 0
      ensures forall n :: n in Contents() <==> IsSlot(0, n)
      ensures forall n :: n in Contents() ==> Contents()[n] == cleared
    {
      this.cleared, head, headIndex := cleared, 0, 0;
      certs := new T[MAX_SIZE](_ => cleared);
    }

    method Clear(h: Seqno)
      requires Valid() && h >= 0 && h % CHECKPOINT_INTERVAL == 0
      modifies this`head, certs
      ensures Valid() && head == h && forall n :: n in Contents() ==> Contents()[n] == cleared
    {
      for i := 0 to MAX_SIZE
        invariant forall j :: 0 <= j < i ==> certs[j] == cleared
        modifies certs
      {
        certs[i] := cleared;
      }
      head := h;
    }

    method Fetch(n: Seqno) returns (t: T)
      requires Valid() && IsSlot(head, n)
      ensures t == Contents()[n]
    {
      t := certs[CertIndex(headIndex, head, n)];
    }

    method Update(n: Seqno, t: T)
      requires Valid() && IsSlot(head, n)
      modifies certs
      ensures Valid() && Contents() == old(Contents())[n := t]
    {
      hide CertIndex;
      forall k | IsSlot(head, k) && k != n ensures CertIndex(headIndex, head, k) != CertIndex(headIndex, head, n) {
        IndexIsOneToOne(headIndex, head, k, n);
      }
      certs[CertIndex(headIndex, head, n)] := t;
    }

    /** Clears the entries below newHead. */
    method Retire(newHead: Seqno)
      requires Valid() && head < newHead <= head + MAX_OUT && newHead % CHECKPOINT_INTERVAL == 0
      modifies certs
      ensures forall n :: IsSlot(head, n) ==>
        certs[CertIndex(headIndex, head, n)] == if n < newHead then cleared else old(certs[CertIndex(headIndex, head, n)])
    {
      hide CertIndex;
      var c := head;
      while c < newHead
        invariant head <= c <= newHead && c % CHECKPOINT_INTERVAL == 0
        invariant forall n :: IsSlot(head, n) ==>
          certs[CertIndex(headIndex, head, n)] == if n < c then cleared else old(certs[CertIndex(headIndex, head, n)])
      {
        forall n | IsSlot(head, n) && n != c ensures CertIndex(headIndex, head, n) != CertIndex(headIndex, head, c) {
          IndexIsOneToOne(headIndex, head, n, c);
        }
        certs[CertIndex(headIndex, head, c)] := cleared;
        c := c + CHECKPOINT_INTERVAL;
      }
    }

    /** Entries below newHead are cleared and make room; the others stay. */
    method Truncate(newHead: Seqno)
      requires Valid() && newHead % CHECKPOINT_INTERVAL == 0
      modifies this, certs
      ensures Valid() && head == if newHead <= old(head) then old(head) else newHead
      ensures forall n :: n in Contents() ==>
                Contents()[n] == if IsSlot(old(head), n) then old(Contents())[n] else cleared
    {
      hide CertIndex;
      if newHead <= head { return; }
      if newHead > head + MAX_OUT {
        Clear(newHead);
        return;
      }
      Retire(newHead);
      forall n | IsSlot(newHead, n)
        ensures certs[CertIndex(CertIndex(headIndex, head, newHead), newHead, n)]
             == if IsSlot(head, n) then old(certs[CertIndex(headIndex, head, n)]) else cleared
      {
        IndexFollows(headIndex, head, newHead, n);
        if !IsSlot(head, n) {
          IndexRepeats(headIndex, head, n - MAX_OUT - CHECKPOINT_INTERVAL);
        }
      }
      headIndex := CertIndex(headIndex, head, newHead);
      head := newHead;
    }
  }
}
