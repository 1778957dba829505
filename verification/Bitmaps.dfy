/**
 * The chunked bitmap of src/Bitmap.h and its iterator, which skips whole chunks.  A chunk is the sequence of its bits.
 */
module Bitmaps {
  import opened Wrappers

  const CHUNK_BITS: nat := 64

  type Chunk = c: seq<bool> | |c| == CHUNK_BITS witness seq(CHUNK_BITS, _ => false)

  /** 0UL and ~0UL. */
  function Uniform(value: bool): Chunk {
    seq(CHUNK_BITS, _ => value)
  }

  predicate Bit(chunks: seq<Chunk>, i: nat)
    requires i / CHUNK_BITS < |chunks|
  {
    chunks[i / CHUNK_BITS][i % CHUNK_BITS]
  }

  function WithBit(chunks: seq<Chunk>, i: nat, value: bool): seq<Chunk>
    requires i / CHUNK_BITS < |chunks|
  {
    chunks[i / CHUNK_BITS := chunks[i / CHUNK_BITS][i % CHUNK_BITS := value]]
  }

  /** Changing one position leaves all others. */
  lemma BitChanged(chunks: seq<Chunk>, i: nat, value: bool, j: nat)
    requires i / CHUNK_BITS < |chunks| && j / CHUNK_BITS < |chunks|
    ensures Bit(WithBit(chunks, i, value), j) == if i == j then value else Bit(chunks, j)
  {
    Rejoin(i);
    Rejoin(j);
  }

  lemma Rejoin(i: nat)
    ensures i == i / CHUNK_BITS * CHUNK_BITS + i % CHUNK_BITS
  {
  }

  lemma BitOfChunk(k: nat, p: nat)
    requires p < CHUNK_BITS
    ensures (k * CHUNK_BITS + p) / CHUNK_BITS == k && (k * CHUNK_BITS + p) % CHUNK_BITS == p
  {
  }

  /** No position from lo on up to hi has the value. */
  ghost predicate NoneFrom(chunks: seq<Chunk>, value: bool, lo: nat, hi: nat) {
    forall j: nat :: lo <= j < hi && j / CHUNK_BITS < |chunks| ==> Bit(chunks, j) != value
  }

  lemma NoneInChunk(chunks: seq<Chunk>, value: bool, k: nat)
    requires k < |chunks|
    ensures chunks[k] == Uniform(!value) <==> NoneFrom(chunks, value, k * CHUNK_BITS, k * CHUNK_BITS + CHUNK_BITS)
  {
    if chunks[k] == Uniform(!value) {
      forall j: nat | k * CHUNK_BITS <= j < k * CHUNK_BITS + CHUNK_BITS ensures j / CHUNK_BITS == k {
        BitOfChunk(k, j - k * CHUNK_BITS);
      }
    }
    if NoneFrom(chunks, value, k * CHUNK_BITS, k * CHUNK_BITS + CHUNK_BITS) {
      forall p: nat | p < CHUNK_BITS ensures chunks[k][p] == !value {
        BitOfChunk(k, p);
        assert Bit(chunks, k * CHUNK_BITS + p) != value;
      }
      assert chunks[k] == Uniform(!value);
    }
  }

  /**
   * The step over a chunk without the value goes from index to index + 64: that passes nothing by exactly if nothing is
   * between the end of the chunk and there, as when the index is at the start of the chunk.
   */
  lemma SkipIsRight(chunks: seq<Chunk>, value: bool, index: nat)
    requires index / CHUNK_BITS < |chunks| && chunks[index / CHUNK_BITS] == Uniform(!value)
    ensures var next := (index / CHUNK_BITS + 1) * CHUNK_BITS;
            && (NoneFrom(chunks, value, index, index + CHUNK_BITS) <==> NoneFrom(chunks, value, next, index + CHUNK_BITS))
            && (index % CHUNK_BITS == 0 ==> next == index + CHUNK_BITS)
  {
    hide Bit;
    Rejoin(index);
    NoneInChunk(chunks, value, index / CHUNK_BITS);
  }

  class Bitmap {
    const num: nat
    const chunks: array<Chunk>

    ghost predicate Valid() {
      chunks.Length == (num + CHUNK_BITS - 1) / CHUNK_BITS
    }

    /** The positions that are set. */
    ghost function Contents(): set<nat>
      requires Valid()
      reads chunks
    {
      set i: nat | i < num && Bit(chunks[..], i)
    }

    /** Nothing is set past the last position. */
    ghost predicate CleanPadding()
      requires Valid()
      reads chunks
    {
      NoneFrom(chunks[..], true, num, chunks.Length * CHUNK_BITS)
    }

    constructor (size: nat, value: bool)
      ensures Valid() && fresh(chunks) && num == size
      ensures forall i: nat :: i in Contents() <==> value && i < size
      ensures CleanPadding() <==> !value || size % CHUNK_BITS == 0
    {
      num := size;
      chunks := new Chunk[(size + CHUNK_BITS - 1) / CHUNK_BITS](_ => Uniform(value));
      new;
      if value && size % CHUNK_BITS != 0 {
        assert Bit(chunks[..], size);
      }
    }

    predicate Test(i: nat)
      requires Valid() && i < num
      reads chunks
      ensures Test(i) <==> i in Contents()
    {
      Bit(chunks[..], i)
    }

    method Assign(i: nat, value: bool)
      requires Valid() && i < num
      modifies chunks
      ensures Contents() == if value then old(Contents()) + {i} else old(Contents()) - {i}
      ensures CleanPadding() <==> old(CleanPadding())
    {
      ghost var was := chunks[..];
      chunks[i / CHUNK_BITS] := chunks[i / CHUNK_BITS][i % CHUNK_BITS := value];
      assert chunks[..] == WithBit(was, i, value);
      forall j: nat | j / CHUNK_BITS < |was| ensures Bit(chunks[..], j) == if i == j then value else Bit(was, j) {
        BitChanged(was, i, value, j);
      }
    }

    /** all_zero, which looks at whole chunks. */
    method AllZero() returns (b: bool)
      requires Valid()
      ensures b <==> Contents() == {} && CleanPadding()
    {
      b := true;
      var k := 0;
      while k < chunks.Length
        invariant k <= chunks.Length && NoneFrom(chunks[..], true, 0, k * CHUNK_BITS)
      {
        NoneInChunk(chunks[..], true, k);
        if chunks[k] != Uniform(false) {
          ghost var j: nat :| k * CHUNK_BITS <= j < k * CHUNK_BITS + CHUNK_BITS && j / CHUNK_BITS < chunks.Length && Bit(chunks[..], j);
          assert j < num ==> j in Contents();
          return false;
        }
        k := k + 1;
      }
    }
  }

  class Iter {
    const bitmap: Bitmap
    const value: bool
    var index: nat

    /** The bitmap has not changed under the iterator: within a chunk, there was something to look at. */
    ghost predicate Valid()
      reads this, bitmap.chunks
    {
      && bitmap.Valid()
      && (index < bitmap.num && index % CHUNK_BITS != 0 ==> bitmap.chunks[index / CHUNK_BITS] != Uniform(!value))
    }

    constructor (bitmap: Bitmap, value: bool)
      requires bitmap.Valid()
      ensures Valid() && this.bitmap == bitmap && this.value == value && index == 0
    {
      this.bitmap, this.value, index := bitmap, value, 0;
    }

    /** The next position with the value, or none: none is passed by. */
    method Get() returns (r: Option<nat>)
      requires Valid()
      modifies this
      ensures Valid()
      ensures r.Some? ==> old(index) <= r.value < bitmap.num && bitmap.Test(r.value) == value && index == r.value + 1
      ensures NoneFrom(bitmap.chunks[..], value, old(index), if r.Some? then r.value else bitmap.num)
    {
      while index < bitmap.num
        invariant Valid() && old(index) <= index
        invariant NoneFrom(bitmap.chunks[..], value, old(index), index)
        decreases bitmap.num - index
      {
        if bitmap.chunks[index / CHUNK_BITS] == Uniform(!value) {
          SkipIsRight(bitmap.chunks[..], value, index);
          index := index + CHUNK_BITS;
          continue;
        }
        if bitmap.Test(index) == value {
          index := index + 1;
          return Some(index - 1);
        }
        index := index + 1;
      }
      return None;
    }
  }
}
