/**
 * The allocator behind the logs: Log_allocator of src/Log_allocator.h and
 * src/Log_allocator.cc.  Memory is handed out by moving a pointer through the
 * current chunk; a chunk goes on the free list when its last block is freed.
 *
 * Chunks are aligned to their size, so an address is the number of a chunk and
 * an offset in it; Masking shows that masking an address gives its chunk.
 */
module LogAllocator {
  import opened Multiples

  /** Offset of the data in a chunk, and the size of its header. */
  const DATA: nat := 24
  const HEADER: nat := 32

  datatype Ptr = Ptr(chunk: nat, off: nat)

  function Address(csz: nat, p: Ptr): int {
    p.chunk * csz + p.off
  }

  /** (long)p & ~((long)chunk_size - 1). */
  lemma Masking(csz: nat, p: Ptr)
    requires 0 <= p.off < csz
    ensures Address(csz, p) - Address(csz, p) % csz == Address(csz, Ptr(p.chunk, 0))
  {
    Remainder(csz, p.chunk, p.off);
  }

  /** The header of a chunk: "next" is the offset of the free area or, on the free list, the number of the next chunk. */
  datatype Chunk = Chunk(next: nat, nb: int)

  function MaxOffset(csz: nat): int {
    DATA + csz - HEADER
  }

  function InChunk(live: map<Ptr, nat>, c: nat): set<Ptr> {
    set p | p in live && p.chunk == c
  }

  ghost predicate Disjoint(live: map<Ptr, nat>) {
    forall p, q :: p in live && q in live && p.chunk == q.chunk && p.off < q.off ==> p.off + live[p] <= q.off
  }

  /** Blocks lie within the data of a chunk that there is. */
  ghost predicate Blocks(csz: nat, live: map<Ptr, nat>, mem: map<nat, Chunk>) {
    forall p :: p in live ==> live[p] > 0 && DATA <= p.off && p.off + live[p] <= MaxOffset(csz) && p.chunk in mem
  }

  /** Blocks of the current chunk lie below the free area. */
  ghost predicate BelowFree(live: map<Ptr, nat>, cur: nat, next: nat) {
    forall p :: p in live && p.chunk == cur ==> p.off + live[p] <= next
  }

  /** A chunk counts its live blocks, the current one itself besides. */
  ghost predicate ChunksCounted(live: map<Ptr, nat>, mem: map<nat, Chunk>, cur: nat) {
    forall c :: c in mem ==> c > 0 && mem[c].nb == |InChunk(live, c)| + if c == cur then 1 else 0
  }

  /** Element i of the list has no blocks and points to the next one. */
  ghost predicate Link(mem: map<nat, Chunk>, list: seq<nat>, i: nat)
    requires i < |list|
  {
    && list[i] in mem && list[i] > 0 && mem[list[i]].nb == 0
    && mem[list[i]].next == if i + 1 < |list| then list[i + 1] else 0
  }

  /** The free list has exactly the chunks without blocks, each once. */
  ghost predicate FreeList(mem: map<nat, Chunk>, head: nat, list: seq<nat>) {
    && head == (if list == [] then 0 else list[0])
    && (forall i :: 0 <= i < |list| ==> Link(mem, list, i))
    && (forall i, j :: 0 <= i < j < |list| ==> list[i] != list[j])
    && (forall c :: c in mem && mem[c].nb == 0 ==> c in list)
  }

  /** The chunks of an area from index "from" on are not in use yet. */
  ghost predicate Unused(mem: map<nat, Chunk>, area: nat, from: nat, nc: nat) {
    forall c :: area + from <= c < area + nc ==> c !in mem
  }

  class Allocator {
    const csz: nat                // chunk_size
    const nc: nat                 // max_num_chunks
    var mem: map<nat, Chunk>      // the chunks in use or on the free list
    var cur: nat
    var area: nat                 // chunks
    var numChunks: nat
    var freeChunks: nat           // 0 for none
    ghost var list: seq<nat>      // the free list
    ghost var live: map<Ptr, nat> // the size of every block handed out

    ghost predicate Valid()
      reads this
    {
      && csz > HEADER && AreaOK() && cur in mem && DATA <= mem[cur].next <= MaxOffset(csz)
      && Blocks(csz, live, mem) && Disjoint(live) && BelowFree(live, cur, mem[cur].next)
      && ChunksCounted(live, mem, cur)
      && FreeList(mem, freeChunks, list)
    }

    ghost predicate AreaOK()
      reads this
    {
      nc >= 1 && numChunks <= nc && (numChunks < nc ==> area > 0) && Unused(mem, area, numChunks, nc)
    }

    /** A new area that the operating system may map, without any of the chunks there are. */
    ghost predicate Mappable(a: nat)
      reads this
    {
      a > 0 && Unused(mem, a, 0, nc)
    }

    /** alloc_chunk; newArea is where mmap puts an area if one is needed. */
    method AllocChunk(newArea: nat) returns (ret: nat)
      requires csz > HEADER && AreaOK() && FreeList(mem, freeChunks, list) && Mappable(newArea)
      modifies this`mem, this`area, this`numChunks, this`freeChunks, this`list
      ensures ret > 0 && mem == old(mem)[ret := Chunk(DATA, 1)] && (ret in old(mem) ==> old(mem)[ret].nb == 0)
      ensures AreaOK() && FreeList(mem, freeChunks, list)
      ensures ret !in list && old(list) == (if ret in old(mem) then [ret] else []) + list
      ensures ret in old(mem) <==> old(list) != []
    {
      hide FreeList;
      ListHead(mem, freeChunks, list);
      if freeChunks != 0 {
        // First try the free list.
        ret := freeChunks;
        Pop(mem, freeChunks, list, Chunk(DATA, 1));
        freeChunks := mem[freeChunks].next;
        list := list[1..];
      } else {
        if numChunks == nc {
          area := newArea;
          numChunks := 0;
        }
        ret := area + numChunks;
        Take(mem, freeChunks, list, ret, Chunk(DATA, 1));
        numChunks := numChunks + 1;
      }
      mem := mem[ret := Chunk(DATA, 1)];
    }

    constructor (csz: nat, nc: nat, newArea: nat)
      requires csz > HEADER && nc >= 1 && newArea > 0
      ensures Valid() && this.csz == csz && this.nc == nc && live == map[]
    {
      this.csz, this.nc := csz, nc;
      mem, numChunks, freeChunks, area, list, live := map[], nc, 0, 0, [], map[];
      cur := 0;
      new;
      hide ChunksCounted, Unused;
      NoChunks(newArea, nc);
      cur := AllocChunk(newArea);
      FirstChunk(cur);
    }

    /**
     * malloc: a block of sz bytes, apart from every other.  The source loops
     * until a block fits; it does after at most one change of chunk if sz is
     * below the capacity of a chunk, and NeverFits says what happens if not.
     */
    method Malloc(sz: nat, newArea: nat) returns (p: Ptr)
      requires Valid() && 0 < sz < csz - HEADER && Mappable(newArea)
      modifies this
      ensures Valid() && p !in old(live) && live == old(live)[p := sz]
      ensures p.chunk == cur
    {
      hide FreeList, ChunksCounted, Blocks, Disjoint, BelowFree, Unused;
      var done := false;
      p := Ptr(0, 0);
      while !done
        invariant Valid()
        invariant if done then p !in old(live) && live == old(live)[p := sz] && p.chunk == cur
                  else live == old(live) && (Mappable(newArea) || mem[cur] == Chunk(DATA, 1))
        decreases !done, mem[cur].next
      {
        done, p := MallocRound(sz, newArea);
      }
    }

    /**
     * One round of malloc, for any size: a block if it fits the rest of the
     * current chunk, and otherwise a current chunk without blocks.  A chunk
     * that is such already stays, and with it everything else.
     */
    method MallocRound(sz: nat, newArea: nat) returns (done: bool, p: Ptr)
      requires Valid() && 0 < sz && (Mappable(newArea) || mem[cur].nb == 1)
      modifies this
      ensures Valid()
      ensures done <==> old(mem[cur]).next + sz < MaxOffset(csz)
      ensures done ==> p == Ptr(cur, old(mem[cur]).next) && cur == old(cur) && p !in old(live) && live == old(live)[p := sz]
      ensures !done ==> live == old(live) && mem[cur] == Chunk(DATA, 1)
      ensures !done && old(mem[cur]).nb == 1 ==>
                mem == old(mem)[cur := Chunk(DATA, 1)] && cur == old(cur) && freeChunks == old(freeChunks) && list == old(list)
                && area == old(area) && numChunks == old(numChunks)
    {
      hide FreeList, ChunksCounted, CountedNone, Blocks, Disjoint, BelowFree, Unused;
      var next := mem[cur].next;
      done, p := false, Ptr(0, 0);
      if next + sz < MaxOffset(csz) {
        // There is space in the current chunk.
        p := Ptr(cur, next);
        BlockAdded(csz, live, mem, cur, freeChunks, list, next, sz);
        SameKeys(mem, mem[cur := Chunk(next + sz, mem[cur].nb + 1)], area, numChunks, nc);
        mem := mem[cur := Chunk(next + sz, mem[cur].nb + 1)];
        live := live[p := sz];
        done := true;
      } else if mem[cur].nb == 1 {
        // The current chunk has no blocks and can be reused.
        Rewound(csz, live, mem, cur, freeChunks, list);
        SameKeys(mem, mem[cur := Chunk(DATA, 1)], area, numChunks, nc);
        mem := mem[cur := Chunk(DATA, 1)];
      } else {
        // The old chunk may go when its blocks are freed.
        ChunkLeft(csz, live, mem, cur, freeChunks, list);
        SameKeys(mem, mem[cur := Chunk(next, mem[cur].nb - 1)], area, numChunks, nc);
        SameKeys(mem, mem[cur := Chunk(next, mem[cur].nb - 1)], newArea, 0, nc);
        mem := mem[cur := Chunk(next, mem[cur].nb - 1)];
        ghost var was := mem;
        var c := AllocChunk(newArea);
        ChunkEntered(csz, live, was, c);
        cur := c;
      }
    }

    /** However many rounds malloc takes, a block of the capacity of a chunk or more is never handed out. */
    method NeverFits(sz: nat, newArea: nat, rounds: nat)
      requires Valid() && sz > 0 && sz >= csz - HEADER && Mappable(newArea)
      modifies this
      ensures Valid() && live == old(live) && (rounds > 0 ==> mem[cur] == Chunk(DATA, 1))
    {
      hide FreeList, ChunksCounted, Blocks, Disjoint, BelowFree, Unused;
      for k := 0 to rounds
        invariant Valid() && live == old(live)
        invariant if k == 0 then Mappable(newArea) else mem[cur] == Chunk(DATA, 1)
      {
        var done, p := MallocRound(sz, newArea);
      }
    }

    /** free: the block p of sz bytes is given back. */
    method Free(p: Ptr, sz: nat)
      requires Valid() && p in live && live[p] == sz
      modifies this`mem, this`freeChunks, this`list, this`live
      ensures Valid() && live == old(live) - {p}
      ensures p.chunk in list <==> InChunk(live, p.chunk) == {} && p.chunk != cur
    {
      hide FreeList, ChunksCounted, Blocks, Disjoint, BelowFree, Unused;
      var pc := p.chunk;
      BlockFacts(csz, live, mem, cur, p);
      NotListed(mem, freeChunks, list, pc);
      var c := mem[pc];
      if pc == cur && p.off + sz == c.next {
        // The space can be reused.
        c := c.(next := c.next - sz);
      }
      c := c.(nb := c.nb - 1);
      BlockRemoved(csz, live, mem, cur, p);
      CountsFollow(live, mem, cur, p, c);
      CountsFollow(live, mem, cur, p, c.(next := freeChunks));
      live := live - {p};
      if c.nb == 0 {
        ListFreed(mem, freeChunks, list, pc, Chunk(freeChunks, 0));
        list := [pc] + list;
        assert list[0] == pc;
        c := c.(next := freeChunks);
        freeChunks := pc;
      } else {
        FreeListKept(mem, freeChunks, list, pc, c);
      }
      SameKeys(mem, mem[pc := c], area, numChunks, nc);
      BlocksIgnoreHeaders(csz, live, mem, mem[pc := c]);
      mem := mem[pc := c];
    }

    /** realloc: changes the size of the last block of the current chunk, if there is space. */
    method Realloc(p: Ptr, osz: nat, nsz: nat) returns (ok: bool)
      requires Valid() && p in live && live[p] == osz && nsz > 0
      modifies this`mem, this`live
      ensures Valid() && live == if ok then old(live)[p := nsz] else old(live)
      ensures ok <==> p.chunk == cur && p.off + osz == old(mem)[cur].next && p.off + nsz < MaxOffset(csz)
    {
      hide FreeList, ChunksCounted, Unused;
      if p.chunk == cur && p.off + osz == mem[cur].next {
        var diff := nsz - osz;
        if mem[cur].next + diff < MaxOffset(csz) {
          var c := Chunk(p.off + nsz, mem[cur].nb);
          BlockFacts(csz, live, mem, cur, p);
          FreeListKept(mem, freeChunks, list, cur, c);
          SameKeys(mem, mem[cur := c], area, numChunks, nc);
          Resized(csz, live, mem, cur, p, nsz);
          mem := mem[cur := c];
          live := live[p := nsz];
          return true;
        }
      }
      return false;
    }
  }

  predicate FitsChunk(csz: nat, next: nat, sz: nat) {
    DATA <= next && next + sz < MaxOffset(csz)
  }

  /** A block fits a chunk, however empty, exactly if it is smaller than its data. */
  lemma FitsEmptyChunk(csz: nat, sz: nat)
    requires csz > HEADER
    ensures (exists next :: FitsChunk(csz, next, sz)) <==> sz < csz - HEADER
  {
    if sz < csz - HEADER {
      assert FitsChunk(csz, DATA, sz);
    }
  }

  lemma BlocksIgnoreHeaders(csz: nat, live: map<Ptr, nat>, mem: map<nat, Chunk>, mem': map<nat, Chunk>)
    requires Blocks(csz, live, mem) && mem'.Keys == mem.Keys
    ensures Blocks(csz, live, mem')
  {
    forall p | p in live ensures p.chunk in mem' {
      assert p.chunk in mem.Keys;
    }
  }

  lemma NotListed(mem: map<nat, Chunk>, head: nat, list: seq<nat>, c: nat)
    requires FreeList(mem, head, list) && c in mem && mem[c].nb != 0
    ensures c !in list
  {
    forall i | 0 <= i < |list| ensures list[i] != c {
      assert Link(mem, list, i);
    }
  }

  lemma SameKeys(mem: map<nat, Chunk>, mem': map<nat, Chunk>, area: nat, from: nat, nc: nat)
    requires mem'.Keys == mem.Keys
    ensures Unused(mem, area, from, nc) <==> Unused(mem', area, from, nc)
  {
    if Unused(mem, area, from, nc) {
      forall c | area + from <= c < area + nc ensures c !in mem' {
        assert c !in mem.Keys;
      }
    }
    if Unused(mem', area, from, nc) {
      forall c | area + from <= c < area + nc ensures c !in mem {
        assert c !in mem'.Keys;
      }
    }
  }

  lemma Rewound(csz: nat, live: map<Ptr, nat>, mem: map<nat, Chunk>, cur: nat, head: nat, list: seq<nat>)
    requires cur in mem && mem[cur].nb == 1 && Blocks(csz, live, mem) && ChunksCounted(live, mem, cur) && FreeList(mem, head, list)
    ensures var mem' := mem[cur := Chunk(DATA, 1)];
            Blocks(csz, live, mem') && BelowFree(live, cur, DATA) && ChunksCounted(live, mem', cur) && FreeList(mem', head, list)
  {
    hide FreeList;
    NoBlocks(live, mem, cur);
    FreeListKept(mem, head, list, cur, Chunk(DATA, 1));
  }

  /** Every chunk counts its blocks and none is current. */
  ghost predicate CountedNone(live: map<Ptr, nat>, mem: map<nat, Chunk>) {
    forall c :: c in mem ==> c > 0 && mem[c].nb == |InChunk(live, c)|
  }

  lemma ChunkLeft(csz: nat, live: map<Ptr, nat>, mem: map<nat, Chunk>, cur: nat, head: nat, list: seq<nat>)
    requires cur in mem && mem[cur].nb != 1 && ChunksCounted(live, mem, cur) && FreeList(mem, head, list) && Blocks(csz, live, mem)
    ensures var mem' := mem[cur := Chunk(mem[cur].next, mem[cur].nb - 1)];
            mem'[cur].nb > 0 && CountedNone(live, mem') && FreeList(mem', head, list) && Blocks(csz, live, mem')
  {
    hide FreeList;
    FreeListKept(mem, head, list, cur, Chunk(mem[cur].next, mem[cur].nb - 1));
  }

  /** A chunk without blocks becomes the current one. */
  lemma ChunkEntered(csz: nat, live: map<Ptr, nat>, mem: map<nat, Chunk>, c: nat)
    requires csz > HEADER && CountedNone(live, mem) && c > 0 && (c in mem ==> mem[c].nb == 0)
    requires Blocks(csz, live, mem)
    ensures var mem' := mem[c := Chunk(DATA, 1)];
            BelowFree(live, c, DATA) && ChunksCounted(live, mem', c) && Blocks(csz, live, mem')
  {
    assert InChunk(live, c) == {} by {
      if c !in mem {
        forall p | p in live ensures p.chunk != c {
        }
      }
    }
    forall p | p in live ensures p.chunk != c {
      assert p !in InChunk(live, c);
    }
  }

  lemma BlockFacts(csz: nat, live: map<Ptr, nat>, mem: map<nat, Chunk>, cur: nat, p: Ptr)
    requires Blocks(csz, live, mem) && ChunksCounted(live, mem, cur) && p in live
    ensures p.chunk in mem && p.chunk > 0 && live[p] > 0 && DATA <= p.off && p.off + live[p] <= MaxOffset(csz)
    ensures mem[p.chunk].nb >= if p.chunk == cur then 2 else 1
  {
    assert p in InChunk(live, p.chunk);
  }

  lemma CountRemoved(live: map<Ptr, nat>, p: Ptr, c: nat)
    requires p in live
    ensures |InChunk(live - {p}, c)| == |InChunk(live, c)| - if p.chunk == c then 1 else 0
  {
    assert InChunk(live - {p}, c) == InChunk(live, c) - if p.chunk == c then {p} else {};
  }

  /** The end of the free area once block p is gone. */
  function NextAfterFree(live: map<Ptr, nat>, mem: map<nat, Chunk>, cur: nat, p: Ptr): nat
    requires p in live && p.chunk in mem && cur in mem
  {
    if p.chunk == cur && p.off + live[p] == mem[cur].next then p.off else mem[p.chunk].next
  }

  lemma BlockRemoved(csz: nat, live: map<Ptr, nat>, mem: map<nat, Chunk>, cur: nat, p: Ptr)
    requires Blocks(csz, live, mem) && Disjoint(live) && p in live && p.chunk in mem && cur in mem
    requires BelowFree(live, cur, mem[cur].next)
    ensures Blocks(csz, live - {p}, mem) && Disjoint(live - {p})
    ensures BelowFree(live - {p}, cur, if p.chunk == cur then NextAfterFree(live, mem, cur, p) else mem[cur].next)
  {
    forall q | q in live && q != p && q.chunk == p.chunk && p.off + live[p] == mem[cur].next && q.off + live[q] <= mem[cur].next
      ensures q.off + live[q] <= p.off
    {
      Earlier(live, p, q);
    }
  }

  /** Of two blocks that end no later than the second, the first ends before the second begins. */
  lemma Earlier(live: map<Ptr, nat>, p: Ptr, q: Ptr)
    requires Disjoint(live) && p in live && q in live && p != q && p.chunk == q.chunk && live[q] > 0
    requires q.off + live[q] <= p.off + live[p]
    ensures q.off + live[q] <= p.off
  {
  }

  lemma CountsFollow(live: map<Ptr, nat>, mem: map<nat, Chunk>, cur: nat, p: Ptr, c: Chunk)
    requires ChunksCounted(live, mem, cur) && p in live && p.chunk in mem && c.nb == mem[p.chunk].nb - 1
    ensures ChunksCounted(live - {p}, mem[p.chunk := c], cur)
    ensures c.nb == 0 <==> InChunk(live - {p}, p.chunk) == {} && p.chunk != cur
  {
    var live' := live - {p};
    forall k | k in mem ensures |InChunk(live', k)| == |InChunk(live, k)| - if p.chunk == k then 1 else 0 {
      CountRemoved(live, p, k);
    }
    assert mem[p.chunk].nb == |InChunk(live, p.chunk)| + if p.chunk == cur then 1 else 0;
    assert |InChunk(live', p.chunk)| == 0 <==> InChunk(live', p.chunk) == {};
  }

  /** A chunk that lost its last block goes on the free list. */
  lemma ListFreed(mem: map<nat, Chunk>, head: nat, list: seq<nat>, a: nat, c: Chunk)
    requires FreeList(mem, head, list) && a in mem && a > 0 && mem[a].nb != 0 && c == Chunk(head, 0)
    ensures a !in list && FreeList(mem[a := c], a, [a] + list)
  {
    hide Link;
    var mem', list' := mem[a := c], [a] + list;
    NotListed(mem, head, list, a);
    FirstLink(mem, head, list, a, c);
    forall i | 0 < i < |list'| ensures Link(mem', list', i) {
      LaterLink(mem, list, a, c, i);
    }
    forall x | x in mem' && mem'[x].nb == 0 ensures x in list' {
      assert x == a || x in list;
    }
  }

  lemma FirstLink(mem: map<nat, Chunk>, head: nat, list: seq<nat>, a: nat, c: Chunk)
    requires head == (if list == [] then 0 else list[0]) && a > 0 && c == Chunk(head, 0)
    ensures Link(mem[a := c], [a] + list, 0)
  {
  }

  lemma LaterLink(mem: map<nat, Chunk>, list: seq<nat>, a: nat, c: Chunk, i: nat)
    requires 0 < i <= |list| && a !in list && Link(mem, list, i - 1)
    ensures Link(mem[a := c], [a] + list, i)
  {
    assert ([a] + list)[i] == list[i - 1];
  }

  lemma Resized(csz: nat, live: map<Ptr, nat>, mem: map<nat, Chunk>, cur: nat, p: Ptr, nsz: nat)
    requires Blocks(csz, live, mem) && Disjoint(live) && ChunksCounted(live, mem, cur) && cur in mem
    requires p in live && p.chunk == cur && BelowFree(live, cur, mem[cur].next) && p.off + live[p] == mem[cur].next
    requires nsz > 0 && p.off + nsz < MaxOffset(csz)
    ensures var live', mem' := live[p := nsz], mem[cur := Chunk(p.off + nsz, mem[cur].nb)];
            Blocks(csz, live', mem') && Disjoint(live') && BelowFree(live', cur, p.off + nsz) && ChunksCounted(live', mem', cur)
  {
    var live' := live[p := nsz];
    forall c | c in mem ensures InChunk(live', c) == InChunk(live, c) {
    }
    forall q | q in live && q.chunk == cur && q != p ensures q.off + live[q] <= p.off {
      Earlier(live, p, q);
    }
  }

  lemma NoChunks(area: nat, nc: nat)
    ensures Unused(map[], 0, nc, nc) && Unused(map[], area, 0, nc)
  {
  }

  lemma FirstChunk(c: nat)
    requires c > 0
    ensures ChunksCounted(map[], map[c := Chunk(DATA, 1)], c)
  {
    assert InChunk(map[], c) == {};
  }

  lemma ListHead(mem: map<nat, Chunk>, head: nat, list: seq<nat>)
    requires FreeList(mem, head, list)
    ensures head == 0 <==> list == []
    ensures list != [] ==> head in mem && mem[head].nb == 0 && list[0] == head
  {
    if list != [] {
      assert Link(mem, list, 0);
    }
  }

  /** The first chunk of the free list is taken. */
  lemma Pop(mem: map<nat, Chunk>, head: nat, list: seq<nat>, c: Chunk)
    requires FreeList(mem, head, list) && list != [] && head in mem && c.nb == 1
    ensures FreeList(mem[head := c], mem[head].next, list[1..])
    ensures head !in list[1..] && list == [head] + list[1..]
  {
    var mem', rest := mem[head := c], list[1..];
    assert list[0] == head;
    assert Link(mem, list, 0);
    forall i | 0 <= i < |rest| ensures Link(mem', rest, i) {
      assert Link(mem, list, i + 1) && rest[i] == list[i + 1];
    }
    PopComplete(mem, head, list, c);
  }

  lemma PopComplete(mem: map<nat, Chunk>, head: nat, list: seq<nat>, c: Chunk)
    requires list != [] && list[0] == head && c.nb == 1 && forall a :: a in mem && mem[a].nb == 0 ==> a in list
    ensures forall a :: a in mem[head := c] && mem[head := c][a].nb == 0 ==> a in list[1..]
  {
    forall a | a in mem && mem[a].nb == 0 && a != head ensures a in list[1..] {
      var i :| 0 <= i < |list| && list[i] == a;
      assert list[1..][i - 1] == a;
    }
  }

  /** A chunk that was not in use is taken. */
  lemma Take(mem: map<nat, Chunk>, head: nat, list: seq<nat>, a: nat, c: Chunk)
    requires FreeList(mem, head, list) && c.nb == 1 && a !in mem
    ensures a !in list && FreeList(mem[a := c], head, list)
  {
    forall i | 0 <= i < |list| ensures Link(mem[a := c], list, i) && list[i] != a {
      assert Link(mem, list, i);
    }
  }

  /** A chunk with blocks may change as long as it keeps some. */
  lemma FreeListKept(mem: map<nat, Chunk>, head: nat, list: seq<nat>, a: nat, c: Chunk)
    requires FreeList(mem, head, list) && a in mem && mem[a].nb != 0 && c.nb != 0
    ensures FreeList(mem[a := c], head, list)
  {
    var mem' := mem[a := c];
    forall i | 0 <= i < |list| ensures Link(mem', list, i) {
      assert Link(mem, list, i);
    }
  }

  lemma CountAdded(live: map<Ptr, nat>, p: Ptr, sz: nat, c: nat)
    requires p !in live
    ensures |InChunk(live[p := sz], c)| == |InChunk(live, c)| + if p.chunk == c then 1 else 0
  {
    assert InChunk(live[p := sz], c) == InChunk(live, c) + if p.chunk == c then {p} else {};
  }

  /** A block at the beginning of the free area of the current chunk. */
  lemma BlockAdded(csz: nat, live: map<Ptr, nat>, mem: map<nat, Chunk>, cur: nat, head: nat, list: seq<nat>, next: nat, sz: nat)
    requires csz > HEADER && cur in mem && mem[cur].next == next >= DATA && sz > 0 && next + sz < MaxOffset(csz)
    requires Blocks(csz, live, mem) && Disjoint(live) && BelowFree(live, cur, next) && ChunksCounted(live, mem, cur)
    requires FreeList(mem, head, list)
    ensures var p, mem' := Ptr(cur, next), mem[cur := Chunk(next + sz, mem[cur].nb + 1)];
            && p !in live
            && Blocks(csz, live[p := sz], mem') && Disjoint(live[p := sz]) && BelowFree(live[p := sz], cur, next + sz)
            && ChunksCounted(live[p := sz], mem', cur) && FreeList(mem', head, list)
  {
    hide FreeList;
    var p, mem' := Ptr(cur, next), mem[cur := Chunk(next + sz, mem[cur].nb + 1)];
    FreeListKept(mem, head, list, cur, Chunk(next + sz, mem[cur].nb + 1));
    forall c | c in mem' ensures |InChunk(live[p := sz], c)| == |InChunk(live, c)| + if p.chunk == c then 1 else 0 {
      CountAdded(live, p, sz, c);
    }
  }

  lemma NoBlocks(live: map<Ptr, nat>, mem: map<nat, Chunk>, cur: nat)
    requires ChunksCounted(live, mem, cur) && cur in mem && mem[cur].nb == 1
    ensures forall p :: p in live ==> p.chunk != cur
  {
    forall p | p in live ensures p.chunk != cur {
      assert InChunk(live, cur) == {};
      assert p !in InChunk(live, cur);
    }
  }
}
