/**
 * The checkpointed state store: class State of src/State.h and src/State.cc,
 * without state transfer.  Checkpoints are kept as copies made on write;
 * every read of a retained checkpoint is proved to give what a full copy
 * taken at the checkpoint would give.
 */
module StateStore {
  import opened Wrappers
  import opened Types
  import opened DigestTree
  import opened StateHistory
  import opened TreeUpdate

  const BLOCK_SIZE: nat := 4096

  class State<B(!new)> {
    const h: Hasher<B>
    const m: nat                 // the modulus of digest sums
    const mem: array<B>
    var cowb: set<nat>           // blocks copied since the last checkpoint
    var tree: Tree               // ptree and stree
    var clog: map<Seqno, CkptRec<B>>
    var head: Seqno              // of the checkpoint log
    var lc: Seqno
    ghost var hist: seq<Snap<B>> // a full copy of the state for every retained checkpoint

    ghost predicate Valid()
      reads this, mem
    {
      && HashesInto(h, m) && 1 <= mem.Length <= CHILDREN * CHILDREN * CHILDREN
      && Past(h, m, clog, hist, mem.Length)
      && hist[|hist| - 1].n == lc && hist[|hist| - 1].tree == tree
      && head <= hist[0].n && lc < head + 2 * MAX_OUT
      && Copied(clog[lc], hist[|hist| - 1], mem.Length, mem[..], cowb)
    }

    /** The state before anything was executed is checkpoint 0. */
    constructor (h: Hasher<B>, m: nat, memory: array<B>)
      requires HashesInto(h, m) && 1 <= memory.Length <= CHILDREN * CHILDREN * CHILDREN
      ensures Valid() && mem == memory && this.h == h && this.m == m
      ensures lc == 0 && head == 0 && cowb == {} && hist == [Snap(0, memory[..], tree)]
    {
      this.h, this.m, mem := h, m, memory;
      cowb, head, lc := {}, 0, 0;
      new;
      hide HashesInto, TreeOK;
      tree := ComputeFullDigest(h, m, memory);
      clog := map[0 := CkptRec(tree.parts[0][0].d, map[])];
      hist := [Snap(0, memory[..], tree)];
      FirstPast(h, m, memory[..], tree);
    }

    /** Copies block i to the record of the last checkpoint, as it was then. */
    method CowSingle(i: nat)
      requires Valid() && i < mem.Length && i !in cowb
      modifies this`clog, this`cowb
      ensures Valid() && cowb == old(cowb) + {i} && hist == old(hist)
    {
      hide Past, Copied, HashesInto;
      PastFacts(h, m, clog, hist, mem.Length);
      ghost var last := hist[|hist| - 1];
      var p := tree.parts[LEAF][i];
      var rec := clog[lc];
      var rec' := rec.(parts := rec.parts[(LEAF, i) := PartCopy(p.lm, p.d, Some(mem[i]))]);
      CopiedMore(rec, last, mem.Length, mem[..], cowb, i);
      LastRecChanged(h, m, clog, hist, mem.Length, rec');
      clog := clog[lc := rec'];
      cowb := cowb + {i};
    }

    /** cow: before "size" bytes from offset addr on are written, the blocks they are in are copied. */
    method Cow(addr: nat, size: nat)
      requires Valid() && addr + size <= mem.Length * BLOCK_SIZE
      modifies this`clog, this`cowb
      ensures Valid() && hist == old(hist)
      ensures cowb == old(cowb) + BlocksOf(addr, size)
    {
      hide Past, Copied, HashesInto;
      if size == 0 { return; }
      var low, high := addr / BLOCK_SIZE, (addr + size - 1) / BLOCK_SIZE;
      LastBlock(addr + size - 1, mem.Length);
      for bindex := low to high + 1
        invariant Valid() && hist == old(hist)
        invariant cowb == old(cowb) + BlockRange(low, bindex)
      {
        if bindex !in cowb {
          CowSingle(bindex);
        }
      }
    }

    /** The state is written in place, once its block is copied. */
    method Write(i: nat, b: B)
      requires Valid() && i in cowb
      modifies mem
      ensures Valid() && mem[..] == old(mem[..])[i := b]
    {
      hide Past, HashesInto;
      PastFacts(h, m, clog, hist, mem.Length);
      mem[i] := b;
    }

    /** Brings the partitions in mods of level l, and the sums above them, up to date. */
    method UpdateLevel(l: nat, mods: set<nat>, n: Seqno)
      requires HashesInto(h, m) && 0 < l < LEVELS && Shaped(tree, mem.Length, m) && SumsUpToDate(m, tree, mem.Length)
      requires forall i :: i in mods ==> i < Width(mem.Length, l)
      requires lc in clog && (l < LEAF ==> forall i :: (l, i) !in clog[lc].parts)
      modifies this`tree, this`clog
      ensures LevelUpdated(h, m, mem[..], old(tree), tree, l, mods, n) && SumsUpToDate(m, tree, mem.Length)
      ensures lc in clog && clog == old(clog)[lc := clog[lc]] && clog[lc].sd == old(clog)[lc].sd
      ensures if l == LEAF then clog[lc] == old(clog)[lc]
              else CopiesAdded(old(clog)[lc].parts, clog[lc].parts, old(tree).parts[l], l, mods)
    {
      hide HashesInto, Width, Shaped, SumsUpToDate, LevelUpdated, CopiesAdded, UpdatePart;
      ghost var was, t, done := clog[lc].parts, tree, {};
      NothingUpdated(h, m, mem[..], tree, l, n, was);
      ShapedWidths(tree, mem.Length, m, l);
      for i := 0 to Width(mem.Length, l)
        invariant done == ElementsBelow(mods, i)
        invariant Shaped(tree, mem.Length, m) && SumsUpToDate(m, tree, mem.Length)
        invariant LevelUpdated(h, m, mem[..], t, tree, l, done, n)
        invariant lc in clog && clog == old(clog)[lc := clog[lc]] && clog[lc].sd == old(clog)[lc].sd
        invariant if l == LEAF then clog[lc] == old(clog)[lc] else CopiesAdded(was, clog[lc].parts, t.parts[l], l, done)
      {
        BelowNext(mods, i);
        if i in mods {
          ShapedWidths(tree, mem.Length, m, l);
          NotYet(h, m, mem[..], t, tree, l, done, n, i);
          if l < LEAF {
            CopyStep(was, clog[lc].parts, t.parts[l], l, done, i);
            var p := tree.parts[l][i];
            clog := clog[lc := clog[lc].(parts := clog[lc].parts[(l, i) := PartCopy(p.lm, p.d, None)])];
          }
          LevelStep(h, m, mem[..], t, tree, l, done, i, n);
          UpdatePartOK(h, m, mem[..], tree, l, i, n);
          tree := UpdatePart(h, m, mem[..], tree, l, i, n);
          done := done + {i};
        }
      }
      BelowAll(mods, Width(mem.Length, l));
    }

    /** update_ptree: brings the whole tree up to date as of checkpoint n and completes the last record. */
    method UpdatePtree(n: Seqno)
      requires Valid()
      modifies this`tree, this`clog
      ensures Shaped(tree, mem.Length, m) && |tree.parts[0]| == 1 && TreeOK(h, m, mem[..], tree)
      ensures lc in clog && clog == old(clog)[lc := clog[lc]] && clog[lc].sd == old(clog)[lc].sd
      ensures |hist| >= 1 && ShapedSnap(hist[|hist| - 1], mem.Length)
      ensures AllKept(clog[lc].parts, hist[|hist| - 1], mem.Length, mem[..], tree, n, m)
    {
      hide HashesInto, Width, TreeOK, Past, Copied, SumsUpToDate, CopiesAdded, AllKept, UpdatedDownTo, LevelUpdated,
           Parents, ShapedSnap, UpdateRoot;
      PastFacts(h, m, clog, hist, mem.Length);
      LastTree(h, m, clog, hist, mem.Length);
      ghost var last := hist[|hist| - 1];
      StartUpdate(h, m, mem[..], last, clog[lc], n, cowb);
      var l: nat, mods := LEAF, cowb;
      while l > 0
        invariant lc in clog && clog == old(clog)[lc := clog[lc]] && clog[lc].sd == old(clog)[lc].sd
        invariant l <= LEAF && HashesInto(h, m) && (l == LEAF ==> mods == cowb && clog[lc] == old(clog)[lc])
        invariant UpdatedDownTo(h, m, mem[..], last, tree, clog[lc].parts, n, l, mods)
      {
        ghost var t, was := tree, clog[lc].parts;
        DownToFacts(h, m, mem[..], last, tree, clog[lc].parts, n, l, mods);
        UpdateLevel(l, mods, n);
        CopiedIgnoresDigest(old(clog)[lc], last, mem.Length, mem[..], cowb);
        NextLevel(h, m, mem[..], last, t, tree, was, clog[lc].parts, l, mods, n);
        mods := Parents(mods);
        l := l - 1;
      }
      DownToFacts(h, m, mem[..], last, tree, clog[lc].parts, n, 0, mods);
      RootOnly(tree, mem.Length, m);
      RootShape(h, m, mem[..], tree, n);
      ghost var t, was := tree, clog[lc].parts;
      if 0 in mods {
        var p := tree.parts[0][0];
        clog := clog[lc := clog[lc].(parts := clog[lc].parts[(0, 0) := PartCopy(p.lm, p.d, None)])];
        tree := UpdateRoot(h, mem[..], tree, n);
      }
      FinishUpdate(h, m, mem[..], last, t, tree, was, clog[lc].parts, n, mods);
      RootOnly(tree, mem.Length, m);
    }

    /**
     * checkpoint: the state as it is becomes checkpoint n, whose sequence
     * number fits the log.
     */
    method Checkpoint(n: Seqno)
      requires Valid() && n > lc && n % CHECKPOINT_INTERVAL == 0 && n < head + 2 * MAX_OUT
      modifies this
      ensures Valid() && lc == n && cowb == {} && head == old(head)
      ensures hist == old(hist) + [Snap(n, mem[..], tree)]
    {
      hide HashesInto, TreeOK, Copied, AllKept, ShapedSnap, Past, Kept;
      UpdatePtree(n);
      ghost var last, now := hist[|hist| - 1], Snap(n, mem[..], tree);
      var sd := tree.parts[0][0].d;
      var rec := CkptRec(sd, if n in clog then clog[n].parts else map[]);
      PastExtended(h, m, old(clog), clog, hist, mem.Length, last, now, rec);
      lc := n;
      clog := clog[n := rec];
      cowb := {};
      hist := hist + [now];
    }

    /** rollback: back to the state of the last checkpoint. */
    method Rollback() returns (n: Seqno)
      requires Valid()
      modifies mem, this`clog, this`cowb
      ensures Valid() && n == lc && hist == old(hist) && cowb == {}
      ensures mem[..] == hist[|hist| - 1].mem
    {
      hide Past, HashesInto;
      PastFacts(h, m, clog, hist, mem.Length);
      RootWidth(h, m, clog, hist, mem.Length);
      ghost var last := hist[|hist| - 1];
      var cr := clog[lc];
      for i := 0 to mem.Length
        invariant forall k :: 0 <= k < i ==> mem[k] == last.mem[k]
        invariant forall k :: i <= k < mem.Length && k !in cowb ==> mem[k] == last.mem[k]
        modifies mem
      {
        if i in cowb {
          mem[i] := cr.parts[(LEAF, i)].data.value;
        }
      }
      assert mem[..] == last.mem;
      LastRecChanged(h, m, clog, hist, mem.Length, CkptRec(tree.parts[0][0].d, map[]));
      clog := clog[lc := CkptRec(tree.parts[0][0].d, map[])];
      cowb := {};
      return lc;
    }

    /** digest(n): the digest of checkpoint n, if there is one. */
    method Digest(n: Seqno) returns (d: Option<nat>)
      requires Valid()
      ensures forall k :: 0 <= k < |hist| && hist[k].n == n && |hist[k].tree.parts[0]| > 0 ==>
                d == Some(hist[k].tree.parts[0][0].d)
      ensures !IsSnap(hist, n) ==> d == None
    {
      hide Chain, TreeOK, HashesInto, Copied;
      PastFacts(h, m, clog, hist, mem.Length);
      if !(head <= n < head + 2 * MAX_OUT) || n !in clog || clog[n].sd == 0 {
        RangeHasAll(hist, mem.Length, head, lc, n);
        return None;
      }
      return Some(clog[n].sd);
    }

    /**
     * Looks for the copy of a partition in the records from checkpoint c on.
     * The search never passes the last checkpoint: the assertion after the
     * loop of the source is unreachable.
     */
    method FindCopy(c: Seqno, l: nat, i: nat, ghost k: nat) returns (p: PartCopy<B>)
      requires Valid() && InTree(mem.Length, l, i) && k < |hist| && hist[k].n == c
      requires tree.parts[l][i].lm > c || (l == LEAF && i in cowb)
      ensures p == CopyOf(hist[k], mem.Length, l, i)
    {
      hide Past, HashesInto, Copied, FirstFrom, SameSoFar;
      var n, found := c, false;
      ghost var j: nat := k;
      p := PartCopy(0, 0, None);
      SearchStarts(h, m, clog, hist, mem.Length, l, i, k);
      while !found
        invariant !found ==> n <= lc && SameSoFar(hist, mem.Length, l, i, k, n, j)
        invariant found ==> InTree(mem.Length, l, i) && ShapedSnap(hist[k], mem.Length) && p == CopyOf(hist[k], mem.Length, l, i)
        decreases !found, lc - n
      {
        PastFacts(h, m, clog, hist, mem.Length);
        SearchStep(h, m, clog, hist, mem.Length, mem[..], cowb, l, i, k, n, j);
        if n in clog && clog[n].sd != 0 {
          if (l, i) in clog[n].parts {
            p := clog[n].parts[(l, i)];
            found := true;
          } else {
            j := j + 1;
          }
        }
        n := n + CHECKPOINT_INTERVAL;
      }
    }

    /** get_meta_data: partition i of level l as it was at checkpoint c. */
    method GetMetaData(c: Seqno, l: nat, i: nat, ghost k: nat) returns (p: Part)
      requires Valid() && InTree(mem.Length, l, i) && k < |hist| && hist[k].n == c
      ensures p == hist[k].tree.parts[l][i]
    {
      hide TreeOK, HashesInto, Copied, Recorded, Chain, Width;
      if tree.parts[l][i].lm <= c {
        Unmodified(clog, hist, mem.Length, l, i, k, |hist| - 1);
        return tree.parts[l][i];
      }
      var copy := FindCopy(c, l, i, k);
      return Part(copy.lm, copy.d);
    }

    /** get_data: block i as it was at checkpoint c. */
    method GetData(c: Seqno, i: nat, ghost k: nat) returns (b: B)
      requires Valid() && i < mem.Length && k < |hist| && hist[k].n == c
      ensures b == hist[k].mem[i]
    {
      hide TreeOK, HashesInto, Recorded, Chain, Width;
      LeafInTree(mem.Length, i);
      if tree.parts[LEAF][i].lm <= c && i !in cowb {
        Unmodified(clog, hist, mem.Length, LEAF, i, k, |hist| - 1);
        return mem[i];
      }
      var copy := FindCopy(c, LEAF, i, k);
      return copy.data.value;
    }

    /** Truncates the log; only checkpoints from seqno on are retained. */
    method Truncate(seqno: Seqno)
      requires Valid() && seqno <= lc
      modifies this`clog, this`head, this`hist
      ensures Valid() && head == (if seqno > old(head) then seqno else old(head))
      ensures hist == old(hist)[FirstAt(old(hist), seqno)..]
    {
      hide Copied, HashesInto, Past, FirstAt;
      if seqno <= head {
        AllRetained(h, m, clog, hist, mem.Length, seqno, head);
        return;
      }
      PastFacts(h, m, clog, hist, mem.Length);
      TruncatedPast(h, m, clog, hist, mem.Length, seqno);
      head := seqno;
      clog := map c | c in clog && c >= seqno :: clog[c];
      hist := hist[FirstAt(hist, seqno)..];
    }
  }

  /** The search has come to n, where j is the next snapshot, and the partition is still as it was at snapshot k. */
  ghost predicate SameSoFar<B(!new)>(hist: seq<Snap<B>>, nb: nat, l: nat, i: nat, k: nat, n: Seqno, j: nat) {
    && Ordered(hist, nb) && InTree(nb, l, i) && k <= j < |hist|
    && FirstFrom(hist, n, j) && n % CHECKPOINT_INTERVAL == 0
    && CopyOf(hist[j], nb, l, i) == CopyOf(hist[k], nb, l, i)
  }

  lemma SearchStarts<B(!new)>(h: Hasher<B>, m: nat, clog: map<Seqno, CkptRec<B>>, hist: seq<Snap<B>>, nb: nat,
                              l: nat, i: nat, k: nat)
    requires Past(h, m, clog, hist, nb) && k < |hist| && InTree(nb, l, i)
    ensures SameSoFar(hist, nb, l, i, k, hist[k].n, k) && hist[k].n <= hist[|hist| - 1].n && ShapedSnap(hist[k], nb)
  {
    hide Chain, TreeOK, Recorded;
  }

  lemma SearchStep<B(!new)>(h: Hasher<B>, m: nat, clog: map<Seqno, CkptRec<B>>, hist: seq<Snap<B>>, nb: nat, mem: seq<B>,
                            cowb: set<nat>, l: nat, i: nat, k: nat, n: Seqno, j: nat)
    requires Past(h, m, clog, hist, nb) && SameSoFar(hist, nb, l, i, k, n, j)
    requires ShapedSnap(hist[|hist| - 1], nb) && Copied(clog[hist[|hist| - 1].n], hist[|hist| - 1], nb, mem, cowb)
    requires hist[|hist| - 1].tree.parts[l][i].lm > hist[k].n || (l == LEAF && i in cowb)
    ensures var used := n in clog && clog[n].sd != 0;
            && (used && (l, i) in clog[n].parts ==> clog[n].parts[(l, i)] == CopyOf(hist[k], nb, l, i))
            && (used && (l, i) !in clog[n].parts ==> SameSoFar(hist, nb, l, i, k, n + CHECKPOINT_INTERVAL, j + 1))
            && (!used ==> SameSoFar(hist, nb, l, i, k, n + CHECKPOINT_INTERVAL, j))
            && (!used || (l, i) !in clog[n].parts ==> n + CHECKPOINT_INTERVAL <= hist[|hist| - 1].n)
  {
    hide TreeOK, Chain, ShapedSnap, Copied, Width, Kept;
    FirstIsSnap(hist, nb, n, j);
    if n in clog && clog[n].sd != 0 {
      assert hist[j].n == n;
      CopyHere(h, m, clog, hist, nb, mem, cowb, l, i, k, j);
    } else {
      NotHere(hist, nb, clog, n, j);
    }
  }

  /** At snapshot j, either the record has the copy or the search goes on at the next one, which exists. */
  lemma CopyHere<B(!new)>(h: Hasher<B>, m: nat, clog: map<Seqno, CkptRec<B>>, hist: seq<Snap<B>>, nb: nat, mem: seq<B>,
                          cowb: set<nat>, l: nat, i: nat, k: nat, j: nat)
    requires Past(h, m, clog, hist, nb) && InTree(nb, l, i) && k <= j < |hist|
    requires Copied(clog[hist[|hist| - 1].n], hist[|hist| - 1], nb, mem, cowb)
    requires hist[|hist| - 1].tree.parts[l][i].lm > hist[k].n || (l == LEAF && i in cowb)
    requires CopyOf(hist[j], nb, l, i) == CopyOf(hist[k], nb, l, i)
    ensures hist[j].n in clog
    ensures (l, i) in clog[hist[j].n].parts ==> clog[hist[j].n].parts[(l, i)] == CopyOf(hist[k], nb, l, i)
    ensures (l, i) !in clog[hist[j].n].parts ==>
      j + 1 < |hist| && CopyOf(hist[j + 1], nb, l, i) == CopyOf(hist[k], nb, l, i)
      && hist[j].n + CHECKPOINT_INTERVAL <= hist[|hist| - 1].n
  {
    hide TreeOK, Chain, Width;
    if j + 1 < |hist| {
      StepAt(clog, hist, nb, l, i, j);
      NextSnap(hist, nb, j);
    }
  }

  lemma NextSnap<B(!new)>(hist: seq<Snap<B>>, nb: nat, j: nat)
    requires Ordered(hist, nb) && j + 1 < |hist|
    ensures hist[j].n + CHECKPOINT_INTERVAL <= hist[j + 1].n <= hist[|hist| - 1].n
  {
    assert ShapedSnap(hist[j], nb) && ShapedSnap(hist[j + 1], nb);
  }

  /** A record that is not in use belongs to no snapshot. */
  lemma NotHere<B(!new)>(hist: seq<Snap<B>>, nb: nat, clog: map<Seqno, CkptRec<B>>, n: Seqno, j: nat)
    requires Ordered(hist, nb) && Recorded(clog, hist, nb) && FirstFrom(hist, n, j) && j < |hist|
    requires n % CHECKPOINT_INTERVAL == 0 && (n !in clog || clog[n].sd == 0)
    ensures !IsSnap(hist, n) && n + CHECKPOINT_INTERVAL <= hist[|hist| - 1].n
  {
    FirstIsSnap(hist, nb, n, j);
  }

  lemma LeafInTree(nb: nat, i: nat)
    requires i < nb
    ensures InTree(nb, LEAF, i)
  {
  }

  /** The index of the first snapshot at or after c. */
  function FirstAt<B(!new)>(hist: seq<Snap<B>>, c: Seqno): (k: nat)
    ensures k <= |hist| && (forall j :: 0 <= j < k ==> hist[j].n < c) && (k < |hist| ==> hist[k].n >= c)
  {
    if hist == [] || hist[0].n >= c then 0 else FirstAt(hist[1..], c) + 1
  }

  lemma AllRetained<B(!new)>(h: Hasher<B>, m: nat, clog: map<Seqno, CkptRec<B>>, hist: seq<Snap<B>>, nb: nat,
                             seqno: Seqno, head: Seqno)
    requires Past(h, m, clog, hist, nb) && seqno <= head <= hist[0].n
    ensures hist[FirstAt(hist, seqno)..] == hist
  {
  }

  lemma TruncatedPast<B(!new)>(h: Hasher<B>, m: nat, clog: map<Seqno, CkptRec<B>>, hist: seq<Snap<B>>, nb: nat, seqno: Seqno)
    requires Past(h, m, clog, hist, nb) && seqno <= hist[|hist| - 1].n
    ensures var k := FirstAt(hist, seqno);
            var clog' := map c | c in clog && c >= seqno :: clog[c];
            && k < |hist| && Past(h, m, clog', hist[k..], nb) && seqno <= hist[k..][0].n
            && hist[k..][|hist| - k - 1] == hist[|hist| - 1]
            && hist[|hist| - 1].n in clog' && clog'[hist[|hist| - 1].n] == clog[hist[|hist| - 1].n]
  {
    hide Kept, TreeOK, ShapedSnap, Chain, FirstAt, Recorded, Ordered, Suffix;
    var k := FirstAt(hist, seqno);
    var clog' := map c | c in clog && c >= seqno :: clog[c];
    var hist' := hist[k..];
    IsSuffix(clog, hist, nb, seqno, k, clog', hist');
    SuffixRecorded(clog, hist, nb, seqno, k, clog', hist');
    SuffixChained(clog, hist, nb, seqno, k, clog', hist');
    forall j | 0 <= j < |hist'|
      ensures TreeOK(h, m, hist'[j].mem, hist'[j].tree) && |hist'[j].tree.parts| == LEVELS
      ensures hist'[j].n in clog' && (|hist'[j].tree.parts[0]| > 0 ==> clog'[hist'[j].n].sd == hist'[j].tree.parts[0][0].d)
    {
      SnapIn(clog, hist, nb, k + j);
      SnapIn(clog', hist', nb, j);
    }
    SnapIn(clog, hist, nb, |hist| - 1);
  }

  lemma IsSuffix<B(!new)>(clog: map<Seqno, CkptRec<B>>, hist: seq<Snap<B>>, nb: nat, seqno: Seqno, k: nat,
                          clog': map<Seqno, CkptRec<B>>, hist': seq<Snap<B>>)
    requires Ordered(hist, nb) && Recorded(clog, hist, nb) && seqno <= hist[|hist| - 1].n && k == FirstAt(hist, seqno)
    requires clog' == (map c | c in clog && c >= seqno :: clog[c]) && k <= |hist| && hist' == hist[k..]
    ensures k < |hist| && Suffix(clog, hist, seqno, k, clog', hist')
    ensures hist'[0].n >= seqno && hist'[|hist| - k - 1] == hist[|hist| - 1]
    ensures hist[|hist| - 1].n in clog' && clog'[hist[|hist| - 1].n] == clog[hist[|hist| - 1].n]
  {
    hide ShapedSnap, IsSnap;
  }

  ghost predicate Suffix<B(!new)>(clog: map<Seqno, CkptRec<B>>, hist: seq<Snap<B>>, seqno: Seqno, k: nat,
                            clog': map<Seqno, CkptRec<B>>, hist': seq<Snap<B>>) {
    && k < |hist| && hist' == hist[k..]
    && (forall j :: 0 <= j < k ==> hist[j].n < seqno) && hist[k].n >= seqno
    && (forall c :: c in clog' <==> c in clog && c >= seqno)
    && (forall c :: c in clog' ==> clog'[c] == clog[c])
  }

  lemma SuffixRecorded<B(!new)>(clog: map<Seqno, CkptRec<B>>, hist: seq<Snap<B>>, nb: nat, seqno: Seqno, k: nat,
                                clog': map<Seqno, CkptRec<B>>, hist': seq<Snap<B>>)
    requires Ordered(hist, nb) && Recorded(clog, hist, nb) && Suffix(clog, hist, seqno, k, clog', hist')
    ensures Ordered(hist', nb) && Recorded(clog', hist', nb)
    ensures forall j :: 0 <= j < |hist'| ==> hist'[j] == hist[k + j] && hist'[j].n >= seqno
  {
    hide ShapedSnap;
    forall c | c in clog' && clog'[c].sd != 0 ensures IsSnap(hist', c) {
      var j :| 0 <= j < |hist| && hist[j].n == c;
      assert hist'[j - k].n == c;
    }
    forall j | 0 <= j < |hist'| ensures hist'[j].n >= seqno {
      assert j > 0 ==> hist[k].n < hist[k + j].n;
    }
  }

  lemma SuffixChained<B(!new)>(clog: map<Seqno, CkptRec<B>>, hist: seq<Snap<B>>, nb: nat, seqno: Seqno, k: nat,
                               clog': map<Seqno, CkptRec<B>>, hist': seq<Snap<B>>)
    requires Ordered(hist, nb) && Recorded(clog, hist, nb) && Suffix(clog, hist, seqno, k, clog', hist')
    requires Ordered(hist', nb) && Recorded(clog', hist', nb) && Chain(clog, hist, nb)
    ensures Chain(clog', hist', nb)
  {
    hide ShapedSnap, Kept, IsSnap;
    forall j | 0 <= j < |hist'| - 1 ensures Kept(clog'[hist'[j].n], hist'[j], hist'[j + 1], nb) {
      assert hist'[j] == hist[k + j] && hist'[j + 1] == hist[k + j + 1];
      assert Kept(clog[hist[k + j].n], hist[k + j], hist[k + j + 1], nb);
    }
  }

  /** The retained past: snapshots in order, the log that keeps them, and their digests. */
  ghost predicate Past<B(!new)>(h: Hasher<B>, m: nat, clog: map<Seqno, CkptRec<B>>, hist: seq<Snap<B>>, nb: nat) {
    && Ordered(hist, nb) && Recorded(clog, hist, nb) && Chain(clog, hist, nb)
    && (forall k :: 0 <= k < |hist| ==> TreeOK(h, m, hist[k].mem, hist[k].tree))
    && (forall k :: 0 <= k < |hist| && |hist[k].tree.parts[0]| > 0 ==>
          clog[hist[k].n].sd == hist[k].tree.parts[0][0].d)
  }

  lemma PastFacts<B(!new)>(h: Hasher<B>, m: nat, clog: map<Seqno, CkptRec<B>>, hist: seq<Snap<B>>, nb: nat)
    requires Past(h, m, clog, hist, nb)
    ensures |hist| >= 1 && hist[|hist| - 1].n in clog && ShapedSnap(hist[|hist| - 1], nb)
    ensures clog[hist[|hist| - 1].n].sd != 0
  {
  }

  /** The record of the last checkpoint is not part of the past. */
  lemma LastRecChanged<B(!new)>(h: Hasher<B>, m: nat, was: map<Seqno, CkptRec<B>>, hist: seq<Snap<B>>, nb: nat,
                                rec: CkptRec<B>)
    requires Past(h, m, was, hist, nb) && rec.sd == was[hist[|hist| - 1].n].sd
    ensures Past(h, m, was[hist[|hist| - 1].n := rec], hist, nb)
  {
    hide Kept, TreeOK;
    var clog := was[hist[|hist| - 1].n := rec];
    assert IsSnap(hist, hist[|hist| - 1].n);
  }

  lemma CopiedMore<B(!new)>(rec: CkptRec<B>, last: Snap<B>, nb: nat, mem: seq<B>, cowb: set<nat>, i: nat)
    requires ShapedSnap(last, nb) && Copied(rec, last, nb, mem, cowb) && i < nb && i !in cowb
    ensures (LEAF, i) !in rec.parts
    ensures var p := last.tree.parts[LEAF][i];
            Copied(rec.(parts := rec.parts[(LEAF, i) := PartCopy(p.lm, p.d, Some(mem[i]))]), last, nb, mem, cowb + {i})
  {
  }

  // ------------------------------------------------------------------
  // Blocks and ranges
  // ------------------------------------------------------------------

  /** The blocks that "size" bytes from addr on are in. */
  function BlocksOf(addr: nat, size: nat): set<nat> {
    if size == 0 then {} else BlockRange(addr / BLOCK_SIZE, (addr + size - 1) / BLOCK_SIZE + 1)
  }

  function BlockRange(lo: nat, hi: nat): (s: set<nat>)
    ensures forall i: nat :: i in s <==> lo <= i < hi
    decreases hi
  {
    if lo < hi then BlockRange(lo, hi - 1) + {hi - 1} else {}
  }

  /** Exactly those blocks that have one of the bytes. */
  lemma BlocksOfIs(addr: nat, size: nat, i: nat)
    ensures i in BlocksOf(addr, size) <==>
      exists b :: addr <= b < addr + size && InBlock(b, i)
  {
    if i in BlocksOf(addr, size) {
      var b := if i * BLOCK_SIZE <= addr then addr else i * BLOCK_SIZE;
      assert InBlock(b, i);
    }
  }

  predicate InBlock(b: nat, i: nat) {
    i * BLOCK_SIZE <= b < (i + 1) * BLOCK_SIZE
  }

  lemma LastBlock(b: nat, nb: nat)
    requires b < nb * BLOCK_SIZE
    ensures b / BLOCK_SIZE < nb
  {
  }

  lemma RootWidth<B(!new)>(h: Hasher<B>, m: nat, clog: map<Seqno, CkptRec<B>>, hist: seq<Snap<B>>, nb: nat)
    requires Past(h, m, clog, hist, nb) && 1 <= nb <= CHILDREN * CHILDREN * CHILDREN
    ensures |hist| >= 1 && |hist[|hist| - 1].tree.parts| == LEVELS && |hist[|hist| - 1].tree.parts[0]| == 1
    ensures hist[|hist| - 1].n in clog
    ensures clog[hist[|hist| - 1].n].sd == hist[|hist| - 1].tree.parts[0][0].d
  {
    hide Chain, TreeOK, Width;
    RootIsAlone(nb);
    assert ShapedSnap(hist[|hist| - 1], nb);
  }

  /** Every retained checkpoint is within the range of the log. */
  lemma RangeHasAll<B(!new)>(hist: seq<Snap<B>>, nb: nat, head: Seqno, lc: Seqno, n: Seqno)
    requires Ordered(hist, nb) && head <= hist[0].n && hist[|hist| - 1].n == lc < head + 2 * MAX_OUT
    ensures !(head <= n < head + 2 * MAX_OUT) ==> !IsSnap(hist, n)
  {
    hide ShapedSnap;
  }

  // ------------------------------------------------------------------
  // Taking a checkpoint
  // ------------------------------------------------------------------

  function ElementsBelow(s: set<nat>, i: nat): set<nat> {
    set k | k in s && k < i
  }

  lemma BelowNext(s: set<nat>, i: nat)
    ensures ElementsBelow(s, i + 1) == ElementsBelow(s, i) + if i in s then {i} else {}
    ensures i !in ElementsBelow(s, i)
  {
  }

  lemma BelowAll(s: set<nat>, n: nat)
    requires forall i :: i in s ==> i < n
    ensures ElementsBelow(s, n) == s
  {
  }

  lemma NothingUpdated<B(!new)>(h: Hasher<B>, m: nat, mem: seq<B>, t: Tree, l: nat, n: Seqno,
                                parts: map<(nat, nat), PartCopy<B>>)
    requires 0 < l < LEVELS && Shaped(t, |mem|, m)
    ensures LevelUpdated(h, m, mem, t, t, l, {}, n) && CopiesAdded(parts, parts, t.parts[l], l, {})
    ensures forall s: set<nat> :: ElementsBelow(s, 0) == {}
  {
  }

  lemma NotYet<B(!new)>(h: Hasher<B>, m: nat, mem: seq<B>, t: Tree, t': Tree, l: nat, mods: set<nat>, n: Seqno, i: nat)
    requires LevelUpdated(h, m, mem, t, t', l, mods, n) && i < |t.parts[l]| && i !in mods
    ensures |t'.parts| == LEVELS && i < |t'.parts[l]| && t'.parts[l][i] == t.parts[l][i]
  {
  }

  lemma LastTree<B(!new)>(h: Hasher<B>, m: nat, clog: map<Seqno, CkptRec<B>>, hist: seq<Snap<B>>, nb: nat)
    requires Past(h, m, clog, hist, nb)
    ensures TreeOK(h, m, hist[|hist| - 1].mem, hist[|hist| - 1].tree)
  {
  }

  lemma DownToFacts<B(!new)>(h: Hasher<B>, m: nat, mem: seq<B>, last: Snap<B>, t: Tree,
                             parts: map<(nat, nat), PartCopy<B>>, n: Seqno, l: nat, mods: set<nat>)
    requires ShapedSnap(last, |mem|) && l < LEVELS && UpdatedDownTo(h, m, mem, last, t, parts, n, l, mods)
    ensures Shaped(t, |mem|, m) && SumsUpToDate(m, t, |mem|)
    ensures forall i :: i in mods ==> i < Width(|mem|, l)
    ensures l < LEAF ==> forall i :: (l, i) !in parts
  {
  }

  lemma CopiedIgnoresDigest<B(!new)>(rec: CkptRec<B>, last: Snap<B>, nb: nat, mem: seq<B>, cowb: set<nat>)
    requires ShapedSnap(last, nb) && Copied(rec, last, nb, mem, cowb)
    ensures Copied(CkptRec(0, rec.parts), last, nb, mem, cowb)
  {
  }

  lemma RootOnly(t: Tree, nb: nat, m: nat)
    requires Shaped(t, nb, m) && 1 <= nb <= CHILDREN * CHILDREN * CHILDREN
    ensures |t.parts[0]| == 1 && |t.sums[0]| == 1
  {
    RootIsAlone(nb);
  }

  lemma FirstPast<B(!new)>(h: Hasher<B>, m: nat, mem: seq<B>, t: Tree)
    requires HashesInto(h, m) && |t.parts| == LEVELS && |t.parts[0]| == 1 && TreeOK(h, m, mem, t) && |mem| >= 1
    requires forall l, i :: 0 <= l < LEVELS && 0 <= i < |t.parts[l]| ==> t.parts[l][i].lm == 0
    ensures var now := Snap(0, mem, t);
            && ShapedSnap(now, |mem|)
            && Past(h, m, map[0 := CkptRec(t.parts[0][0].d, map[])], [now], |mem|)
            && Copied(CkptRec(t.parts[0][0].d, map[]), now, |mem|, mem, {})
  {
    hide Width, SumsOK;
    RootNotNull(h, m, mem, t);
    var hist := [Snap(0, mem, t)];
    assert hist[0].n == 0;
  }

  /** The state becomes the latest snapshot of a longer past. */
  lemma PastExtended<B(!new)>(h: Hasher<B>, m: nat, was: map<Seqno, CkptRec<B>>, clog: map<Seqno, CkptRec<B>>,
                              hist: seq<Snap<B>>, nb: nat, last: Snap<B>, now: Snap<B>, rec: CkptRec<B>)
    requires HashesInto(h, m) && Past(h, m, was, hist, nb) && last == hist[|hist| - 1] && nb == |now.mem| >= 1
    requires last.n in clog && clog == was[last.n := clog[last.n]] && clog[last.n].sd == was[last.n].sd
    requires ShapedSnap(last, nb) && now.n > last.n && now.n % CHECKPOINT_INTERVAL == 0
    requires Shaped(now.tree, nb, m) && |now.tree.parts[0]| == 1 && TreeOK(h, m, now.mem, now.tree)
    requires AllKept(clog[last.n].parts, last, nb, now.mem, now.tree, now.n, m)
    requires rec.sd == now.tree.parts[0][0].d && rec.parts == if now.n in clog then clog[now.n].parts else map[]
    ensures var clog', hist' := clog[now.n := rec], hist + [now];
            && Past(h, m, clog', hist', nb) && ShapedSnap(now, nb)
            && Copied(rec, now, nb, now.mem, {})
  {
    hide TreeOK, Kept, HashesInto, AllKept, Width;
    NewSnapShape(h, m, now.mem, last, now.tree, clog[last.n].parts, now.n);
    AllLevelsKept(clog[last.n], last, now, nb, m);
    LastRecChanged(h, m, was, hist, nb, clog[last.n]);
    RootNotNull(h, m, now.mem, now.tree);
    NewIsUnused(was, hist, nb, now.n);
    SnapAppended(h, m, clog, hist, nb, last, now, rec);
  }

  lemma RootNotNull<B(!new)>(h: Hasher<B>, m: nat, mem: seq<B>, t: Tree)
    requires HashesInto(h, m) && TreeOK(h, m, mem, t) && |t.parts[0]| == 1
    ensures t.parts[0][0].d != 0
  {
    assert NodesOK(h, t.sums[0], t.parts[0]);
  }

  /** No record in use is ahead of the last checkpoint. */
  lemma NewIsUnused<B(!new)>(clog: map<Seqno, CkptRec<B>>, hist: seq<Snap<B>>, nb: nat, n: Seqno)
    requires Ordered(hist, nb) && Recorded(clog, hist, nb) && n > hist[|hist| - 1].n
    ensures !IsSnap(hist, n) && (n in clog ==> clog[n].sd == 0 && clog[n].parts == map[])
  {
    hide ShapedSnap;
  }

  lemma SnapAppended<B(!new)>(h: Hasher<B>, m: nat, clog: map<Seqno, CkptRec<B>>, hist: seq<Snap<B>>, nb: nat,
                              last: Snap<B>, now: Snap<B>, rec: CkptRec<B>)
    requires Past(h, m, clog, hist, nb) && last == hist[|hist| - 1] && ShapedSnap(now, nb) && now.n > last.n
    requires !IsSnap(hist, now.n) && rec.sd != 0 && Kept(clog[last.n], last, now, nb)
    requires TreeOK(h, m, now.mem, now.tree) && (|now.tree.parts[0]| > 0 ==> rec.sd == now.tree.parts[0][0].d)
    ensures Past(h, m, clog[now.n := rec], hist + [now], nb)
  {
    hide TreeOK, Kept, ShapedSnap, Recorded, Chain;
    var clog', hist' := clog[now.n := rec], hist + [now];
    assert hist'[|hist|] == now;
    RecordAppended(clog, hist, nb, now, rec);
    ChainAppended(clog, hist, nb, now, rec);
    forall k | 0 <= k < |hist'|
      ensures |hist'[k].tree.parts| == LEVELS && hist'[k].n in clog'
      ensures |hist'[k].tree.parts[0]| > 0 ==> clog'[hist'[k].n].sd == hist'[k].tree.parts[0][0].d
    {
      SnapIn(clog', hist', nb, k);
      if k < |hist| {
        SnapIn(clog, hist, nb, k);
      }
    }
  }

  lemma SnapIn<B(!new)>(clog: map<Seqno, CkptRec<B>>, hist: seq<Snap<B>>, nb: nat, k: nat)
    requires Ordered(hist, nb) && Recorded(clog, hist, nb) && k < |hist|
    ensures hist[k].n in clog && |hist[k].tree.parts| == LEVELS
    ensures k < |hist| - 1 ==> hist[k].n < hist[|hist| - 1].n
  {
  }

  lemma RecordAppended<B(!new)>(clog: map<Seqno, CkptRec<B>>, hist: seq<Snap<B>>, nb: nat, now: Snap<B>, rec: CkptRec<B>)
    requires Ordered(hist, nb) && Recorded(clog, hist, nb) && ShapedSnap(now, nb) && now.n > hist[|hist| - 1].n
    requires rec.sd != 0
    ensures Ordered(hist + [now], nb) && Recorded(clog[now.n := rec], hist + [now], nb)
  {
    hide ShapedSnap;
    var clog', hist' := clog[now.n := rec], hist + [now];
    assert hist'[|hist|] == now;
    forall k | 0 <= k < |hist| ensures hist'[k] == hist[k] && hist[k].n < now.n {
    }
    forall c | c in clog' && clog'[c].sd != 0 ensures IsSnap(hist', c) {
      if c == now.n {
        assert hist'[|hist|].n == c;
      } else {
        var k :| 0 <= k < |hist| && hist[k].n == c;
        assert hist'[k].n == c;
      }
    }
  }

  lemma ChainAppended<B(!new)>(clog: map<Seqno, CkptRec<B>>, hist: seq<Snap<B>>, nb: nat, now: Snap<B>, rec: CkptRec<B>)
    requires Ordered(hist, nb) && Recorded(clog, hist, nb) && Chain(clog, hist, nb)
    requires ShapedSnap(now, nb) && now.n > hist[|hist| - 1].n
    requires Kept(clog[hist[|hist| - 1].n], hist[|hist| - 1], now, nb)
    requires Ordered(hist + [now], nb) && Recorded(clog[now.n := rec], hist + [now], nb)
    ensures Chain(clog[now.n := rec], hist + [now], nb)
  {
    hide Kept, ShapedSnap, IsSnap;
    var clog', hist' := clog[now.n := rec], hist + [now];
    forall k | 0 <= k < |hist'| - 1 ensures Kept(clog'[hist'[k].n], hist'[k], hist'[k + 1], nb) {
      assert hist'[k] == hist[k] && hist[k].n <= hist[|hist| - 1].n;
      if k < |hist| - 1 {
        assert hist'[k + 1] == hist[k + 1];
        assert Kept(clog[hist[k].n], hist[k], hist[k + 1], nb);
      }
    }
  }
}
