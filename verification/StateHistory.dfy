/**
 * What the checkpoint log of the state store stands for: the records of
 * src/Checkpoint_rec.h against full snapshots taken at every checkpoint.
 */
module StateHistory {
  import opened Wrappers
  import opened Types
  import opened DigestTree

  /** A copy of a partition as it was when the checkpoint was taken, with its block if it is a leaf. */
  datatype PartCopy<B> = PartCopy(lm: Seqno, d: nat, data: Option<B>)

  /** Checkpoint_rec: the digest of the state, null when not in use, and the partitions modified since. */
  datatype CkptRec<B> = CkptRec(sd: nat, parts: map<(nat, nat), PartCopy<B>>)

  /** The whole state as it was at checkpoint n. */
  datatype Snap<B> = Snap(n: Seqno, mem: seq<B>, tree: Tree)

  ghost predicate ShapedSnap<B(!new)>(s: Snap<B>, nb: nat) {
    && |s.mem| == nb && |s.tree.parts| == LEVELS && s.n >= 0 && s.n % CHECKPOINT_INTERVAL == 0
    && (forall l :: 0 <= l < LEVELS ==> |s.tree.parts[l]| == Width(nb, l))
    && (forall l, i :: 0 <= l < LEVELS && 0 <= i < Width(nb, l) ==> s.tree.parts[l][i].lm <= s.n)
  }

  predicate InTree(nb: nat, l: nat, i: nat) {
    l < LEVELS && i < Width(nb, l)
  }

  function CopyOf<B(!new)>(s: Snap<B>, nb: nat, l: nat, i: nat): PartCopy<B>
    requires ShapedSnap(s, nb) && InTree(nb, l, i)
  {
    PartCopy(s.tree.parts[l][i].lm, s.tree.parts[l][i].d, if l == LEAF then Some(s.mem[i]) else None)
  }

  /** The record of checkpoint a has exactly the partitions that b finds modified, as they were at a. */
  ghost predicate KeptAt<B(!new)>(rec: CkptRec<B>, a: Snap<B>, b: Snap<B>, nb: nat, l: nat, i: nat)
    requires ShapedSnap(a, nb) && ShapedSnap(b, nb) && InTree(nb, l, i)
  {
    if (l, i) in rec.parts then
      rec.parts[(l, i)] == CopyOf(a, nb, l, i) && b.tree.parts[l][i].lm == b.n
    else CopyOf(a, nb, l, i) == CopyOf(b, nb, l, i)
  }

  ghost predicate Kept<B(!new)>(rec: CkptRec<B>, a: Snap<B>, b: Snap<B>, nb: nat)
    requires ShapedSnap(a, nb) && ShapedSnap(b, nb)
  {
    forall l, i :: InTree(nb, l, i) ==> KeptAt(rec, a, b, nb, l, i)
  }

  ghost predicate IsSnap<B(!new)>(hist: seq<Snap<B>>, c: Seqno) {
    exists k :: 0 <= k < |hist| && hist[k].n == c
  }

  /** The snapshots are in order and have the shape of the state. */
  ghost predicate Ordered<B(!new)>(hist: seq<Snap<B>>, nb: nat) {
    && |hist| >= 1
    && (forall k :: 0 <= k < |hist| ==> ShapedSnap(hist[k], nb))
    && (forall j, k :: 0 <= j < k < |hist| ==> hist[j].n < hist[k].n)
  }

  /** The log has a record in use for every snapshot and for nothing else, with its digest. */
  ghost predicate Recorded<B(!new)>(clog: map<Seqno, CkptRec<B>>, hist: seq<Snap<B>>, nb: nat)
    requires Ordered(hist, nb)
  {
    && (forall k :: 0 <= k < |hist| ==> hist[k].n in clog && clog[hist[k].n].sd != 0)
    && (forall c :: c in clog && clog[c].sd != 0 ==> IsSnap(hist, c))
    && (forall c :: c in clog && clog[c].sd == 0 ==> clog[c].parts == map[])
  }

  ghost predicate Chain<B(!new)>(clog: map<Seqno, CkptRec<B>>, hist: seq<Snap<B>>, nb: nat)
    requires Ordered(hist, nb) && Recorded(clog, hist, nb)
  {
    forall k :: 0 <= k < |hist| - 1 ==> Kept(clog[hist[k].n], hist[k], hist[k + 1], nb)
  }

  /** Since the last checkpoint only blocks changed, those in cowb, and each was copied first. */
  ghost predicate Copied<B(!new)>(rec: CkptRec<B>, last: Snap<B>, nb: nat, mem: seq<B>, cowb: set<nat>)
    requires ShapedSnap(last, nb)
  {
    && |mem| == nb
    && (forall i :: i in cowb ==> i < nb)
    && (forall i :: 0 <= i < nb && i !in cowb ==> mem[i] == last.mem[i])
    && (forall l, i :: (l, i) in rec.parts <==> l == LEAF && i in cowb)
    && (forall i :: i in cowb ==> rec.parts[(LEAF, i)] == CopyOf(last, nb, LEAF, i))
  }

  // ------------------------------------------------------------------
  // Reading the past
  // ------------------------------------------------------------------

  lemma StepAt<B(!new)>(clog: map<Seqno, CkptRec<B>>, hist: seq<Snap<B>>, nb: nat, l: nat, i: nat, k: nat)
    requires Ordered(hist, nb) && Recorded(clog, hist, nb) && Chain(clog, hist, nb)
    requires InTree(nb, l, i) && k + 1 < |hist|
    ensures hist[k].n in clog && KeptAt(clog[hist[k].n], hist[k], hist[k + 1], nb, l, i)
  {
    assert Kept(clog[hist[k].n], hist[k], hist[k + 1], nb);
  }

  /** A partition is never modified in the past of a snapshot. */
  lemma {:induction false} ModifiedGrows<B(!new)>(
    clog: map<Seqno, CkptRec<B>>, hist: seq<Snap<B>>, nb: nat, l: nat, i: nat, j: nat, k: nat)
    requires Ordered(hist, nb) && Recorded(clog, hist, nb) && Chain(clog, hist, nb)
    requires InTree(nb, l, i) && j <= k < |hist|
    ensures hist[j].tree.parts[l][i].lm <= hist[k].tree.parts[l][i].lm
    decreases k - j
  {
    hide Kept, Recorded, Chain;
    if j < k {
      ModifiedGrows(clog, hist, nb, l, i, j + 1, k);
      StepAt(clog, hist, nb, l, i, j);
    }
  }

  /** A partition not modified after checkpoint k is as it was then. */
  lemma {:induction false} Unmodified<B(!new)>(
    clog: map<Seqno, CkptRec<B>>, hist: seq<Snap<B>>, nb: nat, l: nat, i: nat, j: nat, k: nat)
    requires Ordered(hist, nb) && Recorded(clog, hist, nb) && Chain(clog, hist, nb)
    requires InTree(nb, l, i) && j <= k < |hist|
    requires hist[k].tree.parts[l][i].lm <= hist[j].n
    ensures CopyOf(hist[j], nb, l, i) == CopyOf(hist[k], nb, l, i)
    decreases k - j
  {
    hide Kept, Recorded, Chain;
    if j < k {
      StepAt(clog, hist, nb, l, i, j);
      ModifiedGrows(clog, hist, nb, l, i, j + 1, k);
      if (l, i) !in clog[hist[j].n].parts {
        Unmodified(clog, hist, nb, l, i, j + 1, k);
      }
    }
  }

  /** k is the first snapshot at or after c. */
  ghost predicate FirstFrom<B(!new)>(hist: seq<Snap<B>>, c: Seqno, k: nat) {
    && k <= |hist|
    && (forall j :: 0 <= j < k ==> hist[j].n < c)
    && (forall j :: k <= j < |hist| ==> c <= hist[j].n)
  }

  lemma FirstIsSnap<B(!new)>(hist: seq<Snap<B>>, nb: nat, c: Seqno, k: nat)
    requires Ordered(hist, nb) && FirstFrom(hist, c, k)
    ensures IsSnap(hist, c) <==> k < |hist| && hist[k].n == c
    ensures IsSnap(hist, c) ==> FirstFrom(hist, c + CHECKPOINT_INTERVAL, k + 1)
    ensures !IsSnap(hist, c) && c % CHECKPOINT_INTERVAL == 0 ==> FirstFrom(hist, c + CHECKPOINT_INTERVAL, k)
  {
    forall j | 0 <= j < |hist| && c % CHECKPOINT_INTERVAL == 0 && hist[j].n > c
      ensures hist[j].n >= c + CHECKPOINT_INTERVAL
    {
      assert ShapedSnap(hist[j], nb);
    }
  }
}
