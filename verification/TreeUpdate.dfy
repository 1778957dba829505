/**
 * How a checkpoint brings the tree of digests up to date, level by level from
 * the leaves: update_ptree of src/State.cc.
 */
module TreeUpdate {
  import opened Wrappers
  import opened Types
  import opened DigestSums
  import opened DigestTree
  import opened StateHistory

  function DigestOf<B(!new)>(h: Hasher<B>, mem: seq<B>, t: Tree, l: nat, i: nat, lm: Seqno): nat
    requires l < LEVELS && |t.sums| == LEAF && (if l == LEAF then i < |mem| else i < |t.sums[l]|)
  {
    if l == LEAF then h.block(mem[i], i, lm) else h.sum(t.sums[l][i], i, lm)
  }

  /** The digests of level l are up to date but for the partitions in mods. */
  ghost predicate FreshBut<B(!new)>(h: Hasher<B>, m: nat, mem: seq<B>, t: Tree, l: nat, mods: set<nat>)
    requires l < LEVELS && Shaped(t, |mem|, m)
  {
    forall i :: 0 <= i < |t.parts[l]| && i !in mods ==> t.parts[l][i].d == DigestOf(h, mem, t, l, i, t.parts[l][i].lm)
  }

  ghost predicate SumsUpToDate(m: nat, t: Tree, nb: nat)
    requires Shaped(t, nb, m)
  {
    forall l :: 0 <= l < LEAF ==> SumsOK(m, t.sums[l], t.parts[l + 1])
  }

  lemma FreshIsTreeOK<B(!new)>(h: Hasher<B>, m: nat, mem: seq<B>, t: Tree)
    requires Shaped(t, |mem|, m)
    ensures TreeOK(h, m, mem, t) <==>
      SumsUpToDate(m, t, |mem|) && forall l :: 0 <= l < LEVELS ==> FreshBut(h, m, mem, t, l, {})
  {
    hide SumsOK;
    if TreeOK(h, m, mem, t) {
      forall l | 0 <= l < LEVELS ensures FreshBut(h, m, mem, t, l, {}) {
        if l < LEAF {
          assert NodesOK(h, t.sums[l], t.parts[l]);
        }
      }
    }
    if SumsUpToDate(m, t, |mem|) && forall l :: 0 <= l < LEVELS ==> FreshBut(h, m, mem, t, l, {}) {
      assert FreshBut(h, m, mem, t, LEAF, {});
      forall l | 0 <= l < LEAF ensures SumsOK(m, t.sums[l], t.parts[l + 1]) && NodesOK(h, t.sums[l], t.parts[l]) {
        assert FreshBut(h, m, mem, t, l, {});
      }
    }
  }

  /** What update_ptree makes of partition i of level l, and of its parent's sum. */
  function UpdatePart<B(!new)>(h: Hasher<B>, m: nat, mem: seq<B>, t: Tree, l: nat, i: nat, n: Seqno): Tree
    requires HashesInto(h, m) && Shaped(t, |mem|, m) && 0 < l < LEVELS && i < Width(|mem|, l)
  {
    ParentInWidth(|mem|, l, i);
    var p, j := Part(n, DigestOf(h, mem, t, l, i, n)), Parent(i);
    var sum: nat := AddDigest(m, SubDigest(m, t.sums[l - 1][j], t.parts[l][i].d), p.d);
    var row: seq<nat> := t.sums[l - 1][j := sum];
    Tree(t.parts[l := t.parts[l][i := p]], t.sums[l - 1 := row])
  }

  /** Replacing a partition and a sum keeps the shape. */
  lemma ReplacedShape(t: Tree, nb: nat, m: nat, l: nat, i: nat, p: Part, j: nat, row: seq<nat>)
    requires Shaped(t, nb, m) && 0 < l < LEVELS && i < |t.parts[l]| && j < |t.sums[l - 1]| && p.d < m
    requires |row| == |t.sums[l - 1]| && row[j] < m && row == t.sums[l - 1][j := row[j]]
    ensures Shaped(Tree(t.parts[l := t.parts[l][i := p]], t.sums[l - 1 := row]), nb, m)
  {
    hide Width;
    var t' := Tree(t.parts[l := t.parts[l][i := p]], t.sums[l - 1 := row]);
    forall k, q | 0 <= k < LEVELS && 0 <= q < |t'.parts[k]| ensures t'.parts[k][q].d < m {
      assert k != l ==> t'.parts[k][q] == t.parts[k][q];
    }
    forall k, q | 0 <= k < LEAF && 0 <= q < |t'.sums[k]| ensures t'.sums[k][q] < m {
      assert k != l - 1 ==> t'.sums[k][q] == t.sums[k][q];
    }
  }

  lemma UpdatePartShape<B(!new)>(h: Hasher<B>, m: nat, mem: seq<B>, t: Tree, l: nat, i: nat, n: Seqno)
    requires HashesInto(h, m) && Shaped(t, |mem|, m) && 0 < l < LEVELS && i < Width(|mem|, l)
    ensures Shaped(UpdatePart(h, m, mem, t, l, i, n), |mem|, m)
  {
    hide AddDigest, SubDigest;
    ParentInWidth(|mem|, l, i);
    var p, j := Part(n, DigestOf(h, mem, t, l, i, n)), Parent(i);
    var sum: nat := AddDigest(m, SubDigest(m, t.sums[l - 1][j], t.parts[l][i].d), p.d);
    var row: seq<nat> := t.sums[l - 1][j := sum];
    ReplacedShape(t, |mem|, m, l, i, p, j, row);
  }

  lemma UpdatePartOK<B(!new)>(h: Hasher<B>, m: nat, mem: seq<B>, t: Tree, l: nat, i: nat, n: Seqno)
    requires HashesInto(h, m) && Shaped(t, |mem|, m) && 0 < l < LEVELS && i < Width(|mem|, l)
    requires SumsUpToDate(m, t, |mem|)
    ensures var t' := UpdatePart(h, m, mem, t, l, i, n); Shaped(t', |mem|, m) && SumsUpToDate(m, t', |mem|)
  {
    hide SumsOK, AddDigest, SubDigest, Width;
    ParentInWidth(|mem|, l, i);
    UpdatePartShape(h, m, mem, t, l, i, n);
    var t' := UpdatePart(h, m, mem, t, l, i, n);
    assert SumsOK(m, t.sums[l - 1], t.parts[l]);
    SumsFollow(m, t.sums[l - 1], t.parts[l], i, t'.parts[l][i]);
    forall k | 0 <= k < LEAF ensures SumsOK(m, t'.sums[k], t'.parts[k + 1]) {
      if k == l - 1 {
        assert t'.sums[k] == t.sums[k][Parent(i) := t'.sums[k][Parent(i)]];
      } else {
        assert t'.sums[k] == t.sums[k] && t'.parts[k + 1] == t.parts[k + 1];
        assert SumsOK(m, t.sums[k], t.parts[k + 1]);
      }
    }
  }

  function Parents(mods: set<nat>): set<nat> {
    set i | i in mods :: Parent(i)
  }

  /** t with the partitions in mods of level l brought up to date as of checkpoint n. */
  ghost predicate LevelUpdated<B(!new)>(h: Hasher<B>, m: nat, mem: seq<B>, t: Tree, t': Tree, l: nat, mods: set<nat>, n: Seqno) {
    && 0 < l < LEVELS && Shaped(t, |mem|, m) && Shaped(t', |mem|, m)
    && (forall k :: 0 <= k < LEVELS && k != l ==> t'.parts[k] == t.parts[k])
    && (forall k :: 0 <= k < LEAF && k != l - 1 ==> t'.sums[k] == t.sums[k])
    && (forall i :: 0 <= i < |t.parts[l]| ==>
          t'.parts[l][i] == if i in mods then Part(n, DigestOf(h, mem, t, l, i, n)) else t.parts[l][i])
    && (forall j :: 0 <= j < |t.sums[l - 1]| && j !in Parents(mods) ==> t'.sums[l - 1][j] == t.sums[l - 1][j])
  }

  lemma LevelStep<B(!new)>(h: Hasher<B>, m: nat, mem: seq<B>, t: Tree, t': Tree, l: nat, mods: set<nat>, i: nat, n: Seqno)
    requires HashesInto(h, m) && LevelUpdated(h, m, mem, t, t', l, mods, n) && i < Width(|mem|, l) && i !in mods
    requires SumsUpToDate(m, t', |mem|)
    ensures LevelUpdated(h, m, mem, t, UpdatePart(h, m, mem, t', l, i, n), l, mods + {i}, n)
  {
    hide SumsOK, AddDigest, SubDigest, HashesInto, Width;
    UpdatePartOK(h, m, mem, t', l, i, n);
    assert forall j :: j in Parents(mods) ==> j in Parents(mods + {i});
    assert i in mods + {i};
    assert Parent(i) in Parents(mods + {i});
  }

  /** The copies made of partitions of level l join the record. */
  ghost predicate CopiesAdded<B(!new)>(was: map<(nat, nat), PartCopy<B>>, now: map<(nat, nat), PartCopy<B>>,
                                       parts: seq<Part>, l: nat, mods: set<nat>) {
    && (forall k, i :: (k, i) in now <==> (k, i) in was || (k == l && i in mods))
    && (forall k, i :: (k, i) in was && k != l ==> (k, i) in now && now[(k, i)] == was[(k, i)])
    && (forall i :: i in mods ==> i < |parts| && (l, i) in now && now[(l, i)] == PartCopy(parts[i].lm, parts[i].d, None))
  }

  lemma CopyStep<B(!new)>(was: map<(nat, nat), PartCopy<B>>, now: map<(nat, nat), PartCopy<B>>,
                          parts: seq<Part>, l: nat, mods: set<nat>, i: nat)
    requires CopiesAdded(was, now, parts, l, mods) && i < |parts| && i !in mods
    ensures CopiesAdded(was, now[(l, i) := PartCopy(parts[i].lm, parts[i].d, None)], parts, l, mods + {i})
  {
  }

  /** Level k of the record against the last snapshot and the tree as it will be at checkpoint n. */
  ghost predicate LevelKept<B(!new)>(parts: map<(nat, nat), PartCopy<B>>, last: Snap<B>, nb: nat, mem: seq<B>, t: Tree,
                                     n: Seqno, k: nat)
    requires ShapedSnap(last, nb) && |mem| == nb && k < LEVELS && |t.parts| == LEVELS && |t.parts[k]| == Width(nb, k)
  {
    forall i :: 0 <= i < Width(nb, k) ==>
      if (k, i) in parts then parts[(k, i)] == CopyOf(last, nb, k, i) && t.parts[k][i].lm == n
      else last.tree.parts[k][i] == t.parts[k][i] && (k == LEAF ==> last.mem[i] == mem[i])
  }

  ghost predicate AllKept<B(!new)>(parts: map<(nat, nat), PartCopy<B>>, last: Snap<B>, nb: nat, mem: seq<B>, t: Tree, n: Seqno, m: nat)
    requires ShapedSnap(last, nb) && |mem| == nb && Shaped(t, nb, m)
  {
    forall k :: 0 <= k < LEVELS ==> LevelKept(parts, last, nb, mem, t, n, k)
  }

  lemma AllLevelsKept<B(!new)>(rec: CkptRec<B>, last: Snap<B>, now: Snap<B>, nb: nat, m: nat)
    requires ShapedSnap(last, nb) && ShapedSnap(now, nb) && Shaped(now.tree, nb, m)
    requires AllKept(rec.parts, last, nb, now.mem, now.tree, now.n, m)
    ensures Kept(rec, last, now, nb)
  {
    hide Width;
    forall l, i | InTree(nb, l, i) ensures KeptAt(rec, last, now, nb, l, i) {
      assert LevelKept(rec.parts, last, nb, now.mem, now.tree, now.n, l);
    }
  }

  // ------------------------------------------------------------------
  // The levels one after another
  // ------------------------------------------------------------------

  /**
   * Levels above l are up to date and in the record, level l is but for the
   * partitions in mods, and the levels below are as they were.
   */
  ghost predicate UpdatedDownTo<B(!new)>(h: Hasher<B>, m: nat, mem: seq<B>, last: Snap<B>, t: Tree,
                                         parts: map<(nat, nat), PartCopy<B>>, n: Seqno, l: nat, mods: set<nat>)
    requires ShapedSnap(last, |mem|) && l < LEVELS
  {
    && Shaped(t, |mem|, m) && SumsUpToDate(m, t, |mem|)
    && (forall i :: i in mods ==> i < Width(|mem|, l))
    && (forall k :: l < k < LEVELS ==> FreshBut(h, m, mem, t, k, {}) && LevelKept(parts, last, |mem|, mem, t, n, k))
    && (forall k :: 0 <= k <= l ==> t.parts[k] == last.tree.parts[k])
    && (forall k :: 0 <= k < l && k < LEAF ==> FreshBut(h, m, mem, t, k, {}))
    && FreshBut(h, m, mem, t, l, mods)
    && (l < LEAF ==> forall k, i :: k <= l ==> (k, i) !in parts)
    && (l == LEAF ==> forall k, i :: (k, i) in parts ==> k == LEAF)
  }

  lemma ShapedWidths(t: Tree, nb: nat, m: nat, l: nat)
    requires Shaped(t, nb, m) && l < LEVELS
    ensures |t.parts| == LEVELS && |t.sums| == LEAF && |t.parts[l]| == Width(nb, l)
    ensures l < LEAF ==> |t.sums[l]| == Width(nb, l)
  {
  }

  /** A level that was brought up to date, without the record: digests. */
  lemma UpdatedIsFresh<B(!new)>(h: Hasher<B>, m: nat, mem: seq<B>, t: Tree, t': Tree, l: nat, mods: set<nat>, n: Seqno)
    requires LevelUpdated(h, m, mem, t, t', l, mods, n) && FreshBut(h, m, mem, t, l, mods)
    ensures FreshBut(h, m, mem, t', l, {})
  {
    hide Shaped, Width;
    ShapedWidths(t, |mem|, m, l);
    ShapedWidths(t', |mem|, m, l);
  }

  /** Of the level above, those may be stale whose sums changed. */
  lemma ParentsAreStale<B(!new)>(h: Hasher<B>, m: nat, mem: seq<B>, t: Tree, t': Tree, l: nat, mods: set<nat>, n: Seqno)
    requires LevelUpdated(h, m, mem, t, t', l, mods, n) && FreshBut(h, m, mem, t, l - 1, {})
    ensures FreshBut(h, m, mem, t', l - 1, Parents(mods))
  {
    hide Width, Parents;
  }

  lemma OthersStayFresh<B(!new)>(h: Hasher<B>, m: nat, mem: seq<B>, t: Tree, t': Tree, l: nat, mods: set<nat>, n: Seqno, k: nat)
    requires LevelUpdated(h, m, mem, t, t', l, mods, n) && k < LEVELS && k != l && k != l - 1
    requires FreshBut(h, m, mem, t, k, {})
    ensures FreshBut(h, m, mem, t', k, {})
  {
    hide Width, Parents;
  }

  /** The record gets the level: for the leaves it has the copies made on write, for the others they are made now. */
  lemma UpdatedIsKept<B(!new)>(h: Hasher<B>, m: nat, mem: seq<B>, last: Snap<B>, t: Tree, t': Tree,
                               was: map<(nat, nat), PartCopy<B>>, now: map<(nat, nat), PartCopy<B>>,
                               l: nat, mods: set<nat>, n: Seqno)
    requires ShapedSnap(last, |mem|) && LevelUpdated(h, m, mem, t, t', l, mods, n)
    requires t.parts[l] == last.tree.parts[l]
    requires if l == LEAF then now == was && Copied(CkptRec(0, was), last, |mem|, mem, mods)
             else CopiesAdded(was, now, t.parts[l], l, mods) && forall i :: (l, i) !in was
    ensures LevelKept(now, last, |mem|, mem, t', n, l)
  {
    hide Parents;
  }

  lemma KeptStays<B(!new)>(h: Hasher<B>, m: nat, mem: seq<B>, last: Snap<B>, t: Tree, t': Tree,
                           was: map<(nat, nat), PartCopy<B>>, now: map<(nat, nat), PartCopy<B>>,
                           l: nat, mods: set<nat>, n: Seqno, k: nat)
    requires ShapedSnap(last, |mem|) && LevelUpdated(h, m, mem, t, t', l, mods, n) && k < LEVELS && k != l
    requires forall i :: (k, i) in now <==> (k, i) in was
    requires forall i :: (k, i) in was ==> now[(k, i)] == was[(k, i)]
    requires LevelKept(was, last, |mem|, mem, t, n, k)
    ensures LevelKept(now, last, |mem|, mem, t', n, k)
  {
    hide Parents, Width;
  }

  lemma ParentsInWidth(nb: nat, l: nat, mods: set<nat>)
    requires 0 < l < LEVELS && forall i :: i in mods ==> i < Width(nb, l)
    ensures forall j :: j in Parents(mods) ==> j < Width(nb, l - 1)
  {
    hide Width;
    forall j | j in Parents(mods) ensures j < Width(nb, l - 1) {
      var i :| i in mods && Parent(i) == j;
      ParentInWidth(nb, l, i);
    }
  }

  /** One level done, the next one to do. */
  lemma NextLevel<B(!new)>(h: Hasher<B>, m: nat, mem: seq<B>, last: Snap<B>, t: Tree, t': Tree,
                           was: map<(nat, nat), PartCopy<B>>, now: map<(nat, nat), PartCopy<B>>,
                           l: nat, mods: set<nat>, n: Seqno)
    requires ShapedSnap(last, |mem|) && 0 < l < LEVELS && UpdatedDownTo(h, m, mem, last, t, was, n, l, mods)
    requires LevelUpdated(h, m, mem, t, t', l, mods, n) && SumsUpToDate(m, t', |mem|)
    requires if l == LEAF then now == was && Copied(CkptRec(0, was), last, |mem|, mem, mods)
             else CopiesAdded(was, now, t.parts[l], l, mods)
    ensures UpdatedDownTo(h, m, mem, last, t', now, n, l - 1, Parents(mods))
  {
    hide Width, SumsOK, FreshBut, LevelKept, ShapedSnap, Parents;
    ParentsInWidth(|mem|, l, mods);
    UpdatedIsFresh(h, m, mem, t, t', l, mods, n);
    ParentsAreStale(h, m, mem, t, t', l, mods, n);
    UpdatedIsKept(h, m, mem, last, t, t', was, now, l, mods, n);
    forall k | l - 1 < k < LEVELS
      ensures FreshBut(h, m, mem, t', k, {}) && LevelKept(now, last, |mem|, mem, t', n, k)
    {
      if k != l {
        OthersStayFresh(h, m, mem, t, t', l, mods, n, k);
        KeptStays(h, m, mem, last, t, t', was, now, l, mods, n, k);
      }
    }
    forall k | 0 <= k < l - 1 ensures FreshBut(h, m, mem, t', k, {}) {
      OthersStayFresh(h, m, mem, t, t', l, mods, n, k);
    }
  }

  /** Nothing is up to date or recorded yet but what was copied on write. */
  lemma StartUpdate<B(!new)>(h: Hasher<B>, m: nat, mem: seq<B>, last: Snap<B>, rec: CkptRec<B>, n: Seqno, cowb: set<nat>)
    requires ShapedSnap(last, |mem|) && TreeOK(h, m, last.mem, last.tree) && Copied(rec, last, |mem|, mem, cowb)
    ensures UpdatedDownTo(h, m, mem, last, last.tree, rec.parts, n, LEAF, cowb)
  {
    hide SumsOK, Width;
    FreshIsTreeOK(h, m, last.mem, last.tree);
    WidthOfLeaf(|mem|);
    forall k | 0 <= k < LEAF ensures FreshBut(h, m, mem, last.tree, k, {}) {
      assert FreshBut(h, m, last.mem, last.tree, k, {});
    }
    assert FreshBut(h, m, last.mem, last.tree, LEAF, {});
  }

  lemma WidthOfLeaf(nb: nat)
    ensures Width(nb, LEAF) == nb
  {
  }

  /** The root comes last. */
  function UpdateRoot<B(!new)>(h: Hasher<B>, mem: seq<B>, t: Tree, n: Seqno): Tree
    requires |t.parts| == LEVELS && |t.sums| == LEAF && |t.sums[0]| == |t.parts[0]| == 1
  {
    t.(parts := t.parts[0 := [Part(n, DigestOf(h, mem, t, 0, 0, n))]])
  }

  lemma RootShape<B(!new)>(h: Hasher<B>, m: nat, mem: seq<B>, t: Tree, n: Seqno)
    requires HashesInto(h, m) && Shaped(t, |mem|, m) && |t.parts[0]| == 1
    ensures |t.sums[0]| == 1 && Shaped(UpdateRoot(h, mem, t, n), |mem|, m)
  {
    hide Width;
    var t' := UpdateRoot(h, mem, t, n);
    forall k, q | 0 <= k < LEVELS && 0 <= q < |t'.parts[k]| ensures t'.parts[k][q].d < m {
      assert k != 0 ==> t'.parts[k][q] == t.parts[k][q];
    }
  }

  /** With the root done the whole tree is that of the memory, and the record is complete. */
  lemma FinishUpdate<B(!new)>(h: Hasher<B>, m: nat, mem: seq<B>, last: Snap<B>, t: Tree, t': Tree,
                              was: map<(nat, nat), PartCopy<B>>, now: map<(nat, nat), PartCopy<B>>, n: Seqno, mods: set<nat>)
    requires HashesInto(h, m) && ShapedSnap(last, |mem|) && UpdatedDownTo(h, m, mem, last, t, was, n, 0, mods)
    requires |t.parts[0]| == 1 && |t.sums[0]| == 1
    requires t' == if 0 in mods then UpdateRoot(h, mem, t, n) else t
    requires now == if 0 in mods then was[(0, 0) := PartCopy(t.parts[0][0].lm, t.parts[0][0].d, None)] else was
    ensures Shaped(t', |mem|, m) && TreeOK(h, m, mem, t')
    ensures AllKept(now, last, |mem|, mem, t', n, m)
  {
    hide SumsOK, Width, HashesInto, FreshBut, LevelKept;
    RootShape(h, m, mem, t, n);
    RootLevel(h, m, mem, last, t, t', was, now, n, mods);
    forall k | 0 < k < LEVELS ensures FreshBut(h, m, mem, t', k, {}) && LevelKept(now, last, |mem|, mem, t', n, k) {
      UpperLevels(h, m, mem, last, t, t', was, now, n, k);
    }
    FreshIsTreeOK(h, m, mem, t');
  }

  lemma RootLevel<B(!new)>(h: Hasher<B>, m: nat, mem: seq<B>, last: Snap<B>, t: Tree, t': Tree,
                           was: map<(nat, nat), PartCopy<B>>, now: map<(nat, nat), PartCopy<B>>, n: Seqno, mods: set<nat>)
    requires ShapedSnap(last, |mem|) && UpdatedDownTo(h, m, mem, last, t, was, n, 0, mods) && Shaped(t', |mem|, m)
    requires |t.parts[0]| == 1 && |t.sums[0]| == 1
    requires t' == if 0 in mods then UpdateRoot(h, mem, t, n) else t
    requires now == if 0 in mods then was[(0, 0) := PartCopy(t.parts[0][0].lm, t.parts[0][0].d, None)] else was
    ensures FreshBut(h, m, mem, t', 0, {}) && LevelKept(now, last, |mem|, mem, t', n, 0)
  {
    hide SumsOK, Width;
  }

  lemma UpperLevels<B(!new)>(h: Hasher<B>, m: nat, mem: seq<B>, last: Snap<B>, t: Tree, t': Tree,
                             was: map<(nat, nat), PartCopy<B>>, now: map<(nat, nat), PartCopy<B>>, n: Seqno, k: nat)
    requires ShapedSnap(last, |mem|) && Shaped(t, |mem|, m) && Shaped(t', |mem|, m) && 0 < k < LEVELS
    requires t'.parts[k] == t.parts[k] && t'.sums == t.sums
    requires forall i :: (k, i) in now <==> (k, i) in was
    requires forall i :: (k, i) in was ==> now[(k, i)] == was[(k, i)]
    requires FreshBut(h, m, mem, t, k, {}) && LevelKept(was, last, |mem|, mem, t, n, k)
    ensures FreshBut(h, m, mem, t', k, {}) && LevelKept(now, last, |mem|, mem, t', n, k)
  {
    hide Width;
  }

  /** The new snapshot has the shape of the others. */
  lemma NewSnapShape<B(!new)>(h: Hasher<B>, m: nat, mem: seq<B>, last: Snap<B>, t: Tree,
                              parts: map<(nat, nat), PartCopy<B>>, n: Seqno)
    requires ShapedSnap(last, |mem|) && Shaped(t, |mem|, m) && n > last.n && n % CHECKPOINT_INTERVAL == 0
    requires AllKept(parts, last, |mem|, mem, t, n, m)
    ensures ShapedSnap(Snap(n, mem, t), |mem|)
  {
    hide Width;
    forall l, i | 0 <= l < LEVELS && 0 <= i < Width(|mem|, l) ensures t.parts[l][i].lm <= n {
      assert LevelKept(parts, last, |mem|, mem, t, n, l);
    }
  }

  // ------------------------------------------------------------------
  // From scratch
  // ------------------------------------------------------------------

  /** How far the children of j are added once the first i partitions are. */
  function AddedUpTo(w: nat, i: nat, j: nat): (e: nat)
    requires i <= w && j * CHILDREN <= w
    ensures j * CHILDREN <= e <= w
  {
    if i <= j * CHILDREN then j * CHILDREN else if i <= ChildEnd(w, j) then i else ChildEnd(w, j)
  }

  ghost predicate PartialSums(m: nat, sums: seq<nat>, parts: seq<Part>, i: nat) {
    && m > 0 && Small(parts, m) && i <= |parts|
    && forall j :: 0 <= j < |sums| ==>
         j * CHILDREN <= |parts| && sums[j] == SumOf(m, Digests(parts), j * CHILDREN, AddedUpTo(|parts|, i, j))
  }

  lemma PartialStep(m: nat, sums: seq<nat>, parts: seq<Part>, i: nat, p: Part)
    requires PartialSums(m, sums, parts, i) && i < |parts| && p.d < m && Parent(i) < |sums|
    requires forall j :: 0 <= j < |sums| ==> sums[j] < m
    ensures PartialSums(m, sums[Parent(i) := AddDigest(m, sums[Parent(i)], p.d)], parts[i := p], i + 1)
  {
    hide SumOf, AddDigest;
    var j0, parts' := Parent(i), parts[i := p];
    var sums' := sums[j0 := AddDigest(m, sums[j0], p.d)];
    assert Digests(parts') == Digests(parts)[i := p.d];
    forall j | 0 <= j < |sums'|
      ensures j * CHILDREN <= |parts'|
      ensures sums'[j] == SumOf(m, Digests(parts'), j * CHILDREN, AddedUpTo(|parts'|, i + 1, j))
    {
      assert j * CHILDREN <= |parts|;
      SumSame(m, Digests(parts), Digests(parts'), j * CHILDREN, AddedUpTo(|parts|, i, j));
      if j == j0 {
        SumNext(m, Digests(parts'), j * CHILDREN, i);
      }
    }
  }

  lemma SumNext(m: nat, ds: seq<nat>, lo: nat, hi: nat)
    requires lo <= hi < |ds| && m > 0 && forall i :: 0 <= i < |ds| ==> ds[i] < m
    ensures SumOf(m, ds, lo, hi + 1) == AddDigest(m, SumOf(m, ds, lo, hi), ds[hi])
  {
  }

  lemma PartialDone(m: nat, sums: seq<nat>, parts: seq<Part>)
    requires PartialSums(m, sums, parts, |parts|)
    ensures SumsOK(m, sums, parts)
  {
    forall j | 0 <= j < |sums| ensures sums[j] == ChildSum(m, parts, j) {
      assert j * CHILDREN <= |parts|;
    }
  }

  /** One level of compute_full_digest: the digests of its partitions and the sums above them. */
  method ComputeLevel<B(!new)>(h: Hasher<B>, m: nat, mem: array<B>, sums: seq<nat>, l: nat)
    returns (parts: seq<Part>, up: seq<nat>)
    requires HashesInto(h, m) && 0 < l < LEVELS && (l < LEAF ==> |sums| == Width(mem.Length, l))
    ensures |parts| == Width(mem.Length, l) && |up| == Width(mem.Length, l - 1)
    ensures SumsOK(m, up, parts) && forall j :: 0 <= j < |up| ==> up[j] < m
    ensures forall i :: 0 <= i < |parts| ==>
              parts[i] == Part(0, if l == LEAF then h.block(mem[i], i, 0) else h.sum(sums[i], i, 0))
  {
    hide Width, SumOf, AddDigest, PartialSums, SumsOK;
    WidthOfLeaf(mem.Length);
    var np := Width(mem.Length, l);
    parts := seq(np, _ => Part(0, 0));
    up := seq(Width(mem.Length, l - 1), _ => 0);
    NoneAdded(m, up, parts, mem.Length, l);
    for i := 0 to np
      invariant |parts| == np && |up| == Width(mem.Length, l - 1) && PartialSums(m, up, parts, i)
      invariant forall j :: 0 <= j < |up| ==> up[j] < m
      invariant forall k :: 0 <= k < i ==>
        parts[k] == Part(0, if l == LEAF then h.block(mem[k], k, 0) else h.sum(sums[k], k, 0))
    {
      ParentInWidth(mem.Length, l, i);
      var d := if l == LEAF then h.block(mem[i], i, 0) else h.sum(sums[i], i, 0);
      PartialStep(m, up, parts, i, Part(0, d));
      var sum: nat := AddDigest(m, up[Parent(i)], d);
      parts, up := parts[i := Part(0, d)], up[Parent(i) := sum];
    }
    PartialDone(m, up, parts);
  }

  lemma NoneAdded(m: nat, sums: seq<nat>, parts: seq<Part>, nb: nat, l: nat)
    requires m > 0 && 0 < l < LEVELS && |parts| == Width(nb, l) && |sums| == Width(nb, l - 1)
    requires (forall i :: 0 <= i < |parts| ==> parts[i].d == 0) && forall j :: 0 <= j < |sums| ==> sums[j] == 0
    ensures PartialSums(m, sums, parts, 0)
  {
    hide Width;
    forall j | 0 <= j < |sums| ensures j * CHILDREN <= |parts| && sums[j] == SumOf(m, Digests(parts), j * CHILDREN, j * CHILDREN) {
      StartsInWidth(nb, l, j);
    }
  }

  /** compute_full_digest: the tree of a memory that no checkpoint has modified yet. */
  method ComputeFullDigest<B(!new)>(h: Hasher<B>, m: nat, mem: array<B>) returns (t: Tree)
    requires HashesInto(h, m) && 1 <= mem.Length <= CHILDREN * CHILDREN * CHILDREN
    ensures |t.parts| == LEVELS && |t.parts[0]| == 1 && TreeOK(h, m, mem[..], t)
    ensures forall l, i :: 0 <= l < LEVELS && 0 <= i < |t.parts[l]| ==> t.parts[l][i].lm == 0
  {
    hide Width, SumsOK;
    WidthOfLeaf(mem.Length);
    RootIsAlone(mem.Length);
    var p3, s2 := ComputeLevel(h, m, mem, [], 3);
    var p2, s1 := ComputeLevel(h, m, mem, s2, 2);
    var p1, s0 := ComputeLevel(h, m, mem, s1, 1);
    t := Tree([[Part(0, h.sum(s0[0], 0, 0))], p1, p2, p3], [s0, s1, s2]);
  }
}
