/**
 * What a state transfer is doing: the queues of out-of-date partitions that
 * src/State.cc fetches depth first, and what holds of them whatever messages
 * arrive.
 */
module FetchPlan {
  import opened Types
  import opened DigestSums
  import opened DigestTree
  import opened TreeUpdate

  /** FPart: a partition to fetch, up to date as of lu, for checkpoint c (-1 for none yet) with digest d. */
  datatype FPart = FPart(index: nat, lu: Seqno, lm: Seqno, c: Seqno, d: nat)

  /** PLevelSize for inner partitions, whether in use or not. */
  function FullWidth(nb: nat, l: nat): nat
    requires l < LEVELS
  {
    if l == 0 then 1 else if l == 1 then CHILDREN else if l == 2 then CHILDREN * CHILDREN else nb
  }

  /** The tree is as large as it can be, and every sum is that of the digests below it. */
  ghost predicate FetchTree(t: Tree, nb: nat, m: nat) {
    && |t.parts| == LEVELS && |t.sums| == LEAF && m > 0
    && (forall l :: 0 <= l < LEVELS ==> |t.parts[l]| == FullWidth(nb, l) && Small(t.parts[l], m))
    && (forall l :: 0 <= l < LEAF ==> |t.sums[l]| == FullWidth(nb, l) && SmallSums(t.sums[l], m))
    && (forall l :: 0 <= l < LEAF ==> SumsOK(m, t.sums[l], t.parts[l + 1]))
  }

  ghost predicate SmallSums(sums: seq<nat>, m: nat) {
    forall j :: 0 <= j < |sums| ==> sums[j] < m
  }

  function High(q: seq<FPart>): FPart
    requires q != []
  {
    q[|q| - 1]
  }

  /** An entry of the queue of level l. */
  ghost predicate EntryOK(e: FPart, nb: nat, m: nat, l: nat, lc: Seqno)
    requires l < LEVELS
  {
    e.index < FullWidth(nb, l) && e.d < m && (e.c == -1 || (e.c >= lc && e.c >= 0))
  }

  /** Entries are distinct children of the partition with index "parent". */
  ghost predicate QueueOK(q: seq<FPart>, nb: nat, m: nat, l: nat, lc: Seqno)
    requires l < LEVELS
  {
    && (forall k :: 0 <= k < |q| ==> EntryOK(q[k], nb, m, l, lc))
    && (forall j, k :: 0 <= j < k < |q| ==> q[j].index != q[k].index)
  }

  ghost predicate ChildrenOf(q: seq<FPart>, parent: nat) {
    forall k :: 0 <= k < |q| ==> Parent(q[k].index) == parent
  }

  /**
   * Levels up to flevel have partitions to fetch, deeper ones have none; each
   * entry is a child of the partition being worked on one level up, whose
   * checkpoint is known.
   */
  ghost predicate Discipline(stalep: seq<seq<FPart>>, flevel: nat, nb: nat, m: nat, lc: Seqno) {
    && |stalep| == LEVELS && flevel < LEVELS && |stalep[0]| == 1
    && (forall l :: 0 <= l < LEVELS ==> (stalep[l] != [] <==> l <= flevel) && QueueOK(stalep[l], nb, m, l, lc))
    && (forall l :: 0 < l <= flevel ==> Linked(stalep, l))
  }

  ghost predicate Linked(stalep: seq<seq<FPart>>, l: nat)
    requires |stalep| == LEVELS && 0 < l < LEVELS
  {
    stalep[l - 1] != [] && ChildrenOf(stalep[l], High(stalep[l - 1]).index) && High(stalep[l - 1]).c >= 0
  }

  // ------------------------------------------------------------------
  // Progress
  // ------------------------------------------------------------------

  /** The work in an entry of level l: its own and that of all its children. */
  function Weight(l: nat): nat
    requires l < LEVELS
  {
    if l == 3 then 1 else if l == 2 then 258 else if l == 1 then 66050 else 16908802
  }

  function QueueWork(stalep: seq<seq<FPart>>): nat
    requires |stalep| == LEVELS
  {
    |stalep[0]| * Weight(0) + |stalep[1]| * Weight(1) + |stalep[2]| * Weight(2) + |stalep[3]| * Weight(3)
  }

  /** The work already taken out of the partitions being worked on above flevel. */
  function Expanded(flevel: nat): nat
    requires flevel < LEVELS
  {
    if flevel == 0 then 0 else Expanded(flevel - 1) + Weight(flevel - 1) - 1
  }

  function Work(stalep: seq<seq<FPart>>, flevel: nat): int
    requires |stalep| == LEVELS && flevel < LEVELS
  {
    QueueWork(stalep) - Expanded(flevel)
  }

  // ------------------------------------------------------------------
  // What the digests say
  // ------------------------------------------------------------------

  /** The sum with the digests of the partitions in q replaced by those they are fetched for. */
  function Replaced(m: nat, parts: seq<Part>, sum: nat, q: seq<FPart>): (r: nat)
    requires sum < m && Small(parts, m)
    requires forall k :: 0 <= k < |q| ==> q[k].index < |parts| && q[k].d < m
    ensures r < m
  {
    if q == [] then sum
    else
      var e := q[|q| - 1];
      AddDigest(m, SubDigest(m, Replaced(m, parts, sum, q[..|q| - 1]), parts[e.index].d), e.d)
  }

  /** Partition i of level l has the digest of what it consists of. */
  ghost predicate IsFresh<B(!new)>(h: Hasher<B>, mem: seq<B>, t: Tree, l: nat, i: nat)
    requires l < LEVELS && |t.parts| == LEVELS && |t.sums| == LEAF && i < |t.parts[l]|
    requires if l == LEAF then i < |mem| else i < |t.sums[l]|
  {
    t.parts[l][i].d == DigestOf(h, mem, t, l, i, t.parts[l][i].lm)
  }

  /** Every partition is fresh, but for those being worked on and those in loose. */
  ghost predicate FreshAround<B(!new)>(h: Hasher<B>, m: nat, mem: seq<B>, t: Tree, stalep: seq<seq<FPart>>, flevel: nat,
                                       loose: set<(nat, nat)>)
    requires FetchTree(t, |mem|, m) && |stalep| == LEVELS
  {
    forall l, i :: 0 <= l < LEVELS && 0 <= i < |t.parts[l]| ==>
      IsFresh(h, mem, t, l, i) || (l, i) in loose || WorkedOn(stalep, flevel, l, i)
  }

  ghost predicate WorkedOn(stalep: seq<seq<FPart>>, flevel: nat, l: nat, i: nat)
    requires |stalep| == LEVELS && l < LEVELS
  {
    l < flevel && stalep[l] != [] && i == High(stalep[l]).index
  }

  /** Once its children are as fetched, the partition worked on at level l has the digest it is fetched for. */
  ghost predicate OnTarget<B(!new)>(h: Hasher<B>, m: nat, t: Tree, stalep: seq<seq<FPart>>, nb: nat, lc: Seqno, l: nat)
    requires FetchTree(t, nb, m) && |stalep| == LEVELS && l < LEAF
    requires stalep[l] != [] && QueueOK(stalep[l], nb, m, l, lc) && QueueOK(stalep[l + 1], nb, m, l + 1, lc)
  {
    var e := High(stalep[l]);
    e.d == h.sum(Replaced(m, t.parts[l + 1], t.sums[l][e.index], stalep[l + 1]), e.index, e.lm)
  }

  // ------------------------------------------------------------------
  // Updates of one partition
  // ------------------------------------------------------------------

  /** Two replacements commute. */
  lemma ReplacementsCommute(m: nat, s: nat, a: nat, b: nat, c: nat, d: nat)
    requires s < m && a < m && b < m && c < m && d < m
    ensures AddDigest(m, SubDigest(m, AddDigest(m, SubDigest(m, s, a), b), c), d)
         == AddDigest(m, SubDigest(m, AddDigest(m, SubDigest(m, s, c), d), a), b)
  {
  }

  lemma {:induction false} ReplacedShift(m: nat, parts: seq<Part>, sum: nat, q: seq<FPart>, a: nat, b: nat)
    requires sum < m && Small(parts, m) && a < m && b < m
    requires forall k :: 0 <= k < |q| ==> q[k].index < |parts| && q[k].d < m
    ensures Replaced(m, parts, AddDigest(m, SubDigest(m, sum, a), b), q)
         == AddDigest(m, SubDigest(m, Replaced(m, parts, sum, q), a), b)
  {
    hide AddDigest, SubDigest;
    if q != [] {
      var e := q[|q| - 1];
      ReplacedShift(m, parts, sum, q[..|q| - 1], a, b);
      ReplacementsCommute(m, Replaced(m, parts, sum, q[..|q| - 1]), a, b, parts[e.index].d, e.d);
    }
  }

  lemma {:induction false} ReplacedSame(m: nat, parts: seq<Part>, parts': seq<Part>, sum: nat, q: seq<FPart>)
    requires sum < m && Small(parts, m) && Small(parts', m) && |parts| == |parts'|
    requires forall k :: 0 <= k < |q| ==> q[k].index < |parts| && q[k].d < m && parts'[q[k].index].d == parts[q[k].index].d
    ensures Replaced(m, parts, sum, q) == Replaced(m, parts', sum, q)
  {
    hide AddDigest, SubDigest;
    if q != [] {
      ReplacedSame(m, parts, parts', sum, q[..|q| - 1]);
    }
  }

  /** The last entry gets the digest it is fetched for: the target does not move. */
  lemma TargetStays(m: nat, parts: seq<Part>, sum: nat, q: seq<FPart>, p: Part)
    requires q != [] && sum < m && Small(parts, m) && p.d == High(q).d
    requires forall k :: 0 <= k < |q| ==> q[k].index < |parts| && q[k].d < m
    requires forall j, k :: 0 <= j < k < |q| ==> q[j].index != q[k].index
    ensures var e, rest := High(q), q[..|q| - 1];
            Replaced(m, parts[e.index := p], AddDigest(m, SubDigest(m, sum, parts[e.index].d), e.d), rest)
            == Replaced(m, parts, sum, q)
  {
    hide AddDigest, SubDigest;
    var e, rest := High(q), q[..|q| - 1];
    var sum' := AddDigest(m, SubDigest(m, sum, parts[e.index].d), e.d);
    ReplacedSame(m, parts, parts[e.index := p], sum', rest);
    ReplacedShift(m, parts, sum, rest, parts[e.index].d, e.d);
  }

  /** p takes the place of partition i of level l, and its parent's sum follows. */
  function PutPart(m: nat, t: Tree, l: nat, i: nat, p: Part): Tree
    requires |t.parts| == LEVELS && |t.sums| == LEAF && l < LEVELS && i < |t.parts[l]| && Small(t.parts[l], m) && p.d < m
    requires l > 0 ==> Parent(i) < |t.sums[l - 1]| && SmallSums(t.sums[l - 1], m)
  {
    if l == 0 then t.(parts := t.parts[0 := t.parts[0][i := p]])
    else
      var sum: nat := AddDigest(m, SubDigest(m, t.sums[l - 1][Parent(i)], t.parts[l][i].d), p.d);
      var row: seq<nat> := t.sums[l - 1][Parent(i) := sum];
      Tree(t.parts[l := t.parts[l][i := p]], t.sums[l - 1 := row])
  }

  lemma ParentInFull(nb: nat, l: nat, i: nat)
    requires 0 < l < LEVELS && i < FullWidth(nb, l) && nb <= CHILDREN * CHILDREN * CHILDREN
    ensures Parent(i) < FullWidth(nb, l - 1)
  {
  }

  lemma PutPartOK(t: Tree, nb: nat, m: nat, l: nat, i: nat, p: Part)
    requires FetchTree(t, nb, m) && l < LEVELS && i < FullWidth(nb, l) && p.d < m
    requires nb <= CHILDREN * CHILDREN * CHILDREN
    ensures l > 0 ==> Parent(i) < |t.sums[l - 1]|
    ensures FetchTree(PutPart(m, t, l, i, p), nb, m)
  {
    hide FullWidth, SumsOK, AddDigest, SubDigest;
    if l > 0 {
      ParentInFull(nb, l, i);
      SumsFollow(m, t.sums[l - 1], t.parts[l], i, p);
    }
    var t' := PutPart(m, t, l, i, p);
    forall k | 0 <= k < LEAF ensures SumsOK(m, t'.sums[k], t'.parts[k + 1]) {
      if k == l - 1 {
      } else {
        assert t'.sums[k] == t.sums[k] && t'.parts[k + 1] == t.parts[k + 1];
        assert SumsOK(m, t.sums[k], t.parts[k + 1]);
      }
    }
    forall k | 0 <= k < LEVELS ensures |t'.parts[k]| == FullWidth(nb, k) && Small(t'.parts[k], m) {
      if k != l {
        assert t'.parts[k] == t.parts[k];
      } else {
        SmallPut(t.parts[l], m, i, p);
      }
    }
    forall k | 0 <= k < LEAF ensures |t'.sums[k]| == FullWidth(nb, k) && SmallSums(t'.sums[k], m) {
      if k != l - 1 {
        assert t'.sums[k] == t.sums[k];
      }
    }
  }

  lemma SmallPut(parts: seq<Part>, m: nat, i: nat, p: Part)
    requires Small(parts, m) && i < |parts| && p.d < m
    ensures Small(parts[i := p], m)
  {
  }

  // ------------------------------------------------------------------
  // A partition is finished
  // ------------------------------------------------------------------

  /** Levels above flevel are on target, and all else is fresh. */
  ghost predicate ExactUpTo<B(!new)>(h: Hasher<B>, m: nat, mem: seq<B>, t: Tree, stalep: seq<seq<FPart>>, flevel: nat,
                                     lc: Seqno, loose: set<(nat, nat)>)
    requires FetchTree(t, |mem|, m) && |stalep| == LEVELS && flevel < LEVELS
    requires forall l :: 0 <= l < LEVELS ==> QueueOK(stalep[l], |mem|, m, l, lc)
    requires forall l :: 0 <= l < flevel ==> stalep[l] != []
  {
    && FreshAround(h, m, mem, t, stalep, flevel, loose)
    && forall l :: 0 <= l < flevel ==> OnTarget(h, m, t, stalep, |mem|, lc, l)
  }

  function WithoutHigh(stalep: seq<seq<FPart>>, l: nat): seq<seq<FPart>>
    requires |stalep| == LEVELS && l < LEVELS && stalep[l] != []
  {
    stalep[l := stalep[l][..|stalep[l]| - 1]]
  }

  lemma DropHigh(stalep: seq<seq<FPart>>, flevel: nat, nb: nat, m: nat, lc: Seqno)
    requires Discipline(stalep, flevel, nb, m, lc)
    ensures var stalep' := WithoutHigh(stalep, flevel);
            && (forall l :: 0 <= l < LEVELS ==> QueueOK(stalep'[l], nb, m, l, lc))
            && (stalep'[flevel] != [] ==> Discipline(stalep', flevel, nb, m, lc))
            && (stalep'[flevel] == [] && flevel > 0 ==>
                  Discipline(stalep', flevel - 1, nb, m, lc) && High(stalep'[flevel - 1]).c >= 0)
  {
    var stalep' := WithoutHigh(stalep, flevel);
    if flevel > 0 {
      assert Linked(stalep, flevel);
    }
    forall l | 0 < l <= flevel && (l < flevel || stalep'[flevel] != []) ensures Linked(stalep', l) {
      assert Linked(stalep, l);
      assert stalep'[l - 1] == stalep[l - 1];
    }
  }

  lemma WorkDrops(stalep: seq<seq<FPart>>, l: nat)
    requires |stalep| == LEVELS && l < LEVELS && stalep[l] != []
    ensures QueueWork(WithoutHigh(stalep, l)) == QueueWork(stalep) - Weight(l)
  {
  }

  /** The partition worked on at level l is now p, with the digest it was fetched for: levels above stay on target. */
  lemma FinishedOnTarget<B(!new)>(h: Hasher<B>, m: nat, t: Tree, stalep: seq<seq<FPart>>, nb: nat, lc: Seqno,
                                  f: nat, p: Part, l: nat)
    requires FetchTree(t, nb, m) && nb <= CHILDREN * CHILDREN * CHILDREN && l < f < LEVELS
    requires Discipline(stalep, f, nb, m, lc) && p.d == High(stalep[f]).d
    requires OnTarget(h, m, t, stalep, nb, lc, l)
    ensures High(stalep[f]).index < |t.parts[f]| && Parent(High(stalep[f]).index) < |t.sums[f - 1]|
    ensures var t' := PutPart(m, t, f, High(stalep[f]).index, p);
            var stalep' := WithoutHigh(stalep, f);
            && FetchTree(t', nb, m)
            && (forall k :: 0 <= k < LEVELS ==> QueueOK(stalep'[k], nb, m, k, lc))
            && stalep'[l] != [] && OnTarget(h, m, t', stalep', nb, lc, l)
  {
    hide SumsOK, AddDigest, SubDigest, Replaced, FullWidth, EntryOK;
    EntryFacts(stalep, f, nb, m, lc);
    PutPartOK(t, nb, m, f, High(stalep[f]).index, p);
    DropHigh(stalep, f, nb, m, lc);
    if l == f - 1 {
      assert Linked(stalep, f);
      QueueInTree(t, nb, m, stalep[f], f, lc);
      ParentInFull(nb, f, High(stalep[f]).index);
      TargetStays(m, t.parts[f], t.sums[l][High(stalep[l]).index], stalep[f], p);
    }
  }

  lemma EntryFacts(stalep: seq<seq<FPart>>, l: nat, nb: nat, m: nat, lc: Seqno)
    requires |stalep| == LEVELS && l < LEVELS && stalep[l] != [] && QueueOK(stalep[l], nb, m, l, lc)
    ensures var e := High(stalep[l]); e.index < FullWidth(nb, l) && e.d < m && (e.c == -1 || (e.c >= lc && e.c >= 0))
  {
    assert EntryOK(stalep[l][|stalep[l]| - 1], nb, m, l, lc);
  }

  lemma EntryFactsIn(stalep: seq<seq<FPart>>, l: nat, nb: nat, m: nat, lc: Seqno)
    requires Discipline(stalep, l, nb, m, lc)
    ensures |stalep| == LEVELS && stalep[l] != []
    ensures var e := High(stalep[l]); e.index < FullWidth(nb, l) && e.d < m && (e.c == -1 || (e.c >= lc && e.c >= 0))
  {
    hide FullWidth, EntryOK;
    EntryFacts(stalep, l, nb, m, lc);
  }

  lemma QueueInTree(t: Tree, nb: nat, m: nat, q: seq<FPart>, l: nat, lc: Seqno)
    requires FetchTree(t, nb, m) && l < LEVELS && QueueOK(q, nb, m, l, lc)
    ensures forall k :: 0 <= k < |q| ==> q[k].index < |t.parts[l]| && q[k].d < m
    ensures forall j, k :: 0 <= j < k < |q| ==> q[j].index != q[k].index
  {
    forall k | 0 <= k < |q| ensures q[k].index < |t.parts[l]| && q[k].d < m {
      assert EntryOK(q[k], nb, m, l, lc);
    }
  }

  /** ... and everything not worked on is fresh; mem' has a new block if the partition is a leaf. */
  lemma FinishedIsFresh<B(!new)>(h: Hasher<B>, m: nat, mem: seq<B>, mem': seq<B>, t: Tree, stalep: seq<seq<FPart>>,
                                 lc: Seqno, f: nat, p: Part, loose: set<(nat, nat)>)
    requires FetchTree(t, |mem|, m) && |mem| <= CHILDREN * CHILDREN * CHILDREN && |mem'| == |mem|
    requires Discipline(stalep, f, |mem|, m, lc) && p.d == High(stalep[f]).d
    requires FreshBelow(h, m, mem, t, stalep, f, loose)
    requires if f == LEAF then High(stalep[f]).index < |mem| && mem' == mem[High(stalep[f]).index := mem'[High(stalep[f]).index]]
                               && p.d == h.block(mem'[High(stalep[f]).index], High(stalep[f]).index, p.lm)
             else mem' == mem && High(stalep[f]).index < |t.sums[f]|
                  && p.d == h.sum(t.sums[f][High(stalep[f]).index], High(stalep[f]).index, p.lm)
    ensures High(stalep[f]).index < |t.parts[f]| && (f > 0 ==> Parent(High(stalep[f]).index) < |t.sums[f - 1]|)
    ensures var t' := PutPart(m, t, f, High(stalep[f]).index, p);
            FetchTree(t', |mem|, m) && FreshAround(h, m, mem', t', WithoutHigh(stalep, f), f, loose)
  {
    hide SumsOK, AddDigest, SubDigest, EntryOK, QueueOK;
    var e, stalep' := High(stalep[f]), WithoutHigh(stalep, f);
    EntryFacts(stalep, f, |mem|, m, lc);
    PutPartOK(t, |mem|, m, f, e.index, p);
    var t' := PutPart(m, t, f, e.index, p);
    if f > 0 {
      assert Linked(stalep, f);
      assert Parent(e.index) == High(stalep[f - 1]).index;
    }
    forall l, i | 0 <= l < LEVELS && 0 <= i < |t'.parts[l]|
      ensures IsFresh(h, mem', t', l, i) || (l, i) in loose || WorkedOn(stalep', f, l, i)
    {
      FreshStill(h, m, mem, mem', t, stalep, f, p, loose, l, i);
    }
  }

  /** Every partition is fresh, but for the ones being worked on, at level f too, and those in loose. */
  ghost predicate FreshBelow<B(!new)>(h: Hasher<B>, m: nat, mem: seq<B>, t: Tree, stalep: seq<seq<FPart>>, f: nat,
                                      loose: set<(nat, nat)>)
    requires FetchTree(t, |mem|, m) && |stalep| == LEVELS && f < LEVELS
  {
    forall l, i :: 0 <= l < LEVELS && 0 <= i < |t.parts[l]| ==>
      IsFresh(h, mem, t, l, i) || (l, i) in loose || WorkedOn(stalep, f, l, i)
      || (l == f && stalep[f] != [] && i == High(stalep[f]).index)
  }

  lemma FreshStill<B(!new)>(h: Hasher<B>, m: nat, mem: seq<B>, mem': seq<B>, t: Tree, stalep: seq<seq<FPart>>,
                            f: nat, p: Part, loose: set<(nat, nat)>, l: nat, i: nat)
    requires FetchTree(t, |mem|, m) && |mem'| == |mem| && |stalep| == LEVELS && f < LEVELS && stalep[f] != []
    requires FreshBelow(h, m, mem, t, stalep, f, loose) && p.d < m
    requires var e := High(stalep[f]);
             && e.index < |t.parts[f]|
             && (f > 0 ==> Parent(e.index) < |t.sums[f - 1]| && stalep[f - 1] != [] && Parent(e.index) == High(stalep[f - 1]).index)
             && (if f == LEAF then mem' == mem[e.index := mem'[e.index]] && p.d == h.block(mem'[e.index], e.index, p.lm)
                 else mem' == mem && e.index < |t.sums[f]| && p.d == h.sum(t.sums[f][e.index], e.index, p.lm))
    requires FetchTree(PutPart(m, t, f, High(stalep[f]).index, p), |mem|, m)
    requires l < LEVELS && i < |t.parts[l]|
    ensures IsFresh(h, mem', PutPart(m, t, f, High(stalep[f]).index, p), l, i) || (l, i) in loose
            || WorkedOn(WithoutHigh(stalep, f), f, l, i)
  {
    hide SumsOK, PutPart, Small, SmallSums;
    var e := High(stalep[f]);
    PutPartRows(m, t, f, e.index, p);
    if l == f && i != e.index && f == LEAF {
      assert mem'[i] == mem[i];
    }
  }

  /** What PutPart changes: the partition and its parent's sum. */
  lemma PutPartRows(m: nat, t: Tree, f: nat, i: nat, p: Part)
    requires |t.parts| == LEVELS && |t.sums| == LEAF && f < LEVELS && i < |t.parts[f]| && Small(t.parts[f], m) && p.d < m
    requires f > 0 ==> Parent(i) < |t.sums[f - 1]| && SmallSums(t.sums[f - 1], m)
    ensures var t' := PutPart(m, t, f, i, p);
            && |t'.parts| == LEVELS && |t'.sums| == LEAF
            && (forall l :: 0 <= l < LEVELS && l != f ==> t'.parts[l] == t.parts[l])
            && t'.parts[f] == t.parts[f][i := p]
            && (forall l :: 0 <= l < LEAF && l != f - 1 ==> t'.sums[l] == t.sums[l])
            && (f > 0 ==> |t'.sums[f - 1]| == |t.sums[f - 1]|
                          && t'.sums[f - 1] == t.sums[f - 1][Parent(i) := t'.sums[f - 1][Parent(i)]])
  {
    hide AddDigest, SubDigest;
  }

  /** An entry with the digest that its partition has already may go: nothing moves. */
  lemma UpToDateStays(m: nat, parts: seq<Part>, sum: nat, q: seq<FPart>)
    requires q != [] && sum < m && Small(parts, m)
    requires forall k :: 0 <= k < |q| ==> q[k].index < |parts| && q[k].d < m
    requires High(q).d == parts[High(q).index].d
    ensures Replaced(m, parts, sum, q[..|q| - 1]) == Replaced(m, parts, sum, q)
  {
    SubUndoesAdd(m, Replaced(m, parts, sum, q[..|q| - 1]), High(q).d);
  }

  /** Only indices and digests of the entries matter. */
  lemma {:induction false} ReplacedIgnores(m: nat, parts: seq<Part>, sum: nat, q: seq<FPart>, q': seq<FPart>)
    requires sum < m && Small(parts, m) && |q| == |q'|
    requires forall k :: 0 <= k < |q| ==> q[k].index < |parts| && q[k].d < m
    requires forall k :: 0 <= k < |q| ==> q'[k].index == q[k].index && q'[k].d == q[k].d
    ensures Replaced(m, parts, sum, q') == Replaced(m, parts, sum, q)
  {
    hide AddDigest, SubDigest;
    if q != [] {
      ReplacedIgnores(m, parts, sum, q[..|q| - 1], q'[..|q| - 1]);
    }
  }

  function SetHigh(stalep: seq<seq<FPart>>, l: nat, e: FPart): seq<seq<FPart>>
    requires |stalep| == LEVELS && l < LEVELS && stalep[l] != []
  {
    stalep[l := stalep[l][|stalep[l]| - 1 := e]]
  }

  /** The partition worked on at level l may get another checkpoint, digest or sequence number. */
  lemma SetHighOK(stalep: seq<seq<FPart>>, f: nat, nb: nat, m: nat, lc: Seqno, l: nat, e: FPart)
    requires Discipline(stalep, f, nb, m, lc) && l <= f
    requires e.index == High(stalep[l]).index && e.d < m && (e.c == -1 || (e.c >= lc && e.c >= 0)) && (l < f ==> e.c >= 0)
    ensures Discipline(SetHigh(stalep, l, e), f, nb, m, lc)
    ensures QueueWork(SetHigh(stalep, l, e)) == QueueWork(stalep)
  {
    hide FullWidth;
    var stalep' := SetHigh(stalep, l, e);
    EntryFacts(stalep, l, nb, m, lc);
    forall k | 0 <= k < LEVELS
      ensures (stalep'[k] != [] <==> k <= f) && QueueOK(stalep'[k], nb, m, k, lc)
    {
      if k == l {
        assert QueueOK(stalep[l], nb, m, l, lc);
        forall j | 0 <= j < |stalep'[l]| ensures EntryOK(stalep'[l][j], nb, m, l, lc) {
          assert EntryOK(stalep[l][j], nb, m, l, lc);
        }
      } else {
        assert stalep'[k] == stalep[k] && QueueOK(stalep[k], nb, m, k, lc);
      }
    }
    forall k | 0 < k <= f ensures Linked(stalep', k) {
      assert Linked(stalep, k);
    }
  }

  /** All children of the partition worked on at level l being done, so is the partition itself. */
  lemma ChildrenDone<B(!new)>(h: Hasher<B>, m: nat, mem: seq<B>, t: Tree, stalep: seq<seq<FPart>>, lc: Seqno,
                              l: nat, loose: set<(nat, nat)>)
    requires FetchTree(t, |mem|, m) && |mem| <= CHILDREN * CHILDREN * CHILDREN && l < LEAF
    requires Discipline(stalep, l, |mem|, m, lc)
    requires ExactUpTo(h, m, mem, t, stalep, l + 1, lc, loose)
    ensures High(stalep[l]).index < |t.parts[l]| && High(stalep[l]).d < m
    ensures l > 0 ==> Parent(High(stalep[l]).index) < |t.sums[l - 1]|
    ensures var e := High(stalep[l]);
            var t', stalep' := PutPart(m, t, l, e.index, Part(e.lm, e.d)), WithoutHigh(stalep, l);
            && FetchTree(t', |mem|, m)
            && (forall k :: 0 <= k < LEVELS ==> QueueOK(stalep'[k], |mem|, m, k, lc))
            && ExactUpTo(h, m, mem, t', stalep', l, lc, loose)
  {
    hide SumsOK, AddDigest, SubDigest, FullWidth, EntryOK, QueueOK, FreshAround, FreshBelow;
    var e := High(stalep[l]);
    EntryFacts(stalep, l, |mem|, m, lc);
    PutPartOK(t, |mem|, m, l, e.index, Part(e.lm, e.d));
    DropHigh(stalep, l, |mem|, m, lc);
    assert OnTarget(h, m, t, stalep, |mem|, lc, l);
    AroundIsBelow(h, m, mem, t, stalep, l, loose);
    FinishedIsFresh(h, m, mem, mem, t, stalep, lc, l, Part(e.lm, e.d), loose);
    forall k | 0 <= k < l
      ensures OnTarget(h, m, PutPart(m, t, l, e.index, Part(e.lm, e.d)), WithoutHigh(stalep, l), |mem|, lc, k)
    {
      assert OnTarget(h, m, t, stalep, |mem|, lc, k);
      FinishedOnTarget(h, m, t, stalep, |mem|, lc, l, Part(e.lm, e.d), k);
    }
  }

  lemma AroundIsBelow<B(!new)>(h: Hasher<B>, m: nat, mem: seq<B>, t: Tree, stalep: seq<seq<FPart>>, l: nat,
                               loose: set<(nat, nat)>)
    requires FetchTree(t, |mem|, m) && |stalep| == LEVELS && l < LEAF && FreshAround(h, m, mem, t, stalep, l + 1, loose)
    ensures FreshBelow(h, m, mem, t, stalep, l, loose)
  {
    hide IsFresh, FetchTree;
  }

  lemma PutPartDefined(t: Tree, nb: nat, m: nat, l: nat, i: nat)
    requires FetchTree(t, nb, m) && l < LEVELS && i < FullWidth(nb, l) && nb <= CHILDREN * CHILDREN * CHILDREN
    ensures |t.parts| == LEVELS && |t.sums| == LEAF && i < |t.parts[l]| && Small(t.parts[l], m)
    ensures l > 0 ==> Parent(i) < |t.sums[l - 1]| && SmallSums(t.sums[l - 1], m)
  {
    hide FullWidth, SumsOK;
    if l > 0 {
      ParentInFull(nb, l, i);
    }
  }

  /** A newer child makes its parent as new. */
  function Raised(stalep: seq<seq<FPart>>, l: nat, lm: Seqno): seq<seq<FPart>>
    requires |stalep| == LEVELS && l < LEVELS && (l > 0 ==> stalep[l - 1] != [])
  {
    if l > 0 && lm > High(stalep[l - 1]).lm then SetHigh(stalep, l - 1, High(stalep[l - 1]).(lm := lm)) else stalep
  }

  lemma RaisedOK(stalep: seq<seq<FPart>>, f: nat, nb: nat, m: nat, lc: Seqno, lm: Seqno)
    requires Discipline(stalep, f, nb, m, lc)
    ensures (f > 0 ==> stalep[f - 1] != []) && Discipline(Raised(stalep, f, lm), f, nb, m, lc)
    ensures Raised(stalep, f, lm)[f] == stalep[f] && QueueWork(Raised(stalep, f, lm)) == QueueWork(stalep)
  {
    hide FullWidth, QueueOK, QueueWork;
    if f > 0 {
      assert Linked(stalep, f);
      if lm > High(stalep[f - 1]).lm {
        EntryFacts(stalep, f - 1, nb, m, lc);
        SetHighOK(stalep, f, nb, m, lc, f - 1, High(stalep[f - 1]).(lm := lm));
      }
    }
  }

  /** Levels up to f have something queued. */
  predicate Queued(stalep: seq<seq<FPart>>, f: nat) {
    |stalep| == LEVELS && f < LEVELS && forall k :: 0 <= k <= f ==> stalep[k] != []
  }

  lemma AreQueued(stalep: seq<seq<FPart>>, f: nat, nb: nat, m: nat, lc: Seqno)
    requires Discipline(stalep, f, nb, m, lc)
    ensures Queued(stalep, f) && |stalep[0]| == 1
  {
    hide QueueOK, Linked;
  }

  /**
   * What finishing partitions comes to: the queues, the level that is worked on then, whether the root was finished,
   * whether a partition was inconsistent and is fetched again, and whether one was newer than the one above it.
   */
  datatype Aftermath = Aftermath(stalep: seq<seq<FPart>>, flevel: nat, done: bool, again: bool, newer: bool)

  /** The partition worked on at level f is finished, last modified at lm. */
  function Finish(stalep: seq<seq<FPart>>, f: nat, lm: Seqno): Aftermath
    requires Queued(stalep, f)
    decreases f, 0
  {
    var next := WithoutHigh(Raised(stalep, f, lm), f);
    if f == 0 then Aftermath(next, 0, true, false, false)
    else
      var newer := lm > High(stalep[f - 1]).lm;
      if next[f] != [] then Aftermath(next, f, false, false, newer)
      else var o := Climb(next, f - 1); o.(newer := newer || o.newer)
  }

  /** All children of the partition worked on at level f are done: it is finished unless it was modified after its checkpoint. */
  function Climb(stalep: seq<seq<FPart>>, f: nat): Aftermath
    requires Queued(stalep, f)
    decreases f, 1
  {
    var e := High(stalep[f]);
    if e.c < e.lm then Aftermath(SetHigh(stalep, f, e.(lu := e.c)), f, false, true, false)
    else Finish(stalep, f, e.lm)
  }

  lemma ClimbIs(stalep: seq<seq<FPart>>, f: nat)
    requires Queued(stalep, f)
    ensures var e := High(stalep[f]);
            Climb(stalep, f) == if e.c < e.lm then Aftermath(SetHigh(stalep, f, e.(lu := e.c)), f, false, true, false)
                                else Finish(stalep, f, e.lm)
  {
  }

  lemma FinishIs(stalep: seq<seq<FPart>>, f: nat, lm: Seqno)
    requires Queued(stalep, f)
    ensures var next := WithoutHigh(Raised(stalep, f, lm), f);
            && (f == 0 ==> Finish(stalep, f, lm) == Aftermath(next, 0, true, false, false))
            && (f > 0 && next[f] != [] ==>
                  Finish(stalep, f, lm) == Aftermath(next, f, false, false, lm > High(stalep[f - 1]).lm))
            && (f > 0 && next[f] == [] ==>
                  Queued(next, f - 1)
                  && var o := Climb(next, f - 1); Finish(stalep, f, lm) == o.(newer := lm > High(stalep[f - 1]).lm || o.newer))
  {
  }

  /** How much is left to fetch afterwards. */
  function Rest(o: Aftermath): int {
    if o.done || |o.stalep| != LEVELS || o.flevel >= LEVELS then 0 else Work(o.stalep, o.flevel)
  }

  /** Finishing a partition takes work off the queues, unless one is fetched again. */
  lemma {:induction false} FinishRest(stalep: seq<seq<FPart>>, f: nat, nb: nat, m: nat, lc: Seqno, lm: Seqno)
    requires Discipline(stalep, f, nb, m, lc)
    ensures Queued(stalep, f)
    ensures var o := Finish(stalep, f, lm); !o.again ==> Rest(o) + Weight(f) <= Work(stalep, f)
    decreases f, 0
  {
    hide Discipline, QueueWork, Raised, Finish, Climb, Weight;
    AreQueued(stalep, f, nb, m, lc);
    FinishQueues(stalep, f, nb, m, lc, lm);
    FinishIs(stalep, f, lm);
    var next := WithoutHigh(Raised(stalep, f, lm), f);
    if f > 0 && next[f] == [] {
      ClimbRest(next, f - 1, nb, m, lc);
    }
  }

  lemma {:induction false} ClimbRest(stalep: seq<seq<FPart>>, f: nat, nb: nat, m: nat, lc: Seqno)
    requires Discipline(stalep, f, nb, m, lc) && f < LEAF
    ensures Queued(stalep, f)
    ensures var o := Climb(stalep, f); !o.again ==> Rest(o) < Work(stalep, f + 1)
    decreases f, 1
  {
    hide Discipline, QueueWork, SetHigh, Finish, Climb;
    AreQueued(stalep, f, nb, m, lc);
    ClimbIs(stalep, f);
    assert Expanded(f + 1) == Expanded(f) + Weight(f) - 1;
    FinishRest(stalep, f, nb, m, lc, High(stalep[f]).lm);
  }

  lemma RootRow(t: Tree, nb: nat, m: nat)
    requires FetchTree(t, nb, m)
    ensures |t.parts| == LEVELS && |t.parts[0]| == 1
  {
  }

  /** The queues after the partition worked on at level l is finished. */
  lemma FinishQueues(stalep: seq<seq<FPart>>, l: nat, nb: nat, m: nat, lc: Seqno, lm: Seqno)
    requires Discipline(stalep, l, nb, m, lc)
    ensures (l > 0 ==> stalep[l - 1] != []) && |Raised(stalep, l, lm)| == LEVELS && Raised(stalep, l, lm)[l] == stalep[l]
    ensures var q := WithoutHigh(Raised(stalep, l, lm), l);
            && (forall k :: 0 <= k < LEVELS ==> QueueOK(q[k], nb, m, k, lc))
            && (q[l] != [] ==> Discipline(q, l, nb, m, lc))
            && (q[l] == [] && l > 0 ==> Discipline(q, l - 1, nb, m, lc) && High(q[l - 1]).c >= 0)
            && QueueWork(q) == QueueWork(stalep) - Weight(l)
            && (l == 0 ==> q == stalep[0 := []])
            && (l > 0 ==> |q[0]| == 1 && High(q[0]).c == High(stalep[0]).c && High(q[0]).d == High(stalep[0]).d)
            && forall k :: 0 <= k < l ==> q[k] != []
  {
    hide FullWidth, QueueOK, QueueWork, EntryOK;
    RaisedOK(stalep, l, nb, m, lc, lm);
    DropHigh(Raised(stalep, l, lm), l, nb, m, lc);
    WorkDrops(Raised(stalep, l, lm), l);
    if l > 0 {
      assert stalep[0] != [];
    }
  }

  // ------------------------------------------------------------------
  // Meta-data
  // ------------------------------------------------------------------

  /** How many children partition i may have among w. */
  function ChildCount(w: nat, i: nat): (n: nat)
    ensures n <= CHILDREN && (n > 0 ==> i * CHILDREN + n <= w)
  {
    if i * CHILDREN >= w then 0 else if (i + 1) * CHILDREN <= w then CHILDREN else w - i * CHILDREN
  }

  /** check_digest: the sum with the digests that the first n children are said to have; null says nothing. */
  function CheckSum(m: nat, parts: seq<Part>, base: nat, subs: seq<nat>, n: nat, sum: nat): (r: nat)
    requires sum < m && Small(parts, m) && n <= |subs| && forall k :: 0 <= k < |subs| ==> subs[k] < m
    requires n > 0 ==> base + n <= |parts|
    ensures r < m
  {
    if n == 0 then sum
    else
      var s := CheckSum(m, parts, base, subs, n - 1, sum);
      if subs[n - 1] == 0 then s
      else AddDigest(m, SubDigest(m, s, parts[base + n - 1].d), subs[n - 1])
  }

  /** The entries for those of the first n children that are out of date. */
  function ChildQueue(parts: seq<Part>, base: nat, subs: seq<nat>, n: nat, lu: Seqno, c: Seqno): (q: seq<FPart>)
    requires n <= |subs| && (n > 0 ==> base + n <= |parts|)
    ensures |q| <= n
    ensures forall k :: 0 <= k < |q| ==>
      base <= q[k].index < base + n <= |parts| && q[k].c == c && q[k].d == subs[q[k].index - base] && q[k].d != parts[q[k].index].d
    ensures forall j, k :: 0 <= j < k < |q| ==> q[j].index < q[k].index
  {
    if n == 0 then []
    else
      var q, i, d := ChildQueue(parts, base, subs, n - 1, lu, c), base + n - 1, subs[n - 1];
      if d == 0 || parts[i].d == d then q else q + [FPart(i, lu, parts[i].lm, c, d)]
  }

  /** Every child that is said to be different is queued. */
  lemma {:induction false} QueuesAll(parts: seq<Part>, base: nat, subs: seq<nat>, n: nat, lu: Seqno, c: Seqno, k: nat)
    requires k < n <= |subs| && base + n <= |parts| && subs[k] != 0 && subs[k] != parts[base + k].d
    ensures exists j :: 0 <= j < |ChildQueue(parts, base, subs, n, lu, c)|
              && ChildQueue(parts, base, subs, n, lu, c)[j] == FPart(base + k, lu, parts[base + k].lm, c, subs[k])
    decreases n
  {
    var q := ChildQueue(parts, base, subs, n, lu, c);
    if k == n - 1 {
      assert q[|q| - 1] == FPart(base + k, lu, parts[base + k].lm, c, subs[k]);
    } else {
      QueuesAll(parts, base, subs, n - 1, lu, c, k);
      var before := ChildQueue(parts, base, subs, n - 1, lu, c);
      var j :| 0 <= j < |before| && before[j] == FPart(base + k, lu, parts[base + k].lm, c, subs[k]);
      assert q[j] == before[j];
    }
  }

  /** The sum that the check computes is the one that fetching the queue aims at. */
  lemma {:induction false} CheckedIsReplaced(m: nat, parts: seq<Part>, base: nat, subs: seq<nat>, n: nat, sum: nat, lu: Seqno, c: Seqno)
    requires sum < m && Small(parts, m) && n <= |subs| && forall k :: 0 <= k < |subs| ==> subs[k] < m
    requires n > 0 ==> base + n <= |parts|
    ensures Replaced(m, parts, sum, ChildQueue(parts, base, subs, n, lu, c)) == CheckSum(m, parts, base, subs, n, sum)
  {
    hide AddDigest, SubDigest, Replaced;
    if n == 0 {
      ReplacedNone(m, parts, sum);
    } else {
      CheckedIsReplaced(m, parts, base, subs, n - 1, sum, lu, c);
      var q, i, d := ChildQueue(parts, base, subs, n - 1, lu, c), base + n - 1, subs[n - 1];
      if d != 0 && parts[i].d == d {
        SubUndoesAdd(m, CheckSum(m, parts, base, subs, n - 1, sum), d);
      } else if d != 0 {
        ReplacedAppend(m, parts, sum, q, FPart(i, lu, parts[i].lm, c, d));
      }
    }
  }

  lemma ReplacedNone(m: nat, parts: seq<Part>, sum: nat)
    requires sum < m && Small(parts, m)
    ensures Replaced(m, parts, sum, []) == sum
  {
  }

  lemma ReplacedAppend(m: nat, parts: seq<Part>, sum: nat, q: seq<FPart>, e: FPart)
    requires sum < m && Small(parts, m) && e.index < |parts| && e.d < m
    requires forall k :: 0 <= k < |q| ==> q[k].index < |parts| && q[k].d < m
    ensures Replaced(m, parts, sum, q + [e]) == AddDigest(m, SubDigest(m, Replaced(m, parts, sum, q), parts[e.index].d), e.d)
  {
    assert (q + [e])[..|q|] == q;
  }

  lemma ChildQueueOK(parts: seq<Part>, i: nat, subs: seq<nat>, n: nat, lu: Seqno, c: Seqno, nb: nat, m: nat, l: nat, lc: Seqno)
    requires n <= |subs| && n <= CHILDREN && (n > 0 ==> i * CHILDREN + n <= |parts|) && l < LEVELS && |parts| == FullWidth(nb, l)
    requires (forall k :: 0 <= k < |subs| ==> subs[k] < m) && c >= lc && c >= 0
    ensures QueueOK(ChildQueue(parts, i * CHILDREN, subs, n, lu, c), nb, m, l, lc)
    ensures ChildrenOf(ChildQueue(parts, i * CHILDREN, subs, n, lu, c), i)
  {
    hide FullWidth;
    var q := ChildQueue(parts, i * CHILDREN, subs, n, lu, c);
    forall k | 0 <= k < |q| ensures EntryOK(q[k], nb, m, l, lc) && Parent(q[k].index) == i {
    }
  }

  /** The partition worked on gets its meta-data: lm and the queue of its children. */
  function Expand(stalep: seq<seq<FPart>>, f: nat, lm: Seqno, q: seq<FPart>): seq<seq<FPart>>
    requires |stalep| == LEVELS && f < LEAF && stalep[f] != []
  {
    SetHigh(stalep, f, High(stalep[f]).(lm := lm))[f + 1 := q]
  }

  lemma ExpandOK(stalep: seq<seq<FPart>>, f: nat, nb: nat, m: nat, lc: Seqno, lm: Seqno, q: seq<FPart>)
    requires Discipline(stalep, f, nb, m, lc) && f < LEAF && High(stalep[f]).c >= 0
    requires QueueOK(q, nb, m, f + 1, lc) && ChildrenOf(q, High(stalep[f]).index) && |q| <= CHILDREN
    ensures var stalep' := Expand(stalep, f, lm, q);
            && |stalep'| == LEVELS && stalep'[f + 1] == q
            && (forall k :: 0 <= k < LEVELS ==> QueueOK(stalep'[k], nb, m, k, lc))
            && (forall k :: 0 <= k < LEVELS ==> (stalep'[k] != [] <==> k <= f || (k == f + 1 && q != [])))
            && (if q != [] then Discipline(stalep', f + 1, nb, m, lc)
                else Discipline(stalep', f, nb, m, lc) && High(stalep'[f]).c >= 0)
            && Work(stalep', f + 1) < Work(stalep, f)
            && High(stalep'[0]).c == High(stalep[0]).c && High(stalep'[0]).d == High(stalep[0]).d
  {
    hide FullWidth, EntryOK, QueueOK, QueueWork, SetHigh;
    var e := High(stalep[f]).(lm := lm);
    var set1 := SetHigh(stalep, f, e);
    EntryFactsIn(stalep, f, nb, m, lc);
    SetHighOK(stalep, f, nb, m, lc, f, e);
    SetHighIs(stalep, f, e);
    var stalep' := set1[f + 1 := q];
    ExpandWork(set1, f, q);
    forall k | 0 < k <= f || (k == f + 1 && q != []) ensures Linked(stalep', k) {
      if k <= f {
        assert Linked(set1, k);
      }
    }
    if q == [] {
      assert stalep' == set1;
    }
  }

  lemma SetHighIs(stalep: seq<seq<FPart>>, l: nat, e: FPart)
    requires |stalep| == LEVELS && l < LEVELS && stalep[l] != []
    ensures var s := SetHigh(stalep, l, e);
            && |s| == LEVELS && |s[l]| == |stalep[l]| && High(s[l]) == e
            && (forall k :: 0 <= k < LEVELS && k != l ==> s[k] == stalep[k])
            && forall k :: 0 <= k < |stalep[l]| - 1 ==> s[l][k] == stalep[l][k]
  {
  }

  lemma ExpandWork(stalep: seq<seq<FPart>>, f: nat, q: seq<FPart>)
    requires |stalep| == LEVELS && f < LEAF && stalep[f + 1] == [] && |q| <= CHILDREN
    ensures Work(stalep[f + 1 := q], f + 1) < Work(stalep, f)
  {
    assert Expanded(f + 1) == Expanded(f) + Weight(f) - 1;
  }

  /** Meta-data that passes the check puts the partition on target. */
  lemma ExpandExact<B(!new)>(h: Hasher<B>, m: nat, mem: seq<B>, t: Tree, stalep: seq<seq<FPart>>, f: nat, lc: Seqno,
                             loose: set<(nat, nat)>, lm: Seqno, q: seq<FPart>)
    requires FetchTree(t, |mem|, m) && f < LEAF && Discipline(stalep, f, |mem|, m, lc) && High(stalep[f]).c >= 0
    requires ExactUpTo(h, m, mem, t, stalep, f, lc, loose)
    requires QueueOK(q, |mem|, m, f + 1, lc) && ChildrenOf(q, High(stalep[f]).index) && |q| <= CHILDREN
    requires forall k :: 0 <= k < |q| ==> q[k].index < |t.parts[f + 1]| && q[k].d < m
    requires High(stalep[f]).index < |t.sums[f]|
    requires High(stalep[f]).d == h.sum(Replaced(m, t.parts[f + 1], t.sums[f][High(stalep[f]).index], q), High(stalep[f]).index, lm)
    ensures var stalep' := Expand(stalep, f, lm, q);
            && (forall k :: 0 <= k < LEVELS ==> QueueOK(stalep'[k], |mem|, m, k, lc))
            && (forall k :: 0 <= k < f + 1 ==> stalep'[k] != [])
            && ExactUpTo(h, m, mem, t, stalep', f + 1, lc, loose)
  {
    hide SumsOK, FullWidth, EntryOK, IsFresh, SetHigh;
    var e := High(stalep[f]).(lm := lm);
    ExpandOK(stalep, f, |mem|, m, lc, lm, q);
    SetHighIs(stalep, f, e);
    var stalep' := Expand(stalep, f, lm, q);
    forall k | 0 <= k < f + 1 ensures OnTarget(h, m, t, stalep', |mem|, lc, k) {
      if k < f {
        assert OnTarget(h, m, t, stalep, |mem|, lc, k);
        if k == f - 1 {
          QueueInTree(t, |mem|, m, stalep[f], f, lc);
          EntryFacts(stalep, k, |mem|, m, lc);
          ReplacedIgnores(m, t.parts[f], t.sums[k][High(stalep[k]).index], stalep[f], stalep'[f]);
        }
      }
    }
  }
}
