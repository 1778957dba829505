/**
 * When partitions were last modified, as a state transfer goes on: which of
 * them are newer than the partition they are part of.
 */
module FetchAges {
  import opened Types
  import opened DigestTree
  import opened FetchPlan

  ghost predicate IsQueued(q: seq<FPart>, i: nat) {
    exists k :: 0 <= k < |q| && q[k].index == i
  }

  /** An entry for partition i says that it was last modified before lm. */
  ghost predicate QueuedBefore(q: seq<FPart>, i: nat, lm: Seqno) {
    exists k :: 0 <= k < |q| && q[k].index == i && q[k].lm < lm
  }

  /**
   * Partition i of level l, which is not to be fetched, is newer than the one
   * it is part of: as its entry in the queue says while that is fetched, and
   * as the tree says otherwise.
   */
  ghost predicate IsNewer(t: Tree, stalep: seq<seq<FPart>>, l: nat, i: nat) {
    && |t.parts| == LEVELS && |stalep| == LEVELS && 0 < l < LEVELS
    && i < |t.parts[l]| && Parent(i) < |t.parts[l - 1]| && !IsQueued(stalep[l], i)
    && (|| QueuedBefore(stalep[l - 1], Parent(i), t.parts[l][i].lm)
        || (!IsQueued(stalep[l - 1], Parent(i)) && t.parts[l - 1][Parent(i)].lm < t.parts[l][i].lm))
  }

  /** The partitions that are newer than the one they are part of. */
  ghost function Newer(t: Tree, stalep: seq<seq<FPart>>): iset<(nat, nat)> {
    iset p: (nat, nat) | IsNewer(t, stalep, p.0, p.1)
  }

  /** The children of partition i of level l that are newer than lm and not in q. */
  ghost function LeftNewer(t: Tree, l: nat, i: nat, lm: Seqno, q: seq<FPart>): iset<(nat, nat)> {
    iset p: (nat, nat) | p.0 == l + 1 < LEVELS && |t.parts| == LEVELS && p.1 < |t.parts[l + 1]| && Parent(p.1) == i
                         && !IsQueued(q, p.1) && lm < t.parts[l + 1][p.1].lm
  }

  /** What is newer once partition i of level l is found to be up to date: itself, and its children. */
  ghost function FoundNewer(t: Tree, stalep: seq<seq<FPart>>, l: nat, i: nat): iset<(nat, nat)> {
    iset p: (nat, nat) |
      && |t.parts| == LEVELS && |stalep| == LEVELS && l < LEVELS && i < |t.parts[l]|
      && (|| (l > 0 && p == (l, i) && QueuedBefore(stalep[l - 1], Parent(i), t.parts[l][i].lm))
          || (l < LEAF && p.0 == l + 1 && p.1 < |t.parts[l + 1]| && Parent(p.1) == i && t.parts[l][i].lm < t.parts[l + 1][p.1].lm))
  }

  // ------------------------------------------------------------------
  // Queues that change
  // ------------------------------------------------------------------

  lemma WithoutLast(q: seq<FPart>, i: nat)
    requires q != []
    ensures IsQueued(q, i) <==> IsQueued(q[..|q| - 1], i) || High(q).index == i
    ensures forall lm :: QueuedBefore(q, i, lm) <==>
              QueuedBefore(q[..|q| - 1], i, lm) || (High(q).index == i && High(q).lm < lm)
  {
    var rest := q[..|q| - 1];
    if IsQueued(rest, i) {
      var k :| 0 <= k < |rest| && rest[k].index == i;
      assert q[k].index == i;
    }
    if IsQueued(q, i) && High(q).index != i {
      var k :| 0 <= k < |q| && q[k].index == i;
      assert rest[k].index == i;
    }
    forall lm ensures QueuedBefore(q, i, lm) <==> QueuedBefore(rest, i, lm) || (High(q).index == i && High(q).lm < lm) {
      if QueuedBefore(rest, i, lm) {
        var k :| 0 <= k < |rest| && rest[k].index == i && rest[k].lm < lm;
        assert q[k].index == i && q[k].lm < lm;
      }
      if QueuedBefore(q, i, lm) && !(High(q).index == i && High(q).lm < lm) {
        var k :| 0 <= k < |q| && q[k].index == i && q[k].lm < lm;
        assert rest[k].index == i && rest[k].lm < lm;
      }
      if High(q).index == i && High(q).lm < lm {
        assert q[|q| - 1].index == i && q[|q| - 1].lm < lm;
      }
    }
  }

  /** The last entry is not in the rest of the queue. */
  lemma LastOnce(q: seq<FPart>, nb: nat, m: nat, l: nat, lc: Seqno)
    requires l < LEVELS && q != [] && QueueOK(q, nb, m, l, lc)
    ensures !IsQueued(q[..|q| - 1], High(q).index)
  {
  }

  /** Another last entry for the same partition, as old or newer. */
  lemma ReplacedLast(q: seq<FPart>, e: FPart, i: nat)
    requires q != [] && e.index == High(q).index
    ensures var q' := q[|q| - 1 := e];
            && (IsQueued(q', i) <==> IsQueued(q, i))
            && (e.lm >= High(q).lm ==> forall lm :: QueuedBefore(q', i, lm) ==> QueuedBefore(q, i, lm))
            && (e.index != i || e.lm == High(q).lm ==> forall lm :: QueuedBefore(q', i, lm) <==> QueuedBefore(q, i, lm))
  {
    var q' := q[|q| - 1 := e];
    assert q'[..|q| - 1] == q[..|q| - 1];
    WithoutLast(q, i);
    WithoutLast(q', i);
  }

  // ------------------------------------------------------------------
  // Steps of a fetch
  // ------------------------------------------------------------------

  /**
   * A partition is finished: whatever it was, it is not newer than the one it
   * is part of, and none that was not newer becomes so.
   */
  lemma FinishAges(t: Tree, stalep: seq<seq<FPart>>, l: nat, nb: nat, m: nat, lc: Seqno, p: Part)
    requires Discipline(stalep, l, nb, m, lc) && FetchTree(t, nb, m) && nb <= CHILDREN * CHILDREN * CHILDREN && p.d < m
    requires l == LEAF || p.lm == High(stalep[l]).lm
    ensures l > 0 ==> stalep[l - 1] != []
    ensures High(stalep[l]).index < |t.parts[l]| && (l > 0 ==> Parent(High(stalep[l]).index) < |t.sums[l - 1]|)
    ensures var i := High(stalep[l]).index;
            Newer(PutPart(m, t, l, i, p), WithoutHigh(Raised(stalep, l, p.lm), l)) <= Newer(t, stalep) - iset{(l, i)}
  {
    hide FetchTree, FullWidth, PutPart, QueueOK, EntryOK, IsQueued, QueuedBefore, Discipline, LastGone, LastRaised, IsNewer;
    EntryFactsIn(stalep, l, nb, m, lc);
    QueuesOf(stalep, l, nb, m, lc);
    var i := High(stalep[l]).index;
    PutPartDefined(t, nb, m, l, i);
    PutPartRows(m, t, l, i, p);
    LastIsGone(stalep[l], nb, m, l, lc);
    if l > 0 {
      LastIsRaised(stalep[l - 1], nb, m, l - 1, lc, p.lm);
    }
    var t', next := PutPart(m, t, l, i, p), WithoutHigh(Raised(stalep, l, p.lm), l);
    forall a: nat, b: nat | IsNewer(t', next, a, b) ensures IsNewer(t, stalep, a, b) && (a, b) != (l, i) {
      FinishedNotNewer(t, t', stalep, next, l, i, p, a, b);
    }
  }

  lemma QueuesOf(stalep: seq<seq<FPart>>, l: nat, nb: nat, m: nat, lc: Seqno)
    requires Discipline(stalep, l, nb, m, lc)
    ensures |stalep| == LEVELS && l < LEVELS && stalep[l] != [] && QueueOK(stalep[l], nb, m, l, lc)
    ensures l > 0 ==> stalep[l - 1] != [] && QueueOK(stalep[l - 1], nb, m, l - 1, lc)
                      && Parent(High(stalep[l]).index) == High(stalep[l - 1]).index
    ensures forall k :: l < k < LEVELS ==> stalep[k] == []
  {
    hide QueueOK;
    if l > 0 {
      assert Linked(stalep, l);
      assert Parent(stalep[l][|stalep[l]| - 1].index) == High(stalep[l - 1]).index;
    }
  }

  /** How the queue of a level changes when its last entry, which is for partition i, is finished. */
  ghost predicate LastGone(q: seq<FPart>, q': seq<FPart>, i: nat, lm: Seqno) {
    && IsQueued(q, i) && !IsQueued(q', i) && (forall x :: lm < x ==> QueuedBefore(q, i, x))
    && forall j: nat :: j != i ==>
         (IsQueued(q', j) <==> IsQueued(q, j)) && forall x :: QueuedBefore(q', j, x) <==> QueuedBefore(q, j, x)
  }

  /** How the queue changes in which the partition that it is part of, i, is worked on. */
  ghost predicate LastRaised(q: seq<FPart>, q': seq<FPart>, i: nat, lm: Seqno) {
    && IsQueued(q', i) && !QueuedBefore(q', i, lm)
    && forall j: nat :: (IsQueued(q', j) <==> IsQueued(q, j)) && forall x :: QueuedBefore(q', j, x) ==> QueuedBefore(q, j, x)
  }

  lemma LastIsGone(q: seq<FPart>, nb: nat, m: nat, l: nat, lc: Seqno)
    requires l < LEVELS && q != [] && QueueOK(q, nb, m, l, lc)
    ensures LastGone(q, q[..|q| - 1], High(q).index, High(q).lm)
  {
    hide IsQueued, QueuedBefore, QueueOK;
    LastOnce(q, nb, m, l, lc);
    WithoutLast(q, High(q).index);
    forall j: nat | j != High(q).index
      ensures IsQueued(q[..|q| - 1], j) <==> IsQueued(q, j)
      ensures forall x :: QueuedBefore(q[..|q| - 1], j, x) <==> QueuedBefore(q, j, x)
    {
      WithoutLast(q, j);
    }
  }

  lemma BeforeIsQueued(q: seq<FPart>, i: nat, lm: Seqno)
    requires QueuedBefore(q, i, lm)
    ensures IsQueued(q, i)
  {
  }

  lemma LastIsRaised(q: seq<FPart>, nb: nat, m: nat, l: nat, lc: Seqno, lm: Seqno)
    requires l < LEVELS && q != [] && QueueOK(q, nb, m, l, lc)
    ensures LastRaised(q, if lm > High(q).lm then q[|q| - 1 := High(q).(lm := lm)] else q, High(q).index, lm)
  {
    hide IsQueued, QueuedBefore, QueueOK;
    var q' := if lm > High(q).lm then q[|q| - 1 := High(q).(lm := lm)] else q;
    assert q'[..|q'| - 1] == q[..|q| - 1];
    LastOnce(q, nb, m, l, lc);
    WithoutLast(q', High(q).index);
    if QueuedBefore(q[..|q| - 1], High(q).index, lm) {
      BeforeIsQueued(q[..|q| - 1], High(q).index, lm);
    }
    forall j: nat ensures (IsQueued(q', j) <==> IsQueued(q, j)) && forall x :: QueuedBefore(q', j, x) ==> QueuedBefore(q, j, x) {
      if lm > High(q).lm {
        ReplacedLast(q, High(q).(lm := lm), j);
      }
    }
  }

  lemma FinishedNotNewer(t: Tree, t': Tree, stalep: seq<seq<FPart>>, next: seq<seq<FPart>>, l: nat, i: nat, p: Part,
                         a: nat, b: nat)
    requires |stalep| == LEVELS && |next| == LEVELS && l < LEVELS && stalep[l] != [] && i == High(stalep[l]).index
    requires |t.parts| == LEVELS && |t'.parts| == LEVELS && i < |t.parts[l]| && t'.parts[l] == t.parts[l][i := p]
    requires forall k :: 0 <= k < LEVELS && k != l ==> t'.parts[k] == t.parts[k]
    requires l == LEAF || p.lm == High(stalep[l]).lm
    requires forall k :: 0 <= k < LEVELS && k != l && k + 1 != l ==> next[k] == stalep[k]
    requires LastGone(stalep[l], next[l], i, High(stalep[l]).lm)
    requires l > 0 ==> LastRaised(stalep[l - 1], next[l - 1], Parent(i), p.lm)
    requires IsNewer(t', next, a, b)
    ensures IsNewer(t, stalep, a, b) && (a, b) != (l, i)
  {
    hide IsQueued, QueuedBefore;
    if a == l + 1 && Parent(b) == i && QueuedBefore(next[l], i, t'.parts[a][b].lm) {
      BeforeIsQueued(next[l], i, t'.parts[a][b].lm);
    }
  }

  /** Another checkpoint or digest for the partition worked on changes no age. */
  lemma SetHighAges(t: Tree, stalep: seq<seq<FPart>>, l: nat, e: FPart)
    requires |stalep| == LEVELS && l < LEVELS && stalep[l] != []
    requires e.index == High(stalep[l]).index && e.lm == High(stalep[l]).lm
    ensures Newer(t, SetHigh(stalep, l, e)) == Newer(t, stalep)
  {
    hide IsQueued, QueuedBefore;
    forall a: nat, b: nat ensures IsNewer(t, SetHigh(stalep, l, e), a, b) <==> IsNewer(t, stalep, a, b) {
      ReplacedLast(stalep[l], e, b);
      ReplacedLast(stalep[l], e, Parent(b));
    }
  }

  /** The partition worked on gets its meta-data: only children that this leaves as they are may be newer. */
  lemma ExpandAges(t: Tree, stalep: seq<seq<FPart>>, l: nat, nb: nat, m: nat, lc: Seqno, lm: Seqno, q: seq<FPart>)
    requires Discipline(stalep, l, nb, m, lc) && l < LEAF && |t.parts| == LEVELS
    requires AsInTree(t.parts[l + 1], q)
    ensures |stalep| == LEVELS && stalep[l] != []
    ensures Newer(t, Expand(stalep, l, lm, q)) <= Newer(t, stalep) + LeftNewer(t, l, High(stalep[l]).index, lm, q)
  {
    hide IsQueued, QueuedBefore, Discipline;
    QueuesOf(stalep, l, nb, m, lc);
    var next, e := Expand(stalep, l, lm, q), High(stalep[l]).(lm := lm);
    var was, now := stalep[l], next[l];
    assert now == was[|was| - 1 := e] && now[..|now| - 1] == was[..|was| - 1];
    LastOnce(was, nb, m, l, lc);
    WithoutLast(now, e.index);
    forall a: nat, b: nat | IsNewer(t, next, a, b)
      ensures IsNewer(t, stalep, a, b) || (a, b) in LeftNewer(t, l, e.index, lm, q)
    {
      ReplacedLast(was, e, b);
      ReplacedLast(was, e, Parent(b));
      EmptyQueue(b);
      EmptyQueue(Parent(b));
      if a == l + 1 && Parent(b) == e.index {
        if QueuedBefore(now[..|now| - 1], e.index, t.parts[a][b].lm) {
          BeforeIsQueued(now[..|now| - 1], e.index, t.parts[a][b].lm);
        }
      } else if a == l + 2 && QueuedBefore(q, Parent(b), t.parts[a][b].lm) {
        QueuedAsInTree(t, l + 1, q, Parent(b), t.parts[a][b].lm);
      }
    }
  }

  lemma EmptyQueue(i: nat)
    ensures !IsQueued([], i) && forall lm :: !QueuedBefore([], i, lm)
  {
  }

  lemma QueuedAsInTree(t: Tree, l: nat, q: seq<FPart>, i: nat, lm: Seqno)
    requires l < LEVELS && |t.parts| == LEVELS && QueuedBefore(q, i, lm)
    requires AsInTree(t.parts[l], q)
    ensures i < |t.parts[l]| && t.parts[l][i].lm < lm
  {
  }

  /** The entries have the ages that the tree has for their partitions. */
  ghost predicate AsInTree(parts: seq<Part>, q: seq<FPart>) {
    forall k :: 0 <= k < |q| ==> q[k].index < |parts| && q[k].lm == parts[q[k].index].lm
  }

  lemma AsInTreeNext(parts: seq<Part>, q: seq<FPart>, e: FPart)
    requires AsInTree(parts, q) && e.index < |parts| && e.lm == parts[e.index].lm
    ensures AsInTree(parts, q + [e])
  {
  }

  lemma {:induction false} QueueAges(parts: seq<Part>, base: nat, subs: seq<nat>, n: nat, lu: Seqno, c: Seqno)
    requires n <= |subs| && (n > 0 ==> base + n <= |parts|)
    ensures AsInTree(parts, ChildQueue(parts, base, subs, n, lu, c))
  {
    if n > 0 {
      hide AsInTree;
      QueueAges(parts, base, subs, n - 1, lu, c);
      var before, i, d := ChildQueue(parts, base, subs, n - 1, lu, c), base + n - 1, subs[n - 1];
      AsInTreeNext(parts, before, FPart(i, lu, parts[i].lm, c, d));
    }
  }

  /** A partition found to be up to date leaves the queue as it is. */
  lemma FoundAges(t: Tree, stalep: seq<seq<FPart>>, l: nat, nb: nat, m: nat, lc: Seqno)
    requires Discipline(stalep, l, nb, m, lc) && l > 0
    ensures |stalep| == LEVELS && stalep[l] != []
    ensures Newer(t, WithoutHigh(stalep, l)) <= Newer(t, stalep) + FoundNewer(t, stalep, l, High(stalep[l]).index)
  {
    hide IsQueued, QueuedBefore, Discipline, LastGone;
    QueuesOf(stalep, l, nb, m, lc);
    LastIsGone(stalep[l], nb, m, l, lc);
    LastIsRaised(stalep[l - 1], nb, m, l - 1, lc, High(stalep[l - 1]).lm);
    var i, next := High(stalep[l]).index, WithoutHigh(stalep, l);
    forall a: nat, b: nat | IsNewer(t, next, a, b)
      ensures IsNewer(t, stalep, a, b) || (a, b) in FoundNewer(t, stalep, l, i)
    {
      FoundNotNewer(t, stalep, next, l, i, a, b);
    }
  }

  lemma FoundNotNewer(t: Tree, stalep: seq<seq<FPart>>, next: seq<seq<FPart>>, l: nat, i: nat, a: nat, b: nat)
    requires |stalep| == LEVELS && |next| == LEVELS && 0 < l < LEVELS && stalep[l] != [] && i == High(stalep[l]).index
    requires next == stalep[l := next[l]] && LastGone(stalep[l], next[l], i, High(stalep[l]).lm)
    requires IsQueued(stalep[l - 1], Parent(i)) && IsNewer(t, next, a, b)
    ensures IsNewer(t, stalep, a, b) || (a, b) in FoundNewer(t, stalep, l, i)
  {
    hide IsQueued, QueuedBefore;
    if a == l + 1 && Parent(b) == i && QueuedBefore(next[l], i, t.parts[a][b].lm) {
      BeforeIsQueued(next[l], i, t.parts[a][b].lm);
    }
  }

  // ------------------------------------------------------------------
  // Before and after a fetch
  // ------------------------------------------------------------------

  /** The partitions that the tree itself has as newer than the one they are part of. */
  ghost function NewerInTree(t: Tree): iset<(nat, nat)> {
    iset p: (nat, nat) |
      && |t.parts| == LEVELS && 0 < p.0 < LEVELS && p.1 < |t.parts[p.0]| && Parent(p.1) < |t.parts[p.0 - 1]|
      && t.parts[p.0 - 1][Parent(p.1)].lm < t.parts[p.0][p.1].lm
  }

  lemma NothingQueued(t: Tree)
    ensures Newer(t, [[], [], [], []]) == NewerInTree(t)
  {
    hide IsQueued, QueuedBefore;
    forall a: nat, b: nat ensures IsNewer(t, [[], [], [], []], a, b) <==> (a, b) in NewerInTree(t) {
      EmptyQueue(b);
      EmptyQueue(Parent(b));
    }
  }

  lemma RootQueued(t: Tree, root: FPart)
    requires |t.parts| == LEVELS && |t.parts[0]| == 1 && root.index == 0 && root.lm == t.parts[0][0].lm
    ensures Newer(t, [[root], [], [], []]) == NewerInTree(t)
  {
    var q := [root];
    assert forall i: nat :: IsQueued(q, i) <==> i == 0 by {
      assert q[0].index == 0;
    }
    assert forall x :: QueuedBefore(q, 0, x) <==> root.lm < x by {
      assert q[0].index == 0;
    }
    hide IsQueued, QueuedBefore;
    forall a: nat, b: nat ensures IsNewer(t, [q, [], [], []], a, b) <==> (a, b) in NewerInTree(t) {
      EmptyQueue(b);
      EmptyQueue(Parent(b));
    }
  }

  /** A fetch that ends leaves nothing queued. */
  lemma {:induction false} FinishEnds(stalep: seq<seq<FPart>>, f: nat, nb: nat, m: nat, lc: Seqno, lm: Seqno)
    requires Discipline(stalep, f, nb, m, lc) && Queued(stalep, f)
    ensures Finish(stalep, f, lm).done ==> Finish(stalep, f, lm).stalep == [[], [], [], []]
    decreases f, 0
  {
    hide QueueOK, Linked, Finish, Climb;
    FinishQueues(stalep, f, nb, m, lc, lm);
    FinishIs(stalep, f, lm);
    var next := WithoutHigh(Raised(stalep, f, lm), f);
    if f > 0 && next[f] == [] {
      ClimbEnds(next, f - 1, nb, m, lc);
    }
  }

  lemma {:induction false} ClimbEnds(stalep: seq<seq<FPart>>, f: nat, nb: nat, m: nat, lc: Seqno)
    requires Discipline(stalep, f, nb, m, lc) && Queued(stalep, f)
    ensures Climb(stalep, f).done ==> Climb(stalep, f).stalep == [[], [], [], []]
    decreases f, 1
  {
    hide Finish, Climb, Discipline;
    ClimbIs(stalep, f);
    FinishEnds(stalep, f, nb, m, lc, High(stalep[f]).lm);
  }
}
