/**
 * How the primary of a view forms its new-view message: class NV_info of
 * src/NV_info.h and src/NV_info.cc.  View-changes are weighed one at a time
 * by the counters of NewViewCounters; what comes out follows the rules that
 * the protocol asks of a new view.
 */
module NewViewInfo {
  import opened Wrappers
  import opened Types
  import opened Quorums
  import opened ViewChangeState
  import opened NewViewRules
  import opened NewViewCounters
  import opened NewViewTallies
  import opened ReplicaState

  /** The rows that have a complete request, among those above min. */
  function Done(comp: seq<int>, base: Seqno, min: Seqno): set<int> {
    set k | 0 <= k < |comp| && base + k > min && comp[k] >= 0
  }

  predicate Enough(f: nat, nProofs: nat, nLe: nat) {
    nProofs >= f + 1 && nLe >= 2 * f + 1
  }

  /** A candidate that may become the complete request of its row: it counted enough and is at hand, or is null. */
  predicate ReqReady(f: nat, q: ReqSum) {
    Enough(f, q.nProofs, q.nLe) && (q.v < 0 || (q.pp && q.nPproofs > f))
  }

  ghost predicate TableOK(vcs: map<int, VC>, base: Seqno, reqs: seq<seq<ReqSum>>) {
    forall k :: 0 <= k < |reqs| ==> ReqsOK(vcs, base + k, reqs[k])
  }

  /** A row's complete request is one of its candidates, counted enough, and is at hand. */
  ghost predicate CompOK(f: nat, reqs: seq<seq<ReqSum>>, comp: seq<int>)
    requires |comp| == |reqs|
  {
    forall k :: 0 <= k < |comp| && comp[k] >= 0 ==>
         comp[k] < |reqs[k]| && ReqReady(f, reqs[k][comp[k]])
  }

  ghost predicate VCsOK(f: nat, v: View, vcs: map<int, VC>) {
    forall i :: i in vcs ==> vcs[i].id == i && vcs[i].view == v && WellFormedVC(f, vcs[i])
  }

  /** min and max are a start and a range that the rules select. */
  ghost predicate RangeOK(f: nat, vcs: map<int, VC>, c: CkptSum, min: Seqno, max: Seqno) {
    && c.n == min && Enough(f, c.nProofs, c.nLe)
    && RangeSelected(f, vcs, max) && max <= min + MAX_OUT + 1
  }

  /** nv has a pick for its start and for the numbers of its range, and for no other. */
  ghost predicate PicksOnly(nv: NV) {
    forall n :: n in nv.picked <==> nv.min <= n < nv.max
  }

  ghost predicate AllDone(comp: seq<int>, base: Seqno, min: Seqno) {
    forall k :: 0 <= k < |comp| && min < base + k ==> comp[k] >= 0
  }

  /**
   * The number of complete requests is compared with the length of the range
   * to see whether every request of the range is complete.  The rows being
   * those of the range, that is right.
   */
  lemma DoneCountsRange(comp: seq<int>, base: Seqno, min: Seqno)
    requires base <= min + 1
    ensures |Done(comp, base, min)| == base + |comp| - min - 1 <==> min < base + |comp| && AllDone(comp, base, min)
  {
    var range := Interval(min + 1 - base, |comp|);
    var done := Done(comp, base, min);
    assert done <= range;
    if |done| == base + |comp| - min - 1 {
      SubsetEqual(done, range);
      forall k | 0 <= k < |comp| && min < base + k ensures comp[k] >= 0 {
        assert k in range;
      }
    }
    if min < base + |comp| && AllDone(comp, base, min) {
      assert range <= done;
      assert range == done;
    }
  }

  lemma SubsetEqual<T>(a: set<T>, b: set<T>)
    requires a <= b && |a| == |b|
    ensures a == b
  {
    if a != b {
      var x :| x in b && x !in a;
      SubsetSize(a + {x}, b);
      assert false;
    }
  }

  /** The integers from lo up to, but not including, hi. */
  function Interval(lo: int, hi: int): (s: set<int>)
    ensures forall k :: k in s <==> lo <= k < hi
    ensures |s| == if lo <= hi then hi - lo else 0
    decreases hi - lo
  {
    if lo < hi then Interval(lo, hi - 1) + {hi - 1} else {}
  }

  /** Rows without a complete request have no candidate ready, candidate j of row k apart. */
  ghost predicate SettledBut(f: nat, logs: Logs, base: Seqno, reqs: seq<seq<ReqSum>>, comp: seq<int>, k: int, j: int)
    requires |comp| == |reqs|
  {
    forall t, u :: 0 <= t < |reqs| && 0 <= u < |reqs[t]| && comp[t] < 0 && (t != k || u != j) ==>
      !AtHand(f, logs, base + t, reqs[t][u])
  }

  ghost predicate Settled(f: nat, logs: Logs, base: Seqno, reqs: seq<seq<ReqSum>>, comp: seq<int>) {
    |comp| == |reqs| && SettledBut(f, logs, base, reqs, comp, -1, -1)
  }

  /** What the replica itself has logged: pre-prepares, and the prepares it sent. */
  datatype Logs = Logs(logged: set<(Seqno, Digest)>, prepares: set<(Seqno, Digest)>)

  /** A candidate for n would be ready once the logs are consulted. */
  predicate AtHand(f: nat, logs: Logs, n: Seqno, q: ReqSum) {
    ReqReady(f, Consulted(q, f, (n, q.d) in logs.logged, (n, q.d) in logs.prepares))
  }

  /** No candidate that counted enough is above the chosen one. */
  ghost predicate Highest(f: nat, ckpts: seq<CkptSum>, chosen: int) {
    forall t :: 0 <= t < |ckpts| && Enough(f, ckpts[t].nProofs, ckpts[t].nLe) ==>
      0 <= chosen < |ckpts| && ckpts[t].n <= ckpts[chosen].n
  }

  /** A higher candidate refers at least as far as a lower one. */
  ghost predicate Ascending(ckpts: seq<CkptSum>) {
    forall a, b :: 0 <= a < |ckpts| && 0 <= b < |ckpts| && ckpts[a].n < ckpts[b].n ==>
      ckpts[a].maxSeqno <= ckpts[b].maxSeqno
  }

  /** Candidate c, if there is one, refers no further than candidate i if it is lower. */
  ghost predicate RefersNoFurther(ckpts: seq<CkptSum>, c: int, i: nat)
    requires i < |ckpts|
  {
    0 <= c < |ckpts| && ckpts[c].n < ckpts[i].n ==> ckpts[c].maxSeqno <= ckpts[i].maxSeqno
  }

  /** While vc is weighed: every candidate is as it was or is updated. */
  ghost predicate PartlyWeighed(was: seq<CkptSum>, now: seq<CkptSum>, vc: VC) {
    |now| == |was| && forall t :: 0 <= t < |was| ==> now[t] == was[t] || now[t] == UpdateCkpt(was[t], vc)
  }

  /** The order holds for every updated candidate already while vc is weighed: what raises a lower one raises it. */
  lemma UpdatedRefersFurther(was: seq<CkptSum>, now: seq<CkptSum>, vc: VC, c: int, i: nat)
    requires Ascending(was) && PartlyWeighed(was, now, vc) && i < |now| && now[i] == UpdateCkpt(was[i], vc)
    ensures RefersNoFurther(now, c, i)
  {
    hide Ckpt, StableDigest, MaxSeqno;
  }

  /** A new candidate refers as far as every lower one, which vc does not raise. */
  lemma FreshRefersFurther(vcs: map<int, VC>, before: map<int, VC>, was: seq<CkptSum>, now: seq<CkptSum>, vc: VC, c: int)
    requires CkptsOK(before, was) && MaxSeqno(vc) <= vc.ls + MAX_OUT
    requires |now| == |was| && forall t :: 0 <= t < |was| ==> now[t] == UpdateCkpt(was[t], vc)
    ensures RefersNoFurther(now + [FreshCkpt(vcs, was, vc)], c, |now|)
    ensures forall t :: 0 <= t < |now| && vc.ls < now[t].n && Ascending(was) ==>
              FreshCkpt(vcs, was, vc).maxSeqno <= now[t].maxSeqno
  {
    hide Ckpt, StableDigest, MaxSeqno, CkptSumOK, CountBelow, Holders;
    MaxBelowBounds(before, was, vc.ls, MaxSeqno(vc));
    forall t | 0 <= t < |now| && vc.ls < now[t].n && Ascending(was)
      ensures FreshCkpt(vcs, was, vc).maxSeqno <= now[t].maxSeqno
    {
      MaxBelowReached(was, vc.ls, MaxSeqno(vc), now[t].maxSeqno);
    }
  }

  lemma {:induction false} MaxBelowReached(ckpts: seq<CkptSum>, n: Seqno, m: Seqno, bound: Seqno)
    requires m <= bound && forall t :: 0 <= t < |ckpts| && ckpts[t].n < n ==> ckpts[t].maxSeqno <= bound
    ensures MaxBelow(ckpts, n, m) <= bound
  {
    if ckpts != [] {
      MaxBelowReached(ckpts[..|ckpts| - 1], n, m, bound);
    }
  }

  /** Weighing a view-change keeps the order: the end of a range, once chosen, is never too high for a later start. */
  lemma WeighedAscends(before: map<int, VC>, was: seq<CkptSum>, vcs: map<int, VC>, vc: VC)
    requires CkptsOK(before, was) && MaxSeqno(vc) <= vc.ls + MAX_OUT && Ascending(was)
    ensures Ascending(CkptsWeighed(was, vcs, vc))
  {
    hide Ckpt, StableDigest, MaxSeqno, CkptsOK, UpdateCkpt, FreshCkpt, HasCkpt, Ascending;
    var now := seq(|was|, t requires 0 <= t < |was| => UpdateCkpt(was[t], vc));
    var all := CkptsWeighed(was, vcs, vc);
    FreshSeqno(vcs, was, vc);
    forall a, b | 0 <= a < |all| && 0 <= b < |all| && all[a].n < all[b].n ensures all[a].maxSeqno <= all[b].maxSeqno {
      FreshRefersFurther(vcs, before, was, now, vc, a);
      if b < |was| && a < |was| {
        UpdatedRefersFurther(was, now, vc, a, b);
      }
    }
    assert Ascending(all) by {
      AscendingIs(all);
    }
  }

  lemma AscendingIs(ckpts: seq<CkptSum>)
    requires forall a, b :: 0 <= a < |ckpts| && 0 <= b < |ckpts| && ckpts[a].n < ckpts[b].n ==>
               ckpts[a].maxSeqno <= ckpts[b].maxSeqno
    ensures Ascending(ckpts)
  {
  }

  lemma FreshSeqno(vcs: map<int, VC>, ckpts: seq<CkptSum>, vc: VC)
    ensures FreshCkpt(vcs, ckpts, vc).n == vc.ls
  {
  }

  class NVInfo {
    const f: nat
    const v: View
    const logged: set<(Seqno, Digest)>    // where View_info::pre_prepare finds a pre-prepare
    const prepares: set<(Seqno, Digest)>  // where View_info::prepare says yes
    var vcs: map<int, VC>                 // the view-changes that are part of the new view
    var reqSum: set<int>                  // those of them whose requests were summarised
    var ckpts: seq<CkptSum>
    var chosen: int                       // index of the chosen checkpoint, -1 for none
    var min: Seqno
    var max: Seqno
    var base: Seqno
    var reqs: seq<seq<ReqSum>>            // indexed by sequence number minus base
    var comp: seq<int>                    // comp_reqs
    var nComplete: int
    var isComplete: bool
    var made: Option<NV>                  // the new-view message last made
    ghost var arrived: seq<int>           // the authors of vcs as they came
    ghost var weighed: seq<int>           // those of reqSum as they were summarised

    function Logged(): Logs {
      Logs(logged, prepares)
    }

    /** Nothing is counted more often than the rules count it. */
    ghost predicate CountsSound()
      reads this
    {
      && f >= 1 && v > 0
      && VCsOK(f, v, vcs) && reqSum <= vcs.Keys
      && CkptsOK(vcs, ckpts)
      && TableOK(Summed(vcs, reqSum), base, reqs)
      && |comp| == |reqs| && CompOK(f, reqs, comp)
      && nComplete == |Done(comp, base, min)|
      && (if chosen < 0 then chosen == -1 && reqSum == {} && reqs == []
          else chosen < |ckpts| && RangeOK(f, vcs, ckpts[chosen], min, max) && base <= min + 1
               && max == base + |reqs| && max <= ckpts[chosen].maxSeqno + 1)
      && (made.Some? ==> ValidNewView(f, made.value) && PicksOnly(made.value))
    }

    /** ... and no row waits for a request that is ready once the logs are consulted. */
    ghost predicate Valid()
      reads this
    {
      CountsSound() && Settled(f, Logged(), base, reqs, comp)
    }

    /** The new view is made as soon as the count that decides it says that it is complete. */
    ghost predicate Prompt()
      reads this
    {
      !isComplete && chosen >= 0 ==> nComplete != max - min - 1
    }

    /** A complete new view was made, for this view and of all view-changes weighed. */
    ghost predicate Made()
      reads this
    {
      isComplete ==> made.Some? && made.value.view == v && made.value.vcs == vcs
    }

    /** While the new view is not made, the counters of every row of the range are what the view-changes summarised come to. */
    ghost predicate Rows()
      reads this
    {
      !isComplete ==> reqSum == Members(weighed) && RowsTallied(f, vcs, weighed, base, min, reqs)
    }

    /** So are those of the checkpoints; once one is chosen every view-change is summarised. */
    ghost predicate Tallied()
      reads this
    {
      && Rows() && vcs.Keys == Members(arrived) && CkptsTallied(vcs, arrived, ckpts)
      && (chosen >= 0 && !isComplete ==> reqSum == vcs.Keys)
    }

    constructor (f: nat, v: View, logged: set<(Seqno, Digest)>, prepares: set<(Seqno, Digest)>)
      requires f >= 1 && v > 0
      ensures Valid() && Prompt() && Made() && Highest(f, ckpts, chosen) && Ascending(ckpts)
      ensures Tallied() && vcs == map[] && !isComplete && made == None
      ensures this.f == f && this.v == v && this.logged == logged && this.prepares == prepares
    {
      this.f, this.v, this.logged, this.prepares := f, v, logged, prepares;
      vcs, reqSum, ckpts, chosen := map[], {}, [], -1;
      min, max, base, reqs, comp, nComplete := -1, -1, -1, [], [], 0;
      isComplete, made := false, None;
      arrived, weighed := [], [];
      new;
      assert Done(comp, base, min) == {};
    }

    /** The author of the complete request of every row of the range. */
    method PickRequests() returns (picked: map<Seqno, int>)
      requires CountsSound() && chosen >= 0 && min < max
      ensures forall n :: n in picked <==> n == min || (min < n < max && comp[n - base] >= 0)
      ensures picked[min] == ckpts[chosen].id
      ensures forall n :: n in picked && n != min ==> picked[n] == PickedId(reqs, comp, n - base)
    {
      hide VCsOK, CkptsOK, TableOK, CompOK, Done, ValidRange, RangeOK, ValidNewView;
      picked := map[min := ckpts[chosen].id];
      for i := min + 1 to max
        invariant forall n :: n in picked <==> n == min || (min < n < i && comp[n - base] >= 0)
        invariant picked[min] == ckpts[chosen].id
        invariant forall n :: n in picked && n != min ==> picked[n] == PickedId(reqs, comp, n - base)
      {
        if comp[i - base] >= 0 {
          CompAt(f, reqs, comp, i - base);
          picked := picked[i := reqs[i - base][comp[i - base]].id];
        }
      }
    }

    /**
     * Completes the new-view message.  It picks the chosen checkpoint and the
     * complete request of every row, and so follows the rules.
     */
    method MakeNewView()
      requires CountsSound() && isComplete && chosen >= 0 && min < max && nComplete == max - min - 1
      modifies this`made
      ensures CountsSound() && made.Some? && ValidNewView(f, made.value) && PicksOnly(made.value)
      ensures made.value.view == v && made.value.vcs == vcs && made.value.min == min && made.value.max == max
      ensures forall n :: min < n < max && comp[n - base] >= 0 ==> made.value.picked[n] == PickedId(reqs, comp, n - base)
    {
      hide VCsOK, CkptsOK, TableOK, CompOK, Done, ValidRange, RangeOK, ValidPick, ValidNewView;
      DoneCountsRange(comp, base, min);
      var picked := PickRequests();
      var nv := NV(v, vcs, min, max, picked);
      StartIsValid(f, nv, ckpts, chosen);
      forall n | nv.min < n < nv.max ensures ValidPick(f, nv, n) {
        assert comp[n - base] >= 0;
        PickIsValid(f, nv, Summed(vcs, reqSum), base, reqs, comp, n);
      }
      PicksComplete(f, nv);
      made := Some(nv);
    }

    /** If enough information was gathered, makes the new-view message. */
    method FinishIfComplete()
      requires CountsSound() && chosen >= 0
      modifies this`isComplete, this`made
      ensures CountsSound()
      ensures isComplete == (old(isComplete) || nComplete == max - min - 1)
      ensures if nComplete == max - min - 1 then
                made.Some? && ValidNewView(f, made.value)
                && made.value.vcs == vcs && made.value.min == min && made.value.max == max
              else made == old(made)
      ensures Prompt() && (old(Made()) ==> Made())
    {
      hide VCsOK, CkptsOK, TableOK, CompOK, Done, RangeOK, ValidNewView;
      if nComplete == max - min - 1 {
        isComplete := true;
        MakeNewView();
      }
    }

    /**
     * Records candidate j of sequence number i as the row's complete request
     * if it counted enough and what it stands for is at hand; says whether the
     * new view may be complete then.
     */
    method CheckRow(i: Seqno, j: nat) returns (goOn: bool)
      requires CountsSound() && chosen >= 0 && min < i < max && j < |reqs[i - base]|
      requires SettledBut(f, Logged(), base, reqs, comp, i - base, j)
      modifies this`reqs, this`comp, this`nComplete
      ensures Valid() && OtherRowsKept(old(reqs), reqs, i - base) && comp == old(comp)[i - base := comp[i - base]]
      ensures RowChecked(f, old(reqs)[i - base], reqs[i - base], j, old(comp)[i - base], comp[i - base],
                         (i, old(reqs)[i - base][j].d) in logged, (i, old(reqs)[i - base][j].d) in prepares)
      ensures !goOn ==> nComplete == old(nComplete)
    {
      hide VCsOK, CkptsOK, TableOK, CompOK, Done, RangeOK, ValidNewView, SettledBut, AtHand;
      var k := i - base;
      var cur := reqs[k][j];
      ConsultedIs(f, Logged(), i, cur);
      SettledThen(f, Logged(), base, reqs, comp, k, j, cur);
      if comp[k] < 0 && cur.nProofs >= f + 1 && cur.nLe >= 2 * f + 1 {
        cur := Consulted(cur, f, (i, cur.d) in logged, (i, cur.d) in prepares);
        RowKeepsCounts(f, Summed(vcs, reqSum), base, reqs, comp, k, j, cur);
        SettledThen(f, Logged(), base, reqs, comp, k, j, cur);
        reqs := reqs[k := reqs[k][j := cur]];
        if cur.v < 0 || (cur.pp && cur.nPproofs > f) {
          CompleteRow(f, reqs, comp, k, j);
          DoneAdd(comp, base, min, k, j);
          comp := comp[k := j];
          nComplete := nComplete + 1;
        } else {
          return false;
        }
      }
      return true;
    }

    /** check_comp. */
    method CheckComp(i: Seqno, j: nat)
      requires CountsSound() && chosen >= 0 && min < i < max && j < |reqs[i - base]|
      requires SettledBut(f, Logged(), base, reqs, comp, i - base, j)
      modifies this`reqs, this`comp, this`nComplete, this`isComplete, this`made
      ensures Valid() && OtherRowsKept(old(reqs), reqs, i - base) && comp == old(comp)[i - base := comp[i - base]]
      ensures RowChecked(f, old(reqs)[i - base], reqs[i - base], j, old(comp)[i - base], comp[i - base],
                         (i, old(reqs)[i - base][j].d) in logged, (i, old(reqs)[i - base][j].d) in prepares)
      ensures CandidatesKept(old(reqs)[i - base], reqs[i - base], j)
      ensures old(isComplete) ==> isComplete
      ensures (old(Prompt()) ==> Prompt()) && (old(Made()) ==> Made())
    {
      hide VCsOK, CkptsOK, TableOK, CompOK, Done, RangeOK, ValidNewView, OtherRowsKept, CandidatesKept,
           SettledBut, RowChecked;
      CheckDefined();
      var goOn := CheckRow(i, j);
      ghost var d := old(reqs)[i - base][j].d;
      CheckedKept(f, old(reqs)[i - base], reqs[i - base], j, old(comp)[i - base], comp[i - base],
                  (i, d) in logged, (i, d) in prepares);
      if goOn {
        FinishIfComplete();
      }
    }

    lemma CheckDefined()
      requires CountsSound() && chosen >= 0
      ensures |comp| == |reqs| && base <= min + 1 && max <= base + |reqs|
    {
      hide VCsOK, CkptsOK, TableOK, CompOK, Done, RangeOK, ValidNewView;
    }

    /** How many of the view-changes summarised so far vouch for a request at n. */
    method CountProofs(q: ReqSum, n: Seqno) returns (r: ReqSum)
      requires CountsSound() && q.nProofs == 0 && q.nPproofs == 0 && q.rPproofs == {}
      ensures r.nProofs == |ProofSet(Summed(vcs, reqSum), n, q.v, q.d)|
      ensures r.rPproofs == Affirmers(Summed(vcs, reqSum), n, q.v, q.d) && r.nPproofs == |r.rPproofs|
      ensures r == q.(nProofs := r.nProofs, nPproofs := r.nPproofs, rPproofs := r.rPproofs)
    {
      hide VCsOK, CkptsOK, TableOK, CompOK, Done, RangeOK, ValidNewView, ProofSet, Affirmers, Affirms, AddProofs;
      r := q;
      ghost var some := Summed(vcs, reqSum);
      AllUpTo(f, v, vcs, reqSum);
      NoProofs(some, n, q.v, q.d);
      for j := 0 to 3 * f + 1
        invariant r == q.(nProofs := r.nProofs, nPproofs := r.nPproofs, rPproofs := r.rPproofs)
        invariant r.nProofs == |ProofSet(UpTo(some, j), n, q.v, q.d)|
        invariant r.rPproofs == Affirmers(UpTo(some, j), n, q.v, q.d) && r.nPproofs == |r.rPproofs|
      {
        ProofsNext(some, j, n, q.v, q.d);
        AffirmersNext(some, j, n, q.v, q.d);
        if j in vcs && j in reqSum {
          AddProofsIs(r, vcs[j], n);
          AddProofsKeeps(r, vcs[j], n);
          IdOf(f, v, vcs, j);
          r := AddProofs(r, vcs[j], n);
        }
      }
    }

    /** Weighs vc for candidate j of sequence number i. */
    method Weigh(vc: VC, i: Seqno, j: nat, ghost some: map<int, VC>, ghost was: seq<ReqSum>)
      requires Valid() && chosen >= 0 && min < i < max && vc.ls < i && vc.id !in some
      requires Summed(vcs, reqSum) == some[vc.id := vc] && ReqsOK(some, i, was)
      requires j < |reqs[i - base]| == |was| && reqs[i - base][j] == was[j]
      modifies this`reqs, this`comp, this`nComplete, this`isComplete, this`made
      ensures Valid() && OtherRowsKept(old(reqs), reqs, i - base) && RowKept(old(reqs)[i - base], reqs[i - base], j)
      ensures SameCounts(f, UpdateReq(was[j], vc, i), reqs[i - base][j])
      ensures (old(isComplete) ==> isComplete) && (old(Prompt()) ==> Prompt()) && (old(Made()) ==> Made())
    {
      hide VCsOK, CkptsOK, TableOK, CompOK, Done, RangeOK, ValidNewView, ReqsOK, UpdateReq, SettledBut;
      var k := i - base;
      UpdatedRow(f, some, vc, base, reqs, comp, k, j, was);
      UpdateGrows(reqs[k][j], vc, i);
      SettledUpdate(f, Logged(), base, reqs, comp, k, j, UpdateReq(reqs[k][j], vc, i));
      reqs := reqs[k := reqs[k][j := UpdateReq(reqs[k][j], vc, i)]];
      CheckComp(i, j);
    }

    /** Adds a candidate for the request of vc, which none of the row has. */
    method AddCandidate(vc: VC, i: Seqno, nLe: nat, ghost some: map<int, VC>, ghost was: seq<ReqSum>)
      requires Valid() && chosen >= 0 && min < i < max && vc.ls < i && vc.id !in some
      requires Summed(vcs, reqSum) == some[vc.id := vc] && ReqsOK(some, i, was)
      requires SameRequests(was, reqs[i - base]) && nLe == CountLower(was, Req(vc, i).0)
      modifies this`reqs, this`comp, this`nComplete, this`isComplete, this`made
      ensures Valid() && OtherRowsKept(old(reqs), reqs, i - base)
      ensures var row, now := old(reqs)[i - base], reqs[i - base];
              |now| == |row| + 1 && now[..|row|] == row && IsCandidate(f, now[|row|], was, vc, i, Summed(vcs, reqSum))
      ensures (old(isComplete) ==> isComplete) && (old(Prompt()) ==> Prompt()) && (old(Made()) ==> Made())
    {
      hide VCsOK, CkptsOK, TableOK, CompOK, Done, RangeOK, ValidNewView, ReqsOK, Req,
           SameRequests, ProofSet, SettledBut;
      var k := i - base;
      var (rv, rd) := Req(vc, i);
      var cur := ReqSum(rv, rd, 0, 0, {}, false, nLe + 1, vc.id);
      cur := CountProofs(cur, i);
      NewRow(f, some, vc, base, reqs, comp, k, was, cur);
      SettledAppend(f, Logged(), base, reqs, comp, k, cur);
      reqs := reqs[k := reqs[k] + [cur]];
      CheckComp(i, |reqs[k]| - 1);
    }

    /** Weighs the request of vc for sequence number i against the candidates of its row. */
    method SummarizeAt(vc: VC, i: Seqno, ghost some: map<int, VC>)
      requires Valid() && chosen >= 0 && min < i < max && vc.ls < i && vc.id !in some
      requires Summed(vcs, reqSum) == some[vc.id := vc] && ReqsOK(some, i, reqs[i - base])
      modifies this`reqs, this`comp, this`nComplete, this`isComplete, this`made
      ensures Valid() && OtherRowsKept(old(reqs), reqs, i - base)
      ensures !isComplete ==> RowWeighed(f, old(reqs)[i - base], reqs[i - base], vc, i, Summed(vcs, reqSum))
      ensures (old(isComplete) ==> isComplete) && (old(Prompt()) ==> Prompt()) && (old(Made()) ==> Made())
    {
      hide Valid, ReqsOK, Req, Summed, Prompt, SameCounts, UpdateReq, IsCandidate;
      ValidRows(i);
      var k := i - base;
      var matched, nLe := false, 0;
      var (rv, rd) := Req(vc, i);
      ghost var was, rows := reqs[k], reqs;
      for j := 0 to |reqs[k]|
        invariant Valid() && OtherRowsKept(rows, reqs, k) && SameRequests(was, reqs[k])
        invariant forall t :: j <= t < |was| ==> reqs[k][t] == was[t]
        invariant forall t :: 0 <= t < j ==> SameCounts(f, UpdateReq(was[t], vc, i), reqs[k][t])
        invariant nLe == CountLower(was[..j], rv) && matched == HasRequest(was[..j], rv, rd)
        invariant (old(isComplete) ==> isComplete) && (old(Prompt()) ==> Prompt()) && (old(Made()) ==> Made())
      {
        var cur := reqs[k][j];
        assert was[..j + 1][..j] == was[..j];
        HasRequestNext(was, j, rv, rd);
        if cur.v == rv && cur.d == rd {
          matched := true;
        } else if cur.v < rv {
          nLe := nLe + 1;
        }
        Weigh(vc, i, j, some, was);
        if isComplete { return; }
      }
      assert was[..|was|] == was;
      if !matched {
        ghost var weighed := reqs[k];
        AddCandidate(vc, i, nLe, some, was);
        assert forall t :: 0 <= t < |was| ==> reqs[k][..|was|][t] == weighed[t];
      }
    }

    lemma ValidRows(i: Seqno)
      requires Valid() && chosen >= 0 && min < i < max
      ensures 0 <= i - base < |reqs|
    {
    }

    /** summarize_reqs: weighs every request that vc reports in the range. */
    method SummarizeReqs(id: int)
      requires Valid() && chosen >= 0 && id in vcs && id !in reqSum
      modifies this`weighed, this`reqSum, this`reqs, this`comp, this`nComplete, this`isComplete, this`made
      ensures Valid() && reqSum == old(reqSum) + {id} && (old(Rows()) ==> Rows())
      ensures !isComplete ==> RowsWeighed(f, old(reqs), reqs, base, min, max, vcs[id], Summed(vcs, reqSum))
      ensures (old(isComplete) ==> isComplete) && (old(Prompt()) ==> Prompt()) && (old(Made()) ==> Made())
    {
      hide RowsTallied, RowsWeighed, VCsOK, CkptsOK, TableOK, CompOK, Done, RangeOK, ValidNewView, SettledBut, RowWeighed;
      var vc := vcs[id];
      ghost var some, rows := Summed(vcs, reqSum), reqs;
      IdOf(f, v, vcs, id);
      MarkKeeps(vcs, reqSum, id, base, reqs);
      SummedAdd(vcs, reqSum, id);
      reqSum := reqSum + {id};
      ghost var order := weighed;
      weighed := weighed + [id];
      var first := Max(min, vc.ls) + 1;
      if first < max {
        SummarizeRange(vc, first, some, rows);
      } else {
        NoRowWeighed(f, reqs, base, min, max, vc, Summed(vcs, reqSum));
      }
      if !isComplete && old(Rows()) {
        AfterNext(order, id, id);
        RowsWeighedTallied(f, vcs, order, vc, base, min, rows, reqs);
      }
    }

    method SummarizeRange(vc: VC, first: Seqno, ghost some: map<int, VC>, ghost rows: seq<seq<ReqSum>>)
      requires Valid() && chosen >= 0 && first == Max(min, vc.ls) + 1 <= max
      requires vc.id !in some && Summed(vcs, reqSum) == some[vc.id := vc]
      requires rows == reqs && TableOK(some, base, rows)
      modifies this`reqs, this`comp, this`nComplete, this`isComplete, this`made
      ensures Valid()
      ensures !isComplete ==> RowsWeighed(f, rows, reqs, base, min, max, vc, Summed(vcs, reqSum))
      ensures (old(isComplete) ==> isComplete) && (old(Prompt()) ==> Prompt()) && (old(Made()) ==> Made())
    {
      hide Valid, Summed, TableOK, Prompt, RowWeighed;
      for i := first to max
        invariant Valid() && |reqs| == |rows|
        invariant forall t :: 0 <= t < |rows| && (base + t < first || base + t >= i) ==> reqs[t] == rows[t]
        invariant !isComplete ==> forall t :: 0 <= t < |rows| && first <= base + t < i ==>
          RowWeighed(f, rows[t], reqs[t], vc, base + t, Summed(vcs, reqSum))
        invariant (old(isComplete) ==> isComplete) && (old(Prompt()) ==> Prompt()) && (old(Made()) ==> Made())
      {
        ValidRows(i);
        RowOf(some, base, rows, i);
        SummarizeAt(vc, i, some);
        if isComplete { return; }
      }
    }

    /**
     * choose_ckpt: starts the new view from candidate "index", if it is the
     * first one chosen or higher than the one chosen before.
     */
    method ChooseCkpt(index: nat)
      requires Valid() && index < |ckpts| && Enough(f, ckpts[index].nProofs, ckpts[index].nLe)
      requires RefersNoFurther(ckpts, chosen, index)
      modifies this`weighed, this`chosen, this`min, this`max, this`base, this`reqSum, this`reqs, this`comp, this`nComplete,
               this`isComplete, this`made
      ensures (old(Rows()) ==> Rows()) && Valid() && Prompt() && (old(chosen) >= 0 ==> reqSum == old(reqSum))
      ensures chosen == if old(chosen) < 0 || ckpts[old(chosen)].n < ckpts[index].n then index else old(chosen)
      ensures old(chosen) >= 0 ==> reqs == old(reqs) && base == old(base)
      ensures max == if old(chosen) < 0 then ckpts[index].maxSeqno + 1 else old(max)
      ensures !isComplete && old(chosen) < 0 ==> reqSum == vcs.Keys
      ensures (old(isComplete) ==> isComplete) && (old(Made()) ==> Made())
    {
      hide RowsTallied, VCsOK, CkptsOK, TableOK, CompOK, RangeOK, ValidNewView, Done;
      var cur := ckpts[index];
      if chosen < 0 {
        StartRange(index);
        SummarizeAll();
        if isComplete {
          return;
        }
      } else if ckpts[chosen].n < cur.n {
        RaiseStart(index);
      }
      FinishIfComplete();
    }

    /** The first choice fixes the range; no request was weighed before. */
    method StartRange(index: nat)
      requires Valid() && chosen < 0 && index < |ckpts| && Enough(f, ckpts[index].nProofs, ckpts[index].nLe)
      modifies this`weighed, this`chosen, this`min, this`max, this`base, this`reqs, this`comp
      ensures Valid() && Rows() && chosen == index && reqSum == {} && max == ckpts[index].maxSeqno + 1
    {
      hide RowsTallied, VCsOK, CompOK, ValidNewView, CkptSumOK, CkptsOK, TableOK, Done, RangeSelected, Settled;
      var cur := ckpts[index];
      NothingDone(f, base, min, reqs, comp, Summed(vcs, reqSum));
      chosen, min, base, max := index, cur.n, cur.n + 1, cur.maxSeqno + 1;
      RangeChosen(f, vcs, ckpts, index);
      reqs := seq(max - base, _ => []);
      comp := seq(max - base, _ => -1);
      NothingDone(f, base, min, reqs, comp, Summed(vcs, reqSum));
      weighed := [];
      NothingTallied(f, vcs, base, min, reqs);
      NothingSettled(f, Logged(), base, reqs, comp);
    }

    /** Weighs the requests of all view-changes of the new view. */
    method SummarizeAll()
      requires Valid() && chosen >= 0 && reqSum == {} && Rows()
      modifies this`weighed, this`reqSum, this`reqs, this`comp, this`nComplete, this`isComplete, this`made
      ensures Valid() && Rows()
      ensures !isComplete ==> reqSum == vcs.Keys
      ensures (old(isComplete) ==> isComplete) && (old(Made()) ==> Made())
    {
      hide RowsTallied, CkptsOK, TableOK, CompOK, Done, RangeOK, ValidNewView, SettledBut, RowsWeighed, Prompt;
      for i := 0 to 3 * f + 1
        invariant Valid() && Rows() && reqSum == BelowIds(vcs, i)
        invariant (old(isComplete) ==> isComplete) && (old(Made()) ==> Made())
      {
        if i in vcs {
          SummarizeReqs(i);
          if isComplete { return; }
        }
      }
      AllBelow(f, v, vcs);
    }

    /** A higher start drops the rows up to it.  It refers as far as the lower one, so that the range ends where it did. */
    method RaiseStart(index: nat)
      requires Valid() && chosen >= 0 && index < |ckpts| && Enough(f, ckpts[index].nProofs, ckpts[index].nLe)
      requires ckpts[chosen].n < ckpts[index].n && RefersNoFurther(ckpts, chosen, index)
      modifies this`chosen, this`min, this`max, this`nComplete
      ensures Valid() && chosen == index && max == old(max) && (old(Rows()) ==> Rows())
    {
      hide RowTallied, VCsOK, TableOK, CompOK, ValidNewView, CkptSumOK, Done, RangeSelected;
      var cur := ckpts[index];
      for i := min + 1 to cur.n + 1
        invariant nComplete == |Done(comp, base, i - 1)|
        modifies this`nComplete
      {
        DoneRaise(comp, base, i - 1);
        if i - base < |comp| && comp[i - base] >= 0 {
          nComplete := nComplete - 1;
        }
      }
      RangeChosen(f, vcs, ckpts, index);
      chosen, min := index, cur.n;
      max := if cur.maxSeqno + 1 < max then cur.maxSeqno + 1 else max;
    }

    /** Chooses candidate i if it counted enough. */
    method ChooseIfEnough(i: nat)
      requires Valid() && Prompt() && i < |ckpts| && RefersNoFurther(ckpts, chosen, i)
      modifies this`weighed, this`chosen, this`min, this`max, this`base, this`reqSum, this`reqs, this`comp, this`nComplete,
               this`isComplete, this`made
      ensures (old(Rows()) ==> Rows()) && Valid() && Prompt() && (old(chosen) >= 0 ==> chosen >= 0 && reqSum == old(reqSum))
      ensures !isComplete && chosen >= 0 && old(chosen) < 0 ==> reqSum == vcs.Keys
      ensures old(chosen) >= 0 ==> reqs == old(reqs) && base == old(base) && max == old(max)
      ensures chosen == old(chosen) || (chosen == i && (old(chosen) >= 0 ==> ckpts[i].n > ckpts[old(chosen)].n))
      ensures Enough(f, ckpts[i].nProofs, ckpts[i].nLe) ==> chosen >= 0 && ckpts[chosen].n >= ckpts[i].n
      ensures (old(isComplete) ==> isComplete) && (old(Made()) ==> Made())
    {
      hide RowsTallied;
      if ckpts[i].nProofs >= f + 1 && ckpts[i].nLe >= 2 * f + 1 {
        ChooseCkpt(i);
      }
    }

    /** Weighs vc for candidate i, the candidates from i on being as they were before vc arrived. */
    method WeighCkpt(i: nat, vc: VC, ghost before: map<int, VC>, ghost was: seq<CkptSum>)
      requires Valid() && i < |ckpts| == |was| && ckpts[i] == was[i]
      requires vc.id !in before && vcs == before[vc.id := vc] && CkptsOK(before, was) && WellFormedVC(f, vc)
      modifies this`ckpts
      ensures Valid() && ckpts == old(ckpts)[i := UpdateCkpt(was[i], vc)]
      ensures (old(Prompt()) ==> Prompt()) && (old(Rows()) ==> Rows())
    {
      hide RowsTallied, VCsOK, TableOK, CompOK, ValidNewView, CkptSumOK, Done, RangeSelected, WellFormedVC, UpdateCkpt;
      UpdateCkptOK(f, before, vc.id, vc, was[i]);
      UpdateCkptGrows(was[i], vc);
      CkptReplaced(vcs, ckpts, i, UpdateCkpt(was[i], vc));
      ckpts := ckpts[i := UpdateCkpt(ckpts[i], vc)];
    }

    /** How many of the view-changes hold the checkpoint. */
    method CountHolders(n: Seqno, d: Digest) returns (count: nat)
      requires CountsSound()
      ensures count == |Holders(vcs, n, d)|
    {
      hide CkptsOK, TableOK, CompOK, ValidNewView, Done, RangeOK, Ckpt, Holders;
      count := 0;
      AllBelowHolders(f, v, vcs, n, d);
      for i := 0 to 3 * f + 1
        invariant count == |HoldersBelow(vcs, i, n, d)|
      {
        HoldersNext(vcs, i, n, d);
        if i in vcs && Ckpt(vcs[i], n) == Some(d) {
          count := count + 1;
        }
      }
    }

    /**
     * summarize: puts vc into the new view and weighs it.  vc is well formed,
     * for this view, and the first of its author.
     */
    method Summarize(vc: VC)
      requires Valid() && Prompt() && Made() && Highest(f, ckpts, chosen) && Ascending(ckpts) && !isComplete
      requires vc.id !in vcs && vc.view == v && WellFormedVC(f, vc)
      modifies this
      ensures Valid() && Prompt() && Made() && Highest(f, ckpts, chosen) && Ascending(ckpts)
      ensures old(Tallied()) ==> Tallied()
      ensures isComplete ==> made.Some? && ValidNewView(f, made.value)
      ensures old(chosen) >= 0 ==> chosen >= 0 && max == old(max)
      ensures vcs == old(vcs)[vc.id := vc] && ckpts == CkptsWeighed(old(ckpts), vcs, vc)
      ensures old(chosen) >= 0 && !isComplete ==> reqSum == old(reqSum) + {vc.id}
      ensures old(chosen) >= 0 && !isComplete ==>
                RowsWeighed(f, old(reqs), reqs, base, min, max, vc, Summed(vcs, reqSum)) && base == old(base)
      ensures old(chosen) < 0 <= chosen && !isComplete ==> reqSum == vcs.Keys
    {
      hide RowsTallied, CkptsTallied, VCsOK, CkptsOK, TableOK, CompOK, ValidNewView, Done, RangeOK, SettledBut, RowWeighed, Highest,
           CkptsWeighed;
      ghost var before, was := vcs, ckpts;
      ghost var came := arrived;
      Arrive(vc);
      var wasChosen := chosen >= 0;
      WeighCkpts(vc, before, was);
      if wasChosen && !isComplete {
        SummarizeReqs(vc.id);
      }
      if old(Tallied()) {
        AfterNext(came, vc.id, vc.id);
        CkptDigests(before, was);
        ArrivalCkpts(before, came, vc.id, vc, was);
        WeighedTallied(vcs, came, vc, was);
      }
    }

    method Arrive(vc: VC)
      requires Valid() && vc.id !in vcs && vc.view == v && WellFormedVC(f, vc)
      modifies this`vcs, this`arrived
      ensures Valid() && vcs == old(vcs)[vc.id := vc]
      ensures (old(Prompt()) ==> Prompt()) && (old(Rows()) ==> Rows()) && arrived == old(arrived) + [vc.id]
    {
      hide RowsTallied, CkptsOK, TableOK, CompOK, ValidNewView, Done, WellFormedVC, RangeSelected;
      ArrivalKeeps(f, vcs, reqSum, vc, base, ckpts, reqs);
      if chosen >= 0 {
        RangeGrows(f, vcs, vc.id, vc, max);
      }
      if !isComplete && Rows() {
        ArrivalTallied(f, vcs, weighed, vc.id, vc, base, min, reqs);
      }
      arrived := arrived + [vc.id];
      vcs := vcs[vc.id := vc];
    }

    /** Weighs vc for candidate i and chooses it if it counted enough. */
    method WeighAndChoose(i: nat, vc: VC, ghost before: map<int, VC>, ghost was: seq<CkptSum>)
      requires Valid() && Prompt() && Highest(f, ckpts, chosen)
      requires vc.id !in before && vcs == before[vc.id := vc] && WellFormedVC(f, vc)
      requires i < |ckpts| == |was| && ckpts[i] == was[i] && CkptsOK(before, was)
      requires Ascending(was) && PartlyWeighed(was, ckpts, vc)
      modifies this`weighed, this`ckpts, this`chosen, this`min, this`max, this`base, this`reqSum, this`reqs, this`comp,
               this`nComplete, this`isComplete, this`made
      ensures (old(Rows()) ==> Rows()) && Valid() && Prompt() && Highest(f, ckpts, chosen) && ckpts == old(ckpts)[i := UpdateCkpt(was[i], vc)]
      ensures old(chosen) >= 0 ==> chosen >= 0 && reqSum == old(reqSum) && reqs == old(reqs) && base == old(base) && max == old(max)
      ensures !isComplete && chosen >= 0 && old(chosen) < 0 ==> reqSum == vcs.Keys
      ensures (old(isComplete) ==> isComplete) && (old(Made()) ==> Made())
    {
      hide RowsTallied, Prompt, CkptsOK, VCsOK, TableOK, CompOK, ValidNewView, Done, RangeOK, Settled, WellFormedVC, UpdateCkpt, Enough;
      UpdateCkptGrows(was[i], vc);
      WeighCkpt(i, vc, before, was);
      UpdatedRefersFurther(was, ckpts, vc, chosen, i);
      ChooseIfEnough(i);
    }

    /** Adds a candidate for the stable checkpoint of vc, which no other matches, and chooses it if it counted enough. */
    method AddFresh(vc: VC, nLe: nat, maxSeqno: Seqno, ghost before: map<int, VC>, ghost was: seq<CkptSum>)
      requires Valid() && Prompt() && Highest(f, ckpts, chosen)
      requires vc.id !in before && vcs == before[vc.id := vc] && WellFormedVC(f, vc) && StableDigest(vc) != NULL_DIGEST
      requires CkptsOK(before, was) && |ckpts| == |was|
      requires forall t :: 0 <= t < |was| ==> ckpts[t] == UpdateCkpt(was[t], vc)
      requires nLe == CountBelow(was, vc.ls) && maxSeqno == MaxBelow(was, vc.ls, MaxSeqno(vc))
      modifies this`weighed, this`ckpts, this`chosen, this`min, this`max, this`base, this`reqSum, this`reqs, this`comp,
               this`nComplete, this`isComplete, this`made
      ensures (old(Rows()) ==> Rows()) && Valid() && Prompt() && Highest(f, ckpts, chosen)
      ensures ckpts == old(ckpts) + [FreshCkpt(vcs, was, vc)]
      ensures old(chosen) >= 0 ==> chosen >= 0 && reqSum == old(reqSum) && reqs == old(reqs) && base == old(base) && max == old(max)
      ensures !isComplete && chosen >= 0 && old(chosen) < 0 ==> reqSum == vcs.Keys
      ensures (old(isComplete) ==> isComplete) && (old(Made()) ==> Made())
    {
      hide RowsTallied, VCsOK, CkptsOK, TableOK, CompOK, ValidNewView, Done, RangeOK, Settled, WellFormedVC, UpdateCkpt, Enough,
           StableDigest, CountBelow, MaxBelow, Holders;
      var vclc := StableDigest(vc);
      var nProofs := CountHolders(vc.ls, vclc);
      var ns := CkptSum(vc.ls, vclc, nProofs, nLe + 1, maxSeqno, vc.id);
      CkptsGrow(before, vc, was);
      NotProposer(before, was, vc);
      FreshCkptOK(f, vcs, was, vc);
      UpdatedThenFresh(vcs, ckpts, was, vc, ns);
      SoundBounds(f, vc);
      FreshRefersFurther(vcs, before, was, ckpts, vc, chosen);
      ckpts := ckpts + [ns];
      ChooseIfEnough(|ckpts| - 1);
    }

    /** Weighs the stable checkpoint of vc against the candidates and adds one for it if none matches. */
    method WeighCkpts(vc: VC, ghost before: map<int, VC>, ghost was: seq<CkptSum>)
      requires Valid() && Prompt() && Highest(f, ckpts, chosen)
      requires vc.id !in before && vcs == before[vc.id := vc] && WellFormedVC(f, vc)
      requires ckpts == was && CkptsOK(before, was) && Ascending(was)
      modifies this`weighed, this`ckpts, this`chosen, this`min, this`max, this`base, this`reqSum, this`reqs, this`comp,
               this`nComplete, this`isComplete, this`made
      ensures (old(Rows()) ==> Rows()) && Valid() && Prompt() && Highest(f, ckpts, chosen)
      ensures ckpts == CkptsWeighed(was, vcs, vc) && Ascending(ckpts)
      ensures old(chosen) >= 0 ==> chosen >= 0 && reqSum == old(reqSum) && reqs == old(reqs) && base == old(base) && max == old(max)
      ensures !isComplete && chosen >= 0 && old(chosen) < 0 ==> reqSum == vcs.Keys
      ensures old(Made()) ==> Made()
    {
      hide Rows, Valid, Prompt, Made, CkptsOK, Ckpt, WellFormedVC, UpdateCkpt, Highest, MaxSeqno, HasCkpt;
      var size := |ckpts|;
      var vclc := StableDigest(vc);
      var matched, nLe, maxSeqno := false, 0, MaxSeqno(vc);
      NoCkptYet(was, vc);
      for i := 0 to size
        invariant (old(Rows()) ==> Rows()) && Valid() && Prompt() && Highest(f, ckpts, chosen) && |ckpts| == size
        invariant old(chosen) >= 0 ==> chosen >= 0 && reqSum == old(reqSum) && reqs == old(reqs) && base == old(base) && max == old(max)
        invariant !isComplete && chosen >= 0 && old(chosen) < 0 ==> reqSum == vcs.Keys
        invariant old(Made()) ==> Made()
        invariant forall t :: i <= t < size ==> ckpts[t] == was[t]
        invariant forall t :: 0 <= t < i ==> ckpts[t] == UpdateCkpt(was[t], vc)
        invariant nLe == CountBelow(was[..i], vc.ls) && maxSeqno == MaxBelow(was[..i], vc.ls, MaxSeqno(vc))
        invariant matched == HasCkpt(was[..i], vc)
      {
        var cur := ckpts[i];
        assert was[..i + 1][..i] == was[..i];
        HasCkptNext(was, i, vc);
        if cur.n == vc.ls && cur.d == vclc {
          matched := true;
        } else if cur.n < vc.ls {
          nLe := nLe + 1;
          maxSeqno := if cur.maxSeqno > maxSeqno then cur.maxSeqno else maxSeqno;
        }
        WeighAndChoose(i, vc, before, was);
      }
      assert was[..size] == was;
      SoundBounds(f, vc);
      WeighedAscends(before, was, vcs, vc);
      if !matched && vclc != NULL_DIGEST {
        AddFresh(vc, nLe, maxSeqno, before, was);
      }
    }

    /** While the new view is not made, some row of the range has no request that is ready. */
    lemma WaitsForRequest() returns (k: nat)
      requires Valid() && Prompt() && !isComplete && chosen >= 0 && min < max
      ensures k < |reqs| && min < base + k < max && comp[k] < 0 && forall u :: 0 <= u < |reqs[k]| ==> !AtHand(f, Logged(), base + k, reqs[k][u])
    {
      hide VCsOK, CkptsOK, TableOK, CompOK, RangeOK, ValidNewView, Done, AtHand;
      DoneCountsRange(comp, base, min);
      var i :| 0 <= i < |comp| && min < base + i && comp[i] < 0;
      k := i;
    }

    /** Notes that candidate j of sequence number n is now q, for which more is at hand, and checks it. */
    method Note(n: Seqno, j: nat, q: ReqSum)
      requires Valid() && Prompt() && Made() && chosen >= 0 && min < n < max && comp[n - base] < 0 && j < |reqs[n - base]|
      requires IsNoted(f, reqs[n - base][j], q)
      modifies this`reqs, this`comp, this`nComplete, this`isComplete, this`made
      ensures Valid() && Prompt() && Made() && (old(Tallied()) ==> Tallied())
      ensures TableChecked(f, old(reqs), reqs, old(comp), comp, n - base, j, q, (n, q.d) in logged, (n, q.d) in prepares)
    {
      hide RowsTallied, CkptsTallied, VCsOK, CkptsOK, TableOK, CompOK, Done, RangeOK, ValidNewView, RowChecked;
      ghost var k, was, comp' := n - base, reqs, comp;
      RowKeepsCounts(f, Summed(vcs, reqSum), base, reqs, comp, k, j, q);
      reqs := reqs[n - base := reqs[n - base][j := q]];
      CheckComp(n, j);
      if old(Rows()) && !isComplete {
        TableNoted(f, vcs, weighed, base, min, was, reqs, comp', comp, k, j, q, (n, q.d) in logged, (n, q.d) in prepares);
      }
    }

    /**
     * A request that 2f + 1 of the view-changes summarised report, and that is
     * null or at hand, is the complete request of its number, or another is.
     */
    lemma AgreedIsComplete(n: Seqno, cv: View, cd: Digest)
      requires Valid() && Tallied() && !isComplete && chosen >= 0 && min < n < max
      requires |Reporters(Summed(vcs, reqSum), n, cv, cd)| >= 2 * f + 1 && (cv < 0 || Obtained(n, cv, cd))
      ensures comp[n - base] >= 0
    {
      hide VCsOK, CkptsOK, TableOK, CompOK, Done, RangeOK, ValidNewView, CkptsTallied, RowTallied, Reporters, AtHand;
      var k := n - base;
      assert RowTallied(f, vcs, weighed, base + k, reqs[k]);
      var j := AgreedCounts(f, vcs, weighed, n, reqs[k], cv, cd);
      Consult(f, Logged(), n, reqs[k][j]);
    }

    /** Every number of the range has a request that 2f + 1 view-changes report and that is null or at hand. */
    ghost predicate Agreed()
      reads this
    {
      forall n :: min < n < max ==> AgreedAt(n)
    }

    /** The pre-prepare of the request is in the log, or turned up for its candidate. */
    ghost predicate Obtained(n: Seqno, cv: View, cd: Digest)
      reads this
    {
      (n, cd) in logged || (0 <= n - base < |reqs| && HasPrePrepare(reqs[n - base], cv, cd))
    }

    ghost predicate AgreedAt(n: Seqno)
      reads this
    {
      exists cv, cd :: |Reporters(vcs, n, cv, cd)| >= 2 * f + 1 && (cv < 0 || Obtained(n, cv, cd))
    }

    /** If 2f + 1 view-changes report one stable checkpoint, a start is chosen, no lower than it. */
    lemma AgreedIsChosen(n: Seqno, d: Digest)
      requires Valid() && Tallied() && Highest(f, ckpts, chosen)
      requires d != NULL_DIGEST && |StableAt(vcs, n, d)| >= 2 * f + 1
      ensures chosen >= 0 && min >= n
    {
      hide VCsOK, CkptsOK, TableOK, CompOK, Done, ValidNewView, CkptsTallied, RowsTallied, RangeSelected;
      var j := AgreedCkpt(f, vcs, arrived, ckpts, n, d);
    }

    /** In the ordinary case, when 2f + 1 view-changes agree, the new view is made. */
    lemma AgreedIsMade()
      requires Valid() && Tallied() && Prompt() && Made() && chosen >= 0 && min < max && Agreed()
      ensures isComplete && made.Some? && made.value.vcs == vcs
    {
      hide VCsOK, CkptsOK, TableOK, CompOK, Done, RangeOK, ValidNewView, CkptsTallied, RowsTallied, Reporters, AtHand;
      if !isComplete {
        var k := WaitsForRequest();
        AllSummed(vcs);
        assert AgreedAt(base + k);
        var cv, cd :| |Reporters(vcs, base + k, cv, cd)| >= 2 * f + 1 && (cv < 0 || Obtained(base + k, cv, cd));
        AgreedIsComplete(base + k, cv, cd);
        assert false;
      }
    }

    /** The first candidate with digest d in the row of n, if n is in the range and has no complete request. */
    ghost function Wanted(n: Seqno, d: Digest): Option<(nat, ReqSum)>
      reads this
    {
      if chosen >= 0 && min < n < max && 0 <= n - base < |reqs| && n - base < |comp| && comp[n - base] < 0
         && FirstWith(reqs[n - base], d) < |reqs[n - base]|
      then Some((FirstWith(reqs[n - base], d), reqs[n - base][FirstWith(reqs[n - base], d)])) else None
    }

    /** add_missing(Pre_prepare): the requests of digest d for n turned up. */
    method AddMissingPrePrepare(n: Seqno, d: Digest)
      requires Valid() && Prompt() && Made()
      modifies this`reqs, this`comp, this`nComplete, this`isComplete, this`made
      ensures Valid() && Prompt() && Made() && (old(Tallied()) ==> Tallied())
      ensures var w := old(Wanted(n, d));
              if w.Some? && !w.value.1.pp then
                TableChecked(f, old(reqs), reqs, old(comp), comp, n - base, w.value.0, w.value.1.(pp := true),
                             (n, d) in logged, (n, d) in prepares)
              else reqs == old(reqs) && comp == old(comp)
    {
      hide RowsTallied, CkptsTallied, VCsOK, CkptsOK, TableOK, CompOK, Done, RangeOK, ValidNewView, FirstWith, RowChecked;
      if chosen >= 0 && min < n < max && comp[n - base] < 0 {
        var k := n - base;
        for j := 0 to |reqs[k]|
          invariant |reqs| == old(|reqs|) && Valid() && reqs == old(reqs) && comp == old(comp)
          invariant forall t :: 0 <= t < j ==> reqs[k][t].d != d
        {
          if reqs[k][j].d == d {
            FirstIs(reqs[k], d, j);
            assert old(Wanted(n, d)) == Some((j, reqs[k][j]));
            if !reqs[k][j].pp {
              Note(n, j, reqs[k][j].(pp := true));
            }
            return;
          }
        }
        FirstIs(reqs[k], d, |reqs[k]|);
      }
    }

    /** add_missing(Prepare): replica id sent a prepare for digest d at n; it counts once, and until enough did. */
    method AddMissingPrepare(id: int, n: Seqno, d: Digest)
      requires Valid() && Prompt() && Made()
      modifies this`reqs, this`comp, this`nComplete, this`isComplete, this`made
      ensures Valid() && Prompt() && Made() && (old(Tallied()) ==> Tallied())
      ensures var w := old(Wanted(n, d));
              if w.Some? && Counts(w.value.1, f, id) then
                TableChecked(f, old(reqs), reqs, old(comp), comp, n - base, w.value.0, OneMore(w.value.1, id),
                             (n, d) in logged, (n, d) in prepares)
              else reqs == old(reqs) && comp == old(comp)
    {
      hide RowsTallied, CkptsTallied, VCsOK, CkptsOK, TableOK, CompOK, Done, RangeOK, ValidNewView, FirstWith, RowChecked;
      if chosen >= 0 && min < n < max && comp[n - base] < 0 {
        var k := n - base;
        for j := 0 to |reqs[k]|
          invariant |reqs| == old(|reqs|) && Valid() && reqs == old(reqs) && comp == old(comp)
          invariant forall t :: 0 <= t < j ==> reqs[k][t].d != d
        {
          var cur := reqs[k][j];
          if cur.d == d {
            FirstIs(reqs[k], d, j);
            assert old(Wanted(n, d)) == Some((j, reqs[k][j]));
            if cur.nPproofs <= f && id !in cur.rPproofs {
              CountsOnce(cur, f, id);
              Note(n, j, OneMore(cur, id));
            }
            return;
          }
        }
        FirstIs(reqs[k], d, |reqs[k]|);
      }
    }
  }

  ghost predicate HasPrePrepare(row: seq<ReqSum>, cv: View, cd: Digest) {
    forall u :: 0 <= u < |row| && row[u].v == cv && row[u].d == cd ==> row[u].pp
  }

  lemma Consult(f: nat, logs: Logs, n: Seqno, q: ReqSum)
    requires Enough(f, q.nProofs, q.nLe) && q.nPproofs > f && (q.v < 0 || q.pp || (n, q.d) in logs.logged)
    ensures AtHand(f, logs, n, q)
  {
  }

  lemma TableNoted(f: nat, vcs: map<int, VC>, order: seq<int>, base: Seqno, min: Seqno, was: seq<seq<ReqSum>>,
                   now: seq<seq<ReqSum>>, comp: seq<int>, comp': seq<int>, k: int, j: nat, q: ReqSum, lg: bool, pr: bool)
    requires RowsTallied(f, vcs, order, base, min, was) && 0 <= k < |was| && j < |was[k]| && IsNoted(f, was[k][j], q)
    requires TableChecked(f, was, now, comp, comp', k, j, q, lg, pr)
    ensures RowsTallied(f, vcs, order, base, min, now)
  {
    hide RowsTallied;
    NotedTallied(f, vcs, order, base, min, was, now, k, j);
  }

  predicate Counts(q: ReqSum, f: nat, id: int) {
    q.nPproofs <= f && id !in q.rPproofs
  }

  function OneMore(q: ReqSum, id: int): ReqSum {
    q.(nPproofs := q.nPproofs + 1, rPproofs := q.rPproofs + {id})
  }

  lemma CkptDigests(vcs: map<int, VC>, ckpts: seq<CkptSum>)
    requires CkptsOK(vcs, ckpts)
    ensures forall t :: 0 <= t < |ckpts| ==> ckpts[t].d != NULL_DIGEST
  {
    hide Ckpt, LowerEnding, Holders, MaxSeqno;
    forall t | 0 <= t < |ckpts| ensures ckpts[t].d != NULL_DIGEST {
      assert CkptSumOK(vcs, ckpts[t]);
    }
  }

  /** A prepare counts, and a second one of the same replica does not. */
  lemma CountsOnce(q: ReqSum, f: nat, id: int)
    requires Counts(q, f, id)
    ensures IsNoted(f, q, OneMore(q, id)) && !Counts(OneMore(q, id), f, id) && OneMore(q, id).nPproofs == q.nPproofs + 1
    ensures forall k :: k != id && OneMore(q, id).nPproofs <= f ==> (Counts(OneMore(q, id), f, k) <==> Counts(q, f, k))
  {
    SizeAdd(q.rPproofs, id);
  }

  /**
   * A candidate is at hand if it counted enough and is null, or its pre-prepare
   * turned up or is logged and enough of its proofs are positive: f + 1, or the
   * replica's own word, which is a prepare it sent or the pre-prepare in its log.
   */
  lemma AtHandIff(f: nat, logs: Logs, n: Seqno, q: ReqSum)
    ensures AtHand(f, logs, n, q) <==>
              && q.nProofs >= f + 1 && q.nLe >= 2 * f + 1
              && (|| q.v < 0
                  || (q.pp && (q.nPproofs > f || (n, q.d) in logs.prepares))
                  || (!q.pp && (n, q.d) in logs.logged))
  {
  }

  lemma NoCkptYet(ckpts: seq<CkptSum>, vc: VC)
    ensures !HasCkpt(ckpts[..0], vc)
  {
  }

  lemma HasCkptNext(ckpts: seq<CkptSum>, j: nat, vc: VC)
    requires j < |ckpts|
    ensures HasCkpt(ckpts[..j + 1], vc) <==> HasCkpt(ckpts[..j], vc) || Matches(ckpts[j], vc)
  {
    hide Matches;
    var all, before := ckpts[..j + 1], ckpts[..j];
    if HasCkpt(before, vc) {
      var t :| 0 <= t < j && Matches(before[t], vc);
      assert Matches(all[t], vc);
    }
    if Matches(ckpts[j], vc) {
      assert Matches(all[j], vc);
    }
    if HasCkpt(all, vc) {
      var t :| 0 <= t <= j && Matches(all[t], vc);
      assert t < j ==> Matches(before[t], vc);
    }
  }

  lemma UpdateCkptGrows(c: CkptSum, vc: VC)
    ensures var c' := UpdateCkpt(c, vc);
            && c'.n == c.n && c'.d == c.d && c'.id == c.id && c'.nProofs >= c.nProofs && c'.nLe >= c.nLe
            && c'.maxSeqno >= c.maxSeqno
  {
    hide Ckpt;
  }

  lemma CkptReplaced(vcs: map<int, VC>, ckpts: seq<CkptSum>, i: nat, c: CkptSum)
    requires CkptsOK(vcs, ckpts) && i < |ckpts| && CkptSumOK(vcs, c) && c.id == ckpts[i].id
    ensures CkptsOK(vcs, ckpts[i := c])
  {
    hide CkptSumOK;
  }

  function HoldersBelow(vcs: map<int, VC>, j: int, n: Seqno, d: Digest): set<int> {
    set i | i in vcs && i < j && Ckpt(vcs[i], n) == Some(d)
  }

  lemma HoldersNext(vcs: map<int, VC>, j: int, n: Seqno, d: Digest)
    ensures |HoldersBelow(vcs, j + 1, n, d)| ==
      |HoldersBelow(vcs, j, n, d)| + if j in vcs && Ckpt(vcs[j], n) == Some(d) then 1 else 0
  {
    hide Ckpt;
    AddedTo(HoldersBelow(vcs, j, n, d), HoldersBelow(vcs, j + 1, n, d), j, j in vcs && Ckpt(vcs[j], n) == Some(d));
  }

  lemma AllBelowHolders(f: nat, v: View, vcs: map<int, VC>, n: Seqno, d: Digest)
    requires VCsOK(f, v, vcs)
    ensures HoldersBelow(vcs, 3 * f + 1, n, d) == Holders(vcs, n, d) && HoldersBelow(vcs, 0, n, d) == {}
  {
    hide Ckpt;
    forall i | i in vcs ensures 0 <= i < 3 * f + 1 {
      assert WellFormedVC(f, vcs[i]);
    }
  }

  /** The author of a new view-change proposed no candidate yet. */
  lemma NotProposer(vcs: map<int, VC>, ckpts: seq<CkptSum>, vc: VC)
    requires CkptsOK(vcs, ckpts) && vc.id !in vcs
    ensures forall i :: 0 <= i < |ckpts| ==> ckpts[i].id != vc.id
  {
    forall i | 0 <= i < |ckpts| ensures ckpts[i].id != vc.id {
      assert CkptSumOK(vcs, ckpts[i]);
    }
  }

  lemma UpdatedThenFresh(vcs: map<int, VC>, ckpts: seq<CkptSum>, was: seq<CkptSum>, vc: VC, ns: CkptSum)
    requires CkptsOK(vcs, ckpts) && CkptsOK(vcs, was + [ns]) && |ckpts| == |was|
    requires forall t :: 0 <= t < |was| ==> ckpts[t] == UpdateCkpt(was[t], vc)
    ensures CkptsOK(vcs, ckpts + [ns])
  {
    hide CkptSumOK, UpdateCkpt;
    var all := was + [ns];
    assert CkptSumOK(vcs, all[|was|]);
    forall t | 0 <= t < |was| ensures ckpts[t].id != ns.id {
      UpdateCkptGrows(was[t], vc);
      assert all[t].id != all[|was|].id;
    }
  }

  lemma IdOf(f: nat, v: View, vcs: map<int, VC>, id: int)
    requires VCsOK(f, v, vcs) && id in vcs
    ensures vcs[id].id == id
  {
  }

  lemma RowOf(vcs: map<int, VC>, base: Seqno, reqs: seq<seq<ReqSum>>, i: Seqno)
    requires TableOK(vcs, base, reqs) && 0 <= i - base < |reqs|
    ensures ReqsOK(vcs, i, reqs[i - base])
  {
    assert ReqsOK(vcs, base + (i - base), reqs[i - base]);
  }

  function BelowIds(vcs: map<int, VC>, i: int): set<int> {
    set k | k in vcs && k < i
  }

  lemma AllBelow(f: nat, v: View, vcs: map<int, VC>)
    requires VCsOK(f, v, vcs)
    ensures BelowIds(vcs, 3 * f + 1) == vcs.Keys && BelowIds(vcs, 0) == {}
  {
    forall i | i in vcs ensures 0 <= i < 3 * f + 1 {
      assert WellFormedVC(f, vcs[i]);
    }
  }

  /** A candidate that counted enough gives a start and a range. */
  lemma RangeChosen(f: nat, vcs: map<int, VC>, ckpts: seq<CkptSum>, index: nat)
    requires CkptsOK(vcs, ckpts) && index < |ckpts| && Enough(f, ckpts[index].nProofs, ckpts[index].nLe)
    ensures var c := ckpts[index]; c.n <= c.maxSeqno && RangeOK(f, vcs, c, c.n, c.maxSeqno + 1)
  {
    hide RangeSelected, CkptSelected, Ckpt, LowerEnding, Holders, MaxSeqno;
    assert CkptSumOK(vcs, ckpts[index]);
    ChosenIsSelected(f, vcs, ckpts[index]);
  }

  lemma NothingDone(f: nat, base: Seqno, min: Seqno, reqs: seq<seq<ReqSum>>, comp: seq<int>, vcs: map<int, VC>)
    requires |comp| == |reqs| && forall k :: 0 <= k < |comp| ==> comp[k] == -1 && reqs[k] == []
    ensures TableOK(vcs, base, reqs) && CompOK(f, reqs, comp) && |Done(comp, base, min)| == 0
  {
    assert Done(comp, base, min) == {};
  }

  /** Consulting the logs a second time says nothing new. */
  lemma ConsultedIs(f: nat, logs: Logs, n: Seqno, q: ReqSum)
    ensures var q' := Consulted(q, f, (n, q.d) in logs.logged, (n, q.d) in logs.prepares);
            && (AtHand(f, logs, n, q) <==> ReqReady(f, q')) && (AtHand(f, logs, n, q') <==> ReqReady(f, q'))
            && q' == q.(pp := q'.pp, nPproofs := q'.nPproofs)
  {
  }

  /** A row is settled when its last candidate is checked: it is not at hand, or the row is complete. */
  lemma SettledThen(f: nat, logs: Logs, base: Seqno, reqs: seq<seq<ReqSum>>, comp: seq<int>, k: nat, j: nat, q: ReqSum)
    requires |comp| == |reqs| && k < |reqs| && j < |reqs[k]| && SettledBut(f, logs, base, reqs, comp, k, j)
    ensures comp[k] >= 0 || !AtHand(f, logs, base + k, q) ==> Settled(f, logs, base, reqs[k := reqs[k][j := q]], comp)
    ensures Settled(f, logs, base, reqs[k := reqs[k][j := q]], comp[k := j])
    ensures q == reqs[k][j] ==> reqs[k := reqs[k][j := q]] == reqs
  {
    hide AtHand;
    if q == reqs[k][j] {
      assert reqs[k][j := q] == reqs[k];
    }
  }

  lemma NothingSettled(f: nat, logs: Logs, base: Seqno, reqs: seq<seq<ReqSum>>, comp: seq<int>)
    requires |comp| == |reqs| && forall k :: 0 <= k < |comp| ==> reqs[k] == []
    ensures Settled(f, logs, base, reqs, comp)
  {
  }

  lemma NoRowWeighed(f: nat, reqs: seq<seq<ReqSum>>, base: Seqno, min: Seqno, max: Seqno, vc: VC, vcs: map<int, VC>)
    requires Max(min, vc.ls) + 1 >= max
    ensures RowsWeighed(f, reqs, reqs, base, min, max, vc, vcs)
  {
  }

  lemma HasRequestNext(list: seq<ReqSum>, j: nat, v: View, d: Digest)
    requires j < |list|
    ensures HasRequest(list[..j + 1], v, d) <==> HasRequest(list[..j], v, d) || (list[j].v == v && list[j].d == d)
  {
    var all, before := list[..j + 1], list[..j];
    if HasRequest(before, v, d) {
      var t :| 0 <= t < j && before[t].v == v && before[t].d == d;
      assert all[t].v == v && all[t].d == d;
    }
    if list[j].v == v && list[j].d == d {
      assert all[j].v == v && all[j].d == d;
    }
    if HasRequest(all, v, d) {
      var t :| 0 <= t <= j && all[t].v == v && all[t].d == d;
      assert t < j ==> before[t].v == v && before[t].d == d;
    }
  }

  lemma SettledUpdate(f: nat, logs: Logs, base: Seqno, reqs: seq<seq<ReqSum>>, comp: seq<int>, k: nat, j: nat, q: ReqSum)
    requires Settled(f, logs, base, reqs, comp) && k < |reqs| && j < |reqs[k]|
    ensures SettledBut(f, logs, base, reqs[k := reqs[k][j := q]], comp, k, j)
  {
    hide AtHand;
  }

  lemma SettledAppend(f: nat, logs: Logs, base: Seqno, reqs: seq<seq<ReqSum>>, comp: seq<int>, k: nat, q: ReqSum)
    requires Settled(f, logs, base, reqs, comp) && k < |reqs|
    ensures SettledBut(f, logs, base, reqs[k := reqs[k] + [q]], comp, k, |reqs[k]|)
  {
    hide AtHand;
  }

  /** Only candidate j may differ, and not in which request it is. */
  ghost predicate RowKept(was: seq<ReqSum>, now: seq<ReqSum>, j: nat) {
    && |now| == |was|
    && (forall t :: 0 <= t < |was| && t != j ==> now[t] == was[t])
    && (j < |was| ==> now[j].id == was[j].id && now[j].v == was[j].v && now[j].d == was[j].d)
  }

  /** The same candidates, whatever was counted for them. */
  ghost predicate SameRequests(was: seq<ReqSum>, now: seq<ReqSum>) {
    |now| == |was| && forall t :: 0 <= t < |was| ==>
      now[t].id == was[t].id && now[t].v == was[t].v && now[t].d == was[t].d
  }

  /** The part of vcs below id j. */
  function UpTo(vcs: map<int, VC>, j: int): map<int, VC> {
    map i | i in vcs && i < j :: vcs[i]
  }

  lemma NoProofs(vcs: map<int, VC>, n: Seqno, cv: View, cd: Digest)
    requires forall i :: i in vcs ==> 0 <= i
    ensures |ProofSet(UpTo(vcs, 0), n, cv, cd)| == 0 && Affirmers(UpTo(vcs, 0), n, cv, cd) == {}
  {
    assert ProofSet(UpTo(vcs, 0), n, cv, cd) == {};
  }

  lemma AffirmersNext(vcs: map<int, VC>, j: int, n: Seqno, cv: View, cd: Digest)
    ensures j !in Affirmers(UpTo(vcs, j), n, cv, cd)
    ensures Affirmers(UpTo(vcs, j + 1), n, cv, cd)
         == Affirmers(UpTo(vcs, j), n, cv, cd) + if j in vcs && Affirms(vcs[j], n, cv, cd) then {j} else {}
  {
    hide Affirms;
  }

  lemma ProofsNext(vcs: map<int, VC>, j: int, n: Seqno, cv: View, cd: Digest)
    ensures |ProofSet(UpTo(vcs, j + 1), n, cv, cd)| ==
      |ProofSet(UpTo(vcs, j), n, cv, cd)| + if j in vcs && ProofVouches(vcs[j], n, cv, cd) then 1 else 0
  {
    hide ProofVouches;
    AddedTo(ProofSet(UpTo(vcs, j), n, cv, cd), ProofSet(UpTo(vcs, j + 1), n, cv, cd), j,
            j in vcs && ProofVouches(vcs[j], n, cv, cd));
  }

  lemma AddProofsKeeps(q: ReqSum, vc: VC, n: Seqno)
    ensures var r := AddProofs(q, vc, n);
            && r == q.(nProofs := r.nProofs, nPproofs := r.nPproofs, rPproofs := r.rPproofs)
            && r.nPproofs == q.nPproofs + (if Affirms(vc, n, q.v, q.d) then 1 else 0)
            && r.rPproofs == q.rPproofs + (if Affirms(vc, n, q.v, q.d) then {vc.id} else {})
  {
  }

  lemma AllUpTo(f: nat, v: View, vcs: map<int, VC>, ids: set<int>)
    requires VCsOK(f, v, vcs)
    ensures UpTo(Summed(vcs, ids), 3 * f + 1) == Summed(vcs, ids)
    ensures forall i :: i in Summed(vcs, ids) ==> 0 <= i
  {
    forall i | i in vcs ensures 0 <= i < 3 * f + 1 {
      assert WellFormedVC(f, vcs[i]);
    }
  }

  /** Candidate j of row k after vc is weighed for it, the candidates from j on being as they were. */
  lemma UpdatedRow(f: nat, some: map<int, VC>, vc: VC, base: Seqno, reqs: seq<seq<ReqSum>>, comp: seq<int>,
                   k: nat, j: nat, was: seq<ReqSum>)
    requires k < |reqs| == |comp| && j < |reqs[k]| && vc.id !in some && vc.ls < base + k
    requires TableOK(some[vc.id := vc], base, reqs) && CompOK(f, reqs, comp)
    requires ReqsOK(some, base + k, was) && j < |was| && reqs[k][j] == was[j]
    ensures var reqs' := reqs[k := reqs[k][j := UpdateReq(reqs[k][j], vc, base + k)]];
            TableOK(some[vc.id := vc], base, reqs') && CompOK(f, reqs', comp)
  {
    hide TableOK, CompOK, ReqSumOK, Req, AddProofs, DistinctReqs;
    var q := was[j];
    UpdateReqOK(some, vc.id, vc, base + k, q);
    UpdateGrows(q, vc, base + k);
    RowKeepsCounts(f, some[vc.id := vc], base, reqs, comp, k, j, UpdateReq(q, vc, base + k));
  }

  lemma UpdateGrows(q: ReqSum, vc: VC, n: Seqno)
    requires vc.ls < n
    ensures var r := UpdateReq(q, vc, n);
            && r.nProofs >= q.nProofs && r.nLe >= q.nLe && r.id == q.id && r.v == q.v && r.d == q.d
            && r.pp == q.pp && r.nPproofs >= q.nPproofs
  {
    hide Req;
    AddProofsIs(q, vc, n);
  }

  /** A new candidate at the end of row k, for the request of vc. */
  lemma NewRow(f: nat, some: map<int, VC>, vc: VC, base: Seqno, reqs: seq<seq<ReqSum>>, comp: seq<int>,
               k: nat, was: seq<ReqSum>, q: ReqSum)
    requires k < |reqs| == |comp| && vc.id !in some && vc.ls < base + k
    requires TableOK(some[vc.id := vc], base, reqs) && CompOK(f, reqs, comp)
    requires ReqsOK(some, base + k, was) && SameRequests(was, reqs[k])
    requires q.id == vc.id && (q.v, q.d) == Req(vc, base + k)
    requires q.nLe == CountLower(was, q.v) + 1 && q.nProofs == |ProofSet(some[vc.id := vc], base + k, q.v, q.d)|
    ensures var reqs' := reqs[k := reqs[k] + [q]]; TableOK(some[vc.id := vc], base, reqs') && CompOK(f, reqs', comp)
  {
    hide ReqSumOK, Req, ProofSet;
    var vcs, reqs' := some[vc.id := vc], reqs[k := reqs[k] + [q]];
    SameCount(was, reqs[k], q.v);
    forall t | 0 <= t < |was| ensures reqs[k][t].id != vc.id {
      ReqSource(some, base + k, was[t]);
    }
    assert ReqsOK(vcs, base + k, reqs[k]);
    FreshReqOK(vcs, base + k, reqs[k], vc, q);
    forall t | 0 <= t < |reqs'| ensures ReqsOK(vcs, base + t, reqs'[t]) {
    }
  }

  /** What the logs of the replica itself have for q: its pre-prepare, or that it sent a prepare for it. */
  function Consulted(q: ReqSum, f: nat, logged: bool, prepared: bool): ReqSum {
    var q1 := if !q.pp && logged then q.(pp := true, nPproofs := 3 * f + 1) else q;
    if q1.nPproofs <= f && prepared then q1.(nPproofs := 3 * f + 1) else q1
  }

  /**
   * What check_comp does to candidate j of a row: if the row has no complete request and the candidate counted enough,
   * the logs are consulted, and it becomes the complete request if it is at hand then.
   */
  ghost predicate RowChecked(f: nat, was: seq<ReqSum>, now: seq<ReqSum>, j: nat, comp: int, comp': int,
                             logged: bool, prepared: bool)
    requires j < |was|
  {
    if comp < 0 && Enough(f, was[j].nProofs, was[j].nLe) then
      && now == was[j := Consulted(was[j], f, logged, prepared)]
      && comp' == if ReqReady(f, now[j]) then j else comp
    else now == was && comp' == comp
  }

  /** Candidate j of row k becomes q and is checked; nothing else changes. */
  ghost predicate TableChecked(f: nat, was: seq<seq<ReqSum>>, now: seq<seq<ReqSum>>, comp: seq<int>, comp': seq<int>,
                               k: int, j: nat, q: ReqSum, logged: bool, prepared: bool)
  {
    && 0 <= k < |was| == |now| && k < |comp| == |comp'| && j < |was[k]|
    && OtherRowsKept(was, now, k) && comp' == comp[k := comp'[k]]
    && RowChecked(f, was[k][j := q], now[k], j, comp[k], comp'[k], logged, prepared)
  }

  /** The first candidate of the row with digest d, or the length of the row. */
  function FirstWith(row: seq<ReqSum>, d: Digest): (j: nat)
    ensures j <= |row| && (forall t :: 0 <= t < j ==> row[t].d != d) && (j < |row| ==> row[j].d == d)
  {
    if row == [] || row[0].d == d then 0 else FirstWith(row[1..], d) + 1
  }

  lemma FirstIs(row: seq<ReqSum>, d: Digest, j: nat)
    requires j <= |row| && (forall t :: 0 <= t < j ==> row[t].d != d) && (j < |row| ==> row[j].d == d)
    ensures FirstWith(row, d) == j
  {
  }

  lemma CheckedKept(f: nat, was: seq<ReqSum>, now: seq<ReqSum>, j: nat, comp: int, comp': int,
                    logged: bool, prepared: bool)
    requires j < |was| && RowChecked(f, was, now, j, comp, comp', logged, prepared)
    ensures CandidatesKept(was, now, j)
  {
  }

  /** Only row k may differ. */
  ghost predicate OtherRowsKept(was: seq<seq<ReqSum>>, now: seq<seq<ReqSum>>, k: int) {
    |now| == |was| && forall t :: 0 <= t < |was| && t != k ==> now[t] == was[t]
  }

  /** Only candidate j may differ, and only in what is at hand for it. */
  ghost predicate CandidatesKept(was: seq<ReqSum>, now: seq<ReqSum>, j: nat) {
    && |now| == |was|
    && (forall t :: 0 <= t < |was| && t != j ==> now[t] == was[t])
    && (j < |was| ==> now[j] == was[j].(pp := now[j].pp, nPproofs := now[j].nPproofs))
  }

  /** Candidate j of row k changes without losing a count. */
  lemma RowKeepsCounts(f: nat, vcs: map<int, VC>, base: Seqno, reqs: seq<seq<ReqSum>>, comp: seq<int>, k: nat, j: nat,
                       q: ReqSum)
    requires k < |reqs| == |comp| && j < |reqs[k]| && TableOK(vcs, base, reqs) && CompOK(f, reqs, comp)
    requires q.nProofs >= reqs[k][j].nProofs && q.nLe >= reqs[k][j].nLe && q.id == reqs[k][j].id
    requires (reqs[k][j].pp ==> q.pp) && (reqs[k][j].nPproofs > f ==> q.nPproofs > f) && q.v == reqs[k][j].v
    requires ReqSumOK(vcs, base + k, q) || q == reqs[k][j].(pp := q.pp, nPproofs := q.nPproofs, rPproofs := q.rPproofs)
    ensures var reqs' := reqs[k := reqs[k][j := q]]; TableOK(vcs, base, reqs') && CompOK(f, reqs', comp)
  {
    hide Lower, Vouchers, Req;
    var list, reqs' := reqs[k][j := q], reqs[k := reqs[k][j := q]];
    assert ReqsOK(vcs, base + k, reqs[k]);
    assert ReqSumOK(vcs, base + k, reqs[k][j]);
    assert ReqsOK(vcs, base + k, list);
    forall t | 0 <= t < |reqs'| ensures ReqsOK(vcs, base + t, reqs'[t]) {
    }
  }

  lemma CompleteRow(f: nat, reqs: seq<seq<ReqSum>>, comp: seq<int>, k: nat, j: nat)
    requires k < |reqs| == |comp| && j < |reqs[k]| && CompOK(f, reqs, comp)
    requires ReqReady(f, reqs[k][j])
    ensures CompOK(f, reqs, comp[k := j])
  {
  }

  function PickedId(reqs: seq<seq<ReqSum>>, comp: seq<int>, k: int): int {
    if 0 <= k < |reqs| && k < |comp| && 0 <= comp[k] < |reqs[k]| then reqs[k][comp[k]].id else -1
  }

  lemma CompAt(f: nat, reqs: seq<seq<ReqSum>>, comp: seq<int>, k: int)
    requires |comp| == |reqs| && CompOK(f, reqs, comp)
    ensures 0 <= k < |comp| && comp[k] >= 0 ==>
      comp[k] < |reqs[k]| && ReqReady(f, reqs[k][comp[k]])
      && PickedId(reqs, comp, k) == reqs[k][comp[k]].id
  {
  }

  /** The chosen checkpoint and range are those of a valid new view. */
  lemma StartIsValid(f: nat, nv: NV, ckpts: seq<CkptSum>, chosen: nat)
    requires nv.view > 0 && VCsOK(f, nv.view, nv.vcs) && CkptsOK(nv.vcs, ckpts) && chosen < |ckpts|
    requires RangeOK(f, nv.vcs, ckpts[chosen], nv.min, nv.max) && nv.min < nv.max
    requires nv.min in nv.picked && nv.picked[nv.min] == ckpts[chosen].id
    ensures ValidRange(f, nv)
  {
    hide Verified, Ckpt, RangeSelected, CkptSelected;
    ChosenIsSelected(f, nv.vcs, ckpts[chosen]);
    forall i | i in nv.vcs ensures Verified(nv.vcs[i], 3 * f + 1) {
      assert WellFormedVC(f, nv.vcs[i]);
    }
  }

  /** The complete request of a row is one that the rules select. */
  lemma PickIsValid(f: nat, nv: NV, some: map<int, VC>, base: Seqno, reqs: seq<seq<ReqSum>>, comp: seq<int>, n: Seqno)
    requires forall i :: i in some ==> i in nv.vcs && nv.vcs[i] == some[i]
    requires TableOK(some, base, reqs) && |comp| == |reqs| && CompOK(f, reqs, comp)
    requires 0 <= n - base < |comp| && comp[n - base] >= 0
    requires n in nv.picked && nv.picked[n] == PickedId(reqs, comp, n - base)
    ensures ValidPick(f, nv, n)
  {
    hide CompOK, ReqSelected, Req;
    var k := n - base;
    CompAt(f, reqs, comp, k);
    assert ReqsOK(some, base + k, reqs[k]);
    assert ReqSumOK(some, n, reqs[k][comp[k]]);
    CountedIsSelected(f, some, nv.vcs, n, reqs[k][comp[k]]);
  }

  lemma PicksComplete(f: nat, nv: NV)
    requires ValidRange(f, nv) && forall n :: nv.min < n < nv.max ==> ValidPick(f, nv, n)
    ensures ValidNewView(f, nv)
  {
    hide ValidRange, ValidPick;
  }

  // ------------------------------------------------------------------
  // How the parts of the invariant change
  // ------------------------------------------------------------------

  /** A new view-change leaves everything that was counted sound. */
  lemma ArrivalKeeps(f: nat, vcs: map<int, VC>, reqSum: set<int>, vc: VC, base: Seqno, ckpts: seq<CkptSum>,
                     reqs: seq<seq<ReqSum>>)
    requires vc.id !in vcs && reqSum <= vcs.Keys
    requires CkptsOK(vcs, ckpts) && TableOK(Summed(vcs, reqSum), base, reqs)
    ensures CkptsOK(vcs[vc.id := vc], ckpts) && TableOK(Summed(vcs[vc.id := vc], reqSum), base, reqs)
  {
    hide CkptsOK, ReqsOK;
    assert Summed(vcs[vc.id := vc], reqSum) == Summed(vcs, reqSum);
    CkptsGrow(vcs, vc, ckpts);
  }

  lemma CkptsGrow(vcs: map<int, VC>, vc: VC, ckpts: seq<CkptSum>)
    requires vc.id !in vcs && CkptsOK(vcs, ckpts)
    ensures CkptsOK(vcs[vc.id := vc], ckpts)
  {
    hide CkptSumOK;
    forall i | 0 <= i < |ckpts| ensures CkptSumOK(vcs[vc.id := vc], ckpts[i]) {
      CkptGrows(vcs, vc.id, vc, ckpts[i]);
    }
  }

  lemma ReqsGrow(vcs: map<int, VC>, id: int, vc: VC, n: Seqno, list: seq<ReqSum>)
    requires id !in vcs && ReqsOK(vcs, n, list)
    ensures ReqsOK(vcs[id := vc], n, list)
  {
    hide ReqSumOK;
    forall j | 0 <= j < |list| ensures ReqSumOK(vcs[id := vc], n, list[j]) {
      ReqGrows(vcs, id, vc, n, list[j]);
    }
  }

  /** Before its requests are weighed, a view-change is only marked as summarised. */
  lemma MarkKeeps(vcs: map<int, VC>, reqSum: set<int>, id: int, base: Seqno, reqs: seq<seq<ReqSum>>)
    requires id in vcs && id !in reqSum && TableOK(Summed(vcs, reqSum), base, reqs)
    ensures TableOK(Summed(vcs, reqSum + {id}), base, reqs)
  {
    hide ReqsOK;
    assert Summed(vcs, reqSum + {id}) == Summed(vcs, reqSum)[id := vcs[id]];
    forall k | 0 <= k < |reqs| ensures ReqsOK(Summed(vcs, reqSum + {id}), base + k, reqs[k]) {
      ReqsGrow(Summed(vcs, reqSum), id, vcs[id], base + k, reqs[k]);
    }
  }

  /** One more complete row. */
  lemma DoneAdd(comp: seq<int>, base: Seqno, min: Seqno, k: nat, j: nat)
    requires k < |comp| && comp[k] < 0 && base + k > min
    ensures |Done(comp[k := j], base, min)| == |Done(comp, base, min)| + 1
  {
    assert Done(comp[k := j], base, min) == Done(comp, base, min) + {k};
  }

  /** Rows up to a higher start no longer count. */
  lemma DoneRaise(comp: seq<int>, base: Seqno, min: Seqno)
    ensures |Done(comp, base, min)| ==
      |Done(comp, base, min + 1)| + if 0 <= min + 1 - base < |comp| && comp[min + 1 - base] >= 0 then 1 else 0
  {
    var k := min + 1 - base;
    if 0 <= k < |comp| && comp[k] >= 0 {
      assert Done(comp, base, min) == Done(comp, base, min + 1) + {k};
    } else {
      assert Done(comp, base, min) == Done(comp, base, min + 1);
    }
  }
}
