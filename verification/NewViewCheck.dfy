/**
 * How a backup checks the new view announced by the primary: check_new_view,
 * known_stable and mark_stable of src/NV_info.cc, with K_max of src/K_max.h.
 *
 * The backup counts afresh, and not quite by the rules: the lemmas say by how
 * much its recount differs from them.
 */
module NewViewCheck {
  import opened Wrappers
  import opened Types
  import opened Quorums
  import opened OldRequestState
  import opened ViewChangeState
  import opened NewViewRules
  import opened NewViewCounters
  import opened ReplicaState

  /** The view-changes whose prepared request at n is of a view up to cv, whatever its digest. */
  function ViewsNotAbove(vcs: map<int, VC>, n: Seqno, cv: View): set<int> {
    set i | i in vcs && vcs[i].ls < n && Req(vcs[i], n).0 <= cv
  }

  /** The backup's test of the request picked for n. */
  ghost predicate BackupPick(f: nat, nv: NV, n: Seqno) {
    && n in nv.picked && nv.picked[n] in nv.vcs
    && var vc := nv.vcs[nv.picked[n]];
       && vc.ls < n
       && |ProofSet(nv.vcs, n, Req(vc, n).0, Req(vc, n).1)| >= f + 1
       && |ViewsNotAbove(nv.vcs, n, Req(vc, n).0)| >= 2 * f + 1
  }

  ghost predicate BackupAccepts(f: nat, nv: NV) {
    ValidStart(f, nv) && RangeSelected(f, nv.vcs, nv.max) && forall n :: nv.min < n < nv.max ==> BackupPick(f, nv, n)
  }

  // ------------------------------------------------------------------
  // The recount against the rules
  // ------------------------------------------------------------------

  /** No view-change prepared another digest in the same view. */
  ghost predicate NoConflict(vcs: map<int, VC>, n: Seqno, cv: View, cd: Digest) {
    forall i :: i in vcs && vcs[i].ls < n && Req(vcs[i], n).0 == cv ==> Req(vcs[i], n).1 == cd
  }

  /** The recount counts what the rules count exactly when no view-change conflicts. */
  lemma RecountIsRule(vcs: map<int, VC>, n: Seqno, cv: View, cd: Digest)
    ensures Lower(vcs, n, cv, cd) <= ViewsNotAbove(vcs, n, cv)
    ensures |Lower(vcs, n, cv, cd)| == |ViewsNotAbove(vcs, n, cv)| <==> NoConflict(vcs, n, cv, cd)
  {
    hide Req;
    var a, b := Lower(vcs, n, cv, cd), ViewsNotAbove(vcs, n, cv);
    forall j | j in a ensures j in b {
      assert NotAbove(vcs[j], n, cv, cd);
    }
    if NoConflict(vcs, n, cv, cd) {
      forall i | i in b ensures i in a {
        assert Req(vcs[i], n) == (Req(vcs[i], n).0, Req(vcs[i], n).1);
        assert NotAbove(vcs[i], n, cv, cd);
      }
      assert a == b;
    } else {
      var i :| i in vcs && vcs[i].ls < n && Req(vcs[i], n).0 == cv && Req(vcs[i], n).1 != cd;
      assert i in b && i !in a;
      SubsetSize(a + {i}, b);
    }
  }

  /** So without conflicts the backup's test implies the rule. */
  lemma AcceptedIsSelected(f: nat, nv: NV, n: Seqno)
    requires BackupPick(f, nv, n)
    requires NoConflict(nv.vcs, n, Req(nv.vcs[nv.picked[n]], n).0, Req(nv.vcs[nv.picked[n]], n).1)
    ensures ValidPick(f, nv, n)
  {
    hide Req, NoConflict, Lower, ViewsNotAbove, Vouches, ProofVouches;
    var (cv, cd) := Req(nv.vcs[nv.picked[n]], n);
    RecountIsRule(nv.vcs, n, cv, cd);
    ProofsAreVouchers(nv.vcs, n, cv, cd);
  }

  lemma ProofsAreVouchers(vcs: map<int, VC>, n: Seqno, cv: View, cd: Digest)
    ensures |ProofSet(vcs, n, cv, cd)| <= |Vouchers(vcs, n, cv, cd)|
  {
    hide ProofVouches, Vouches;
    forall i | i in ProofSet(vcs, n, cv, cd) ensures i in Vouchers(vcs, n, cv, cd) {
      ProofIsWord(vcs[i], n, cv, cd);
    }
    SubsetSize(ProofSet(vcs, n, cv, cd), Vouchers(vcs, n, cv, cd));
  }

  /** With a conflict it does not: two digests prepared in view 1, and only one of them can be told from the other by the rule. */
  lemma ConflictIsAccepted()
    ensures exists f: nat, nv, n :: f >= 1 && BackupPick(f, nv, n) && !ValidPick(f, nv, n)
  {
    var a := VC(2, 0, 0, [], [Record(1, 1, 7, true)]);
    var b := VC(2, 1, 0, [], [Record(0, 1, 7, false)]);
    var c := VC(2, 2, 0, [], [Record(1, 1, 8, true)]);
    var vcs := map[0 := a, 1 := b, 2 := c];
    var nv := NV(2, vcs, 0, 2, map[1 := 0]);
    assert ProofSet(vcs, 1, 1, 7) == {0, 1};
    assert ViewsNotAbove(vcs, 1, 1) == {0, 1, 2};
    assert Lower(vcs, 1, 1, 7) == {0, 1};
    assert BackupPick(1, nv, 1) && !ValidPick(1, nv, 1);
  }

  /** No view is below -1, and a prepared request was last sent in its view or later. */
  predicate OrderedRecord(r: Record) {
    r.lv >= -1 && (r.prepared ==> 0 <= r.v <= r.lv)
  }

  ghost predicate RecordsOrdered(vc: VC) {
    forall k :: 0 <= k < |vc.reqs| ==> OrderedRecord(vc.reqs[k])
  }

  lemma OrderedVouches(vc: VC, n: Seqno, cv: View, cd: Digest)
    requires RecordsOrdered(vc) && Vouches(vc, n, cv, cd)
    ensures ProofVouches(vc, n, cv, cd)
  {
    var k := n - vc.ls - 1;
    assert k < |vc.reqs| ==> OrderedRecord(vc.reqs[k]);
  }

  /** A new view that follows the rules is accepted, if what its view-changes say is ordered. */
  lemma SelectedIsAccepted(f: nat, nv: NV)
    requires ValidNewView(f, nv) && forall i :: i in nv.vcs ==> RecordsOrdered(nv.vcs[i])
    ensures BackupAccepts(f, nv)
  {
    hide Req, RecordsOrdered, Vouches, ProofVouches, Lower, Vouchers, ViewsNotAbove, ProofSet, ValidStart, RangeSelected;
    forall n | nv.min < n < nv.max ensures BackupPick(f, nv, n) {
      assert ValidPick(f, nv, n);
      var (cv, cd) := Req(nv.vcs[nv.picked[n]], n);
      RecountIsRule(nv.vcs, n, cv, cd);
      SubsetSize(Lower(nv.vcs, n, cv, cd), ViewsNotAbove(nv.vcs, n, cv));
      VouchersAreProofs(nv.vcs, n, cv, cd);
    }
  }

  lemma VouchersAreProofs(vcs: map<int, VC>, n: Seqno, cv: View, cd: Digest)
    requires forall i :: i in vcs ==> RecordsOrdered(vcs[i])
    ensures |Vouchers(vcs, n, cv, cd)| <= |ProofSet(vcs, n, cv, cd)|
  {
    hide RecordsOrdered, Vouches, ProofVouches;
    forall i | i in Vouchers(vcs, n, cv, cd) ensures i in ProofSet(vcs, n, cv, cd) {
      OrderedVouches(vcs[i], n, cv, cd);
    }
    SubsetSize(Vouchers(vcs, n, cv, cd), ProofSet(vcs, n, cv, cd));
  }

  /** A correct replica reports ordered records. */
  lemma HistoryIsOrdered(events: seq<Event>)
    requires IsHistory(events)
    ensures OrderedRecord(Replay(events))
  {
    ReplaySummarises(events);
    var r := Replay(events);
    if events != [] {
      var k :| if r.prepared then SummaryPrepared(events, r, k) else SummaryPending(events, r, k);
      assert k < |events| - 1 ==> events[k].view < events[|events| - 1].view;
    }
  }

  // ------------------------------------------------------------------
  // The check
  // ------------------------------------------------------------------

  /** The members of ids below j. */
  function IdsBelow(ids: set<int>, j: int): set<int> {
    set i | i in ids && i < j
  }

  lemma IdsNext(ids: set<int>, j: int)
    ensures |IdsBelow(ids, j + 1)| == |IdsBelow(ids, j)| + if j in ids then 1 else 0
  {
    AddedTo(IdsBelow(ids, j), IdsBelow(ids, j + 1), j, j in ids);
  }

  lemma IdsAll(ids: set<int>, n: nat)
    requires forall i :: i in ids ==> 0 <= i < n
    ensures IdsBelow(ids, n) == ids && IdsBelow(ids, 0) == {}
  {
  }

  /** NV_info of a backup that has received nv and every view-change that it refers to. */
  class NVCheck {
    const f: nat
    const nv: NV
    var min: Seqno
    var max: Seqno
    var chosen: int
    var isComplete: bool

    /** What New_view::verify() and the match of view-changes with nv leave to check. */
    ghost predicate Valid() {
      && nv.view > 0 && 0 <= nv.min < nv.max <= nv.min + MAX_OUT + 1
      && (forall i :: i in nv.vcs ==> 0 <= i < 3 * f + 1)
      && (forall n :: nv.min <= n < nv.max ==> n in nv.picked && nv.picked[n] in nv.vcs)
    }

    constructor (f: nat, nv: NV)
      ensures this.f == f && this.nv == nv && min == -1 && max == -1 && chosen == -1 && !isComplete
    {
      this.f, this.nv := f, nv;
      min, max, chosen, isComplete := -1, -1, -1, false;
    }

    /** Checks the checkpoint that nv starts from. */
    method CheckStart() returns (ok: bool)
      requires Valid()
      modifies this`min, this`chosen
      ensures ok <==> ValidStart(f, nv)
      ensures ok ==> min == nv.min && chosen == 0
      ensures !ok ==> chosen == old(chosen)
    {
      hide Ckpt;
      var cid := nv.picked[nv.min];
      var vc := nv.vcs[cid];
      min := vc.ls;
      if min != nv.min { return false; }
      var od := Ckpt(vc, min);
      if od.None? { return false; }
      var d := od.value;
      var nLe, nProofs := 1, 1;
      ghost var le, proofs := StableUpTo(nv.vcs, min) - {cid}, Holders(nv.vcs, min, d) - {cid};
      IdsAll(le, 3 * f + 1);
      IdsAll(proofs, 3 * f + 1);
      for i := 0 to 3 * f + 1
        invariant min == nv.min && chosen == old(chosen)
        invariant nLe == 1 + |IdsBelow(le, i)| && nProofs == 1 + |IdsBelow(proofs, i)|
      {
        IdsNext(le, i);
        IdsNext(proofs, i);
        if i != cid && i in nv.vcs {
          if Ckpt(nv.vcs[i], min) == Some(d) { nProofs := nProofs + 1; }
          if nv.vcs[i].ls <= min { nLe := nLe + 1; }
        }
      }
      assert StableUpTo(nv.vcs, min) == le + {cid} && Holders(nv.vcs, min, d) == proofs + {cid};
      CkptNotNull(vc, min);
      if nProofs < f + 1 || nLe < 2 * f + 1 { return false; }
      chosen := 0;
      return true;
    }

    /** How many view-changes refer to nothing at or above nv's max. */
    method CountEnding() returns (nLt: nat)
      requires Valid()
      ensures nLt == |EndingBelow(nv.vcs, nv.max)|
    {
      nLt := 0;
      ghost var ending := EndingBelow(nv.vcs, nv.max);
      IdsAll(ending, 3 * f + 1);
      for i := 0 to 3 * f + 1
        invariant nLt == |IdsBelow(ending, i)|
      {
        IdsNext(ending, i);
        if i in nv.vcs && MaxSeqno(nv.vcs[i]) < nv.max {
          nLt := nLt + 1;
        }
      }
    }

    /** The backup's test of the request picked for n. */
    method CheckPick(n: Seqno) returns (ok: bool)
      requires Valid() && nv.min < n < nv.max
      ensures ok <==> BackupPick(f, nv, n)
    {
      hide Req, ProofVouches;
      var vc := nv.vcs[nv.picked[n]];
      if n <= vc.ls { return false; }
      var (cv, cd) := Req(vc, n);
      var nLe, nProofs := 0, 0;
      ghost var le, proofs := ViewsNotAbove(nv.vcs, n, cv), ProofSet(nv.vcs, n, cv, cd);
      IdsAll(le, 3 * f + 1);
      IdsAll(proofs, 3 * f + 1);
      for j := 0 to 3 * f + 1
        invariant nLe == |IdsBelow(le, j)| && nProofs == |IdsBelow(proofs, j)|
      {
        IdsNext(le, j);
        IdsNext(proofs, j);
        if j in nv.vcs {
          if ProofVouches(nv.vcs[j], n, cv, cd) { nProofs := nProofs + 1; }
          if nv.vcs[j].ls < n && Req(nv.vcs[j], n).0 <= cv { nLe := nLe + 1; }
        }
      }
      return nProofs >= f + 1 && nLe >= 2 * f + 1;
    }

    /**
     * check_new_view, up to the pre-prepares that have to be at hand.  chosen
     * and max tell afterwards how far the check came.
     */
    method CheckNewView() returns (ok: bool)
      requires Valid() && max == -1 && chosen == -1
      modifies this`min, this`max, this`chosen
      ensures ok <==> BackupAccepts(f, nv)
      ensures chosen == if ValidStart(f, nv) then 0 else -1
      ensures max == if ValidStart(f, nv) && RangeSelected(f, nv.vcs, nv.max) then nv.max else -1
    {
      hide ValidStart, BackupPick;
      ok := CheckStart();
      if !ok { return; }
      var nLt := CountEnding();
      if nLt < 2 * f + 1 { return false; }
      max := nv.max;
      for i := nv.min + 1 to nv.max
        invariant max == nv.max && chosen == 0
        invariant forall n :: nv.min < n < i ==> BackupPick(f, nv, n)
      {
        ok := CheckPick(i);
        if !ok { return; }
      }
      return true;
    }

    /** mark_stable: whether the view is entered because ls is stable. */
    method MarkStable(ls: Seqno) returns (enter: bool)
      modifies this`isComplete
      ensures enter <==> (!old(isComplete) && chosen >= 0 && ls >= max)
      ensures isComplete == (old(isComplete) || enter)
    {
      enter := !isComplete && chosen >= 0 && ls >= max;
      isComplete := isComplete || enter;
    }
  }

  lemma CkptNotNull(vc: VC, n: Seqno)
    ensures Ckpt(vc, n).Some? ==> Ckpt(vc, n).value != NULL_DIGEST
  {
  }

  /** The guard of mark_stable after the check of nv. */
  ghost predicate EntersOnStable(f: nat, nv: NV, ls: Seqno) {
    ValidStart(f, nv) && (RangeSelected(f, nv.vcs, nv.max) ==> ls >= nv.max)
  }

  /**
   * Entering a view on the strength of a stable checkpoint is meant for a
   * checkpoint past the range of the new view.  After the check the guard says
   * just that if the range was accepted; if it was not, any checkpoint will do.
   */
  method EnterOnStable(f: nat, nv: NV, ls: Seqno) returns (enter: bool)
    requires f >= 1 && nv.view > 0 && 0 <= nv.min < nv.max <= nv.min + MAX_OUT + 1 && ls >= 0
    requires forall i :: i in nv.vcs ==> 0 <= i < 3 * f + 1
    requires forall n :: nv.min <= n < nv.max ==> n in nv.picked && nv.picked[n] in nv.vcs
    ensures enter <==> EntersOnStable(f, nv, ls)
  {
    hide ValidStart, RangeSelected, BackupAccepts;
    var c := new NVCheck(f, nv);
    var ok := c.CheckNewView();
    enter := c.MarkStable(ls);
  }

  /** A new view whose range is rejected, since a view-change refers to number 1, is entered whatever is stable. */
  lemma RejectedIsEntered() returns (nv: NV)
    ensures !RangeSelected(1, nv.vcs, nv.max) && forall ls :: EntersOnStable(1, nv, ls)
  {
    var vcs := map[0 := VC(4, 0, 0, [9], []), 1 := VC(4, 1, 0, [9], []), 3 := VC(4, 3, 0, [9], [Record(0, 0, 8, true)])];
    nv := NV(4, vcs, 0, 1, map[0 := 0]);
    assert EndingBelow(vcs, 1) == {0, 1};
    assert Holders(vcs, 0, 9) == {0, 1, 3} && StableUpTo(vcs, 0) == {0, 1, 3};
  }

  // ------------------------------------------------------------------
  // What is known to be stable
  // ------------------------------------------------------------------

  /** The indices of the values that are at least r. */
  function AtLeast(vals: seq<int>, r: int): set<int> {
    set i | 0 <= i < |vals| && vals[i] >= r
  }

  /** At least k values are r or more and fewer than k are more. */
  ghost predicate IsKMax(vals: seq<int>, k: nat, r: int) {
    |AtLeast(vals, r)| >= k && |AtLeast(vals, r + 1)| < k
  }

  /** The values below last that are at least r, among the first i. */
  function Between(vals: seq<int>, i: nat, r: int, last: int): set<int>
    requires i <= |vals|
  {
    set j | 0 <= j < i && r <= vals[j] < last
  }

  /** The greatest value below last, but at least "start", and how many of vals have it. */
  method NextLower(vals: seq<int>, start: int, last: int) returns (curMax: int, curCount: nat)
    requires start < last
    ensures start <= curMax < last && Between(vals, |vals|, curMax + 1, last) == {}
    ensures curCount == |Between(vals, |vals|, curMax, last)|
  {
    curMax, curCount := start, 0;
    for i := 0 to |vals|
      invariant start <= curMax < last
      invariant Between(vals, i, curMax + 1, last) == {}
      invariant curCount == |Between(vals, i, curMax, last)|
    {
      BetweenNext(vals, i, curMax, last);
      BetweenNext(vals, i, curMax + 1, last);
      var cv := vals[i];
      if cv == curMax {
        curCount := curCount + 1;
      } else if cv > curMax && cv < last {
        NoneAbove(vals, i, curMax + 1, cv, last);
        curCount := 1;
        curMax := cv;
      }
    }
  }

  /** A value above all before it is the first of its kind. */
  lemma NoneAbove(vals: seq<int>, i: nat, r: int, cv: int, last: int)
    requires i < |vals| && vals[i] == cv && r <= cv < last && Between(vals, i, r, last) == {}
    ensures Between(vals, i + 1, cv, last) == {i} && Between(vals, i + 1, cv + 1, last) == {}
  {
    var upto, above, before :=
      Between(vals, i + 1, cv, last), Between(vals, i + 1, cv + 1, last), Between(vals, i, r, last);
    assert upto <= before + {i} && i in upto;
    assert above <= before;
    assert upto == {i};
  }

  /** K_max: the greatest value that k of vals reach; tmax is above all of them. */
  method KMax(k: nat, vals: seq<int>, tmax: int) returns (r: int)
    requires 1 <= k <= |vals| && tmax >= 0 && forall i :: 0 <= i < |vals| ==> 0 <= vals[i] < tmax
    ensures IsKMax(vals, k, r) && 0 <= r < tmax
  {
    hide AtLeast, Between;
    var lastMax, lastCount, start := tmax, 0, -1;
    NoneReaches(vals, tmax);
    while lastCount < k
      invariant 0 <= lastMax <= tmax && -1 <= start <= 0
      invariant lastCount == |AtLeast(vals, lastMax)|
      invariant if lastMax == tmax then lastCount == 0 else |AtLeast(vals, lastMax + 1)| < k
      decreases lastMax
    {
      var i := NotAll(vals, lastMax, k);
      var curMax, curCount := NextLower(vals, start, lastMax);
      Peel(vals, curMax, lastMax);
      AboveCur(vals, curMax, lastMax, i);
      lastMax := curMax;
      lastCount := lastCount + curCount;
      start := 0;
    }
    return lastMax;
  }

  lemma NoneReaches(vals: seq<int>, tmax: int)
    requires forall i :: 0 <= i < |vals| ==> vals[i] < tmax
    ensures |AtLeast(vals, tmax)| == 0
  {
    assert AtLeast(vals, tmax) == {};
  }

  /** Fewer than |vals| values at or above last leave one below it. */
  lemma NotAll(vals: seq<int>, last: int, k: nat) returns (i: nat)
    requires |AtLeast(vals, last)| < k <= |vals|
    ensures i < |vals| && vals[i] < last
  {
    var rest := Below(|vals|) - AtLeast(vals, last);
    assert AtLeast(vals, last) <= Below(|vals|);
    assert Below(|vals|) == AtLeast(vals, last) + rest;
    i := Member(rest);
  }

  lemma BetweenNext(vals: seq<int>, i: nat, r: int, last: int)
    requires i < |vals|
    ensures Between(vals, i + 1, r, last) == Between(vals, i, r, last) + if r <= vals[i] < last then {i} else {}
    ensures |Between(vals, i + 1, r, last)| == |Between(vals, i, r, last)| + if r <= vals[i] < last then 1 else 0
  {
    assert i !in Between(vals, i, r, last);
    assert Between(vals, i + 1, r, last) == Between(vals, i, r, last) + if r <= vals[i] < last then {i} else {};
  }

  lemma Peel(vals: seq<int>, r: int, last: int)
    requires r <= last
    ensures |AtLeast(vals, r)| == |AtLeast(vals, last)| + |Between(vals, |vals|, r, last)|
  {
    assert AtLeast(vals, r) == AtLeast(vals, last) + Between(vals, |vals|, r, last);
    assert AtLeast(vals, last) * Between(vals, |vals|, r, last) == {};
    UnionSize(AtLeast(vals, last), Between(vals, |vals|, r, last));
  }

  lemma AboveCur(vals: seq<int>, r: int, last: int, i: nat)
    requires r < last && Between(vals, |vals|, r + 1, last) == {}
    requires i < |vals| && vals[i] < last
    ensures |AtLeast(vals, r + 1)| == |AtLeast(vals, last)| && vals[i] <= r
  {
    assert i !in Between(vals, |vals|, r + 1, last);
    forall j | j in AtLeast(vals, r + 1) ensures j in AtLeast(vals, last) {
      assert j !in Between(vals, |vals|, r + 1, last);
    }
    assert AtLeast(vals, r + 1) == AtLeast(vals, last);
  }

  /** What the view-change of each replica says of its stable checkpoint, 0 for none. */
  function StableOf(vcs: map<int, VC>, n: nat): (s: seq<int>)
    ensures |s| == n && forall i :: 0 <= i < n ==> s[i] == if i in vcs then vcs[i].ls else 0
  {
    seq(n, i => if i in vcs then vcs[i].ls else 0)
  }

  function LastOf(vc: VC): Seqno {
    match LastCkpt(vc)
    case None => 0
    case Some((n, d)) => n
  }

  function LastsOf(vcs: map<int, VC>, n: nat): (s: seq<int>)
    ensures |s| == n && forall i :: 0 <= i < n ==> s[i] == if i in vcs then LastOf(vcs[i]) else 0
  {
    seq(n, i => if i in vcs then LastOf(vcs[i]) else 0)
  }

  /** The view-changes whose stable checkpoint is at least n. */
  function StableFrom(vcs: map<int, VC>, n: Seqno): set<int> {
    set i | i in vcs && vcs[i].ls >= n
  }

  /** The view-changes whose last checkpoint is at least n. */
  function HoldingFrom(vcs: map<int, VC>, n: Seqno): set<int> {
    set i | i in vcs && LastOf(vcs[i]) >= n
  }

  /** f + 1 view-changes call a checkpoint stable that is not below n, or 2f + 1 hold one. */
  ghost predicate Vouched(f: nat, vcs: map<int, VC>, n: Seqno) {
    |StableFrom(vcs, n)| >= f + 1 || |HoldingFrom(vcs, n)| >= 2 * f + 1
  }

  /** ks is the greatest number up to min that the view-changes vouch for, 0 if there is none. */
  ghost predicate IsKnownStable(f: nat, vcs: map<int, VC>, min: Seqno, ks: Seqno) {
    && 0 <= ks <= min
    && (ks > 0 ==> Vouched(f, vcs, ks))
    && forall k :: ks < k <= min ==> !Vouched(f, vcs, k)
  }

  /** known_stable: what the view-changes show to be stable, up to the start of the new view. */
  method KnownStable(f: nat, vcs: map<int, VC>, min: Seqno, tmax: Seqno) returns (ks: Seqno)
    requires min >= 0 && |StableUpTo(vcs, min)| >= 2 * f + 1
    requires forall i :: i in vcs ==> 0 <= i < 3 * f + 1 && WellFormedVC(f, vcs[i]) && vcs[i].ls + MAX_OUT < tmax
    requires tmax > 0
    ensures IsKnownStable(f, vcs, min, ks)
  {
    hide WellFormedVC, AtLeast, IsKMax, LastOf, StableFrom, HoldingFrom;
    KnownBounds(f, vcs, tmax);
    var s1 := KMax(f + 1, StableOf(vcs, 3 * f + 1), tmax);
    StableBelow(f, vcs, min, s1);
    var s2 := KMax(2 * f + 1, LastsOf(vcs, 3 * f + 1), tmax);
    HoldingEnough(f, vcs, s2);
    if s2 > min {
      HoldingLower(vcs, s2, min);
      s2 := min;
    }
    ks := if s1 > s2 then s1 else s2;
  }

  lemma KnownBounds(f: nat, vcs: map<int, VC>, tmax: Seqno)
    requires tmax > 0
    requires forall i :: i in vcs ==> 0 <= i < 3 * f + 1 && WellFormedVC(f, vcs[i]) && vcs[i].ls + MAX_OUT < tmax
    ensures var s := StableOf(vcs, 3 * f + 1); forall i :: 0 <= i < |s| ==> 0 <= s[i] < tmax
    ensures var s := LastsOf(vcs, 3 * f + 1); forall i :: 0 <= i < |s| ==> 0 <= s[i] < tmax
  {
    forall i | i in vcs ensures 0 <= vcs[i].ls < tmax && 0 <= LastOf(vcs[i]) < tmax {
    }
  }

  /** At most f view-changes are stable above min. */
  lemma StableBelow(f: nat, vcs: map<int, VC>, min: Seqno, s: int)
    requires min >= 0 && |StableUpTo(vcs, min)| >= 2 * f + 1 && forall i :: i in vcs ==> 0 <= i < 3 * f + 1
    requires IsKMax(StableOf(vcs, 3 * f + 1), f + 1, s)
    ensures s <= min
    ensures s > 0 ==> |StableFrom(vcs, s)| >= f + 1
    ensures forall k :: k > s && k > 0 ==> |StableFrom(vcs, k)| < f + 1
  {
    var vals := StableOf(vcs, 3 * f + 1);
    var a, b := AtLeast(vals, s), StableUpTo(vcs, min);
    if s > min {
      assert a * b == {};
      UnionSize(a, b);
      SubsetSize(a + b, Replicas(f));
    }
    if s > 0 {
      SubsetSize(a, StableFrom(vcs, s));
    }
    forall k | k > s && k > 0 ensures |StableFrom(vcs, k)| < f + 1 {
      SubsetSize(StableFrom(vcs, k), AtLeast(vals, s + 1));
    }
  }

  lemma HoldingEnough(f: nat, vcs: map<int, VC>, s: int)
    requires IsKMax(LastsOf(vcs, 3 * f + 1), 2 * f + 1, s) && forall i :: i in vcs ==> 0 <= i < 3 * f + 1
    ensures s > 0 ==> |HoldingFrom(vcs, s)| >= 2 * f + 1
    ensures forall k :: k > s && k > 0 ==> |HoldingFrom(vcs, k)| < 2 * f + 1
  {
    hide LastOf;
    if s > 0 {
      SubsetSize(AtLeast(LastsOf(vcs, 3 * f + 1), s), HoldingFrom(vcs, s));
    }
    forall k | k > s && k > 0 ensures |HoldingFrom(vcs, k)| < 2 * f + 1 {
      SubsetSize(HoldingFrom(vcs, k), AtLeast(LastsOf(vcs, 3 * f + 1), s + 1));
    }
  }

  lemma HoldingLower(vcs: map<int, VC>, s: Seqno, min: Seqno)
    requires min <= s
    ensures |HoldingFrom(vcs, min)| >= |HoldingFrom(vcs, s)|
  {
    hide LastOf;
    SubsetSize(HoldingFrom(vcs, s), HoldingFrom(vcs, min));
  }

  lemma VouchedLower(f: nat, vcs: map<int, VC>, k: Seqno, n: Seqno)
    requires k <= n && Vouched(f, vcs, n)
    ensures Vouched(f, vcs, k)
  {
    hide LastOf;
    SubsetSize(StableFrom(vcs, n), StableFrom(vcs, k));
    SubsetSize(HoldingFrom(vcs, n), HoldingFrom(vcs, k));
  }

  /**
   * The last number of the range of nv is at most MAX_OUT above a checkpoint
   * that is stable at the replica, whose own last one is ls, or that the
   * view-changes of nv vouch for.
   */
  ghost predicate RangeFits(f: nat, nv: NV, ls: Seqno) {
    nv.max - 1 - MAX_OUT <= ls || Vouched(f, nv.vcs, nv.max - 1 - MAX_OUT)
  }

  /**
   * The requests of a new view are installed under the assertion that its
   * range is within MAX_OUT of what is stable once ks was made so.  It holds
   * exactly if the range fits.
   */
  lemma WindowFits(f: nat, nv: NV, ls: Seqno, ks: Seqno)
    requires ls >= 0 && nv.max <= nv.min + MAX_OUT + 1 && IsKnownStable(f, nv.vcs, nv.min, ks)
    ensures nv.max - 1 <= Max(ls, ks) + MAX_OUT <==> RangeFits(f, nv, ls)
    ensures ks <= nv.min
  {
    hide Vouched;
    var k := nv.max - 1 - MAX_OUT;
    if ls < k <= ks {
      VouchedLower(f, nv.vcs, k, ks);
    }
  }

  /**
   * Nothing checks that it does: this new view is accepted and reaches 257,
   * and the view-changes vouch for nothing above 0, while that of replica 2
   * says that 0 is its last stable checkpoint.
   */
  lemma RangeBeyondWindow() returns (nv: NV)
    ensures BackupAccepts(1, nv) && nv.view > 0 && forall i :: i in nv.vcs ==> WellFormedVC(1, nv.vcs[i])
    ensures 2 in nv.vcs && !RangeFits(1, nv, nv.vcs[2].ls) && IsKnownStable(1, nv.vcs, nv.min, 0)
  {
    var a := VC(4, 0, 256, [9], [Record(-1, 0, 5, false)]);
    var b := VC(4, 1, 0, [7, 8, 9], []);
    var c := VC(4, 2, 0, [7], []);
    var vcs := map[0 := a, 1 := b, 2 := c];
    nv := NV(4, vcs, 256, 258, map[256 := 0, 257 := 1]);
    assert StableUpTo(vcs, 256) == {0, 1, 2} && EndingBelow(vcs, 258) == {0, 1, 2};
    assert Holders(vcs, 256, 9) == {0, 1};
    assert ProofSet(vcs, 257, -1, NULL_DIGEST) == {0, 1, 2} && ViewsNotAbove(vcs, 257, -1) == {0, 1, 2};
    forall ks | ks > 0 ensures !Vouched(1, vcs, ks) {
      SubsetSize(StableFrom(vcs, ks), {0});
      SubsetSize(HoldingFrom(vcs, ks), {0, 1});
    }
  }
}
