/**
 * What the counters of the primary come to: how often each candidate was
 * counted, exactly, in terms of the view-changes and the order in which they
 * were weighed.  So no counter falls behind, and what enough view-changes
 * agree on is counted enough.
 */
module NewViewTallies {
  import opened Wrappers
  import opened Types
  import opened Quorums
  import opened ViewChangeState
  import opened NewViewRules
  import opened NewViewCounters

  /** Those of the view-changes that are among ids. */
  function Summed(vcs: map<int, VC>, ids: set<int>): map<int, VC> {
    map i | i in vcs && i in ids :: vcs[i]
  }

  /** q' is q but for what is at hand for it, which is no less or enough. */
  ghost predicate SameCounts(f: nat, q: ReqSum, q': ReqSum) {
    q' == q.(pp := q'.pp, nPproofs := q'.nPproofs) && (q'.nPproofs > f || q'.nPproofs >= q.nPproofs)
  }

  /** Row "now" is row "was" after vc is weighed in it; vcs are the view-changes weighed, vc included. */
  ghost predicate RowWeighed(f: nat, was: seq<ReqSum>, now: seq<ReqSum>, vc: VC, n: Seqno, vcs: map<int, VC>)
    requires vc.ls < n
  {
    && |now| == |was| + (if HasRequest(was, Req(vc, n).0, Req(vc, n).1) then 0 else 1)
    && (forall t :: 0 <= t < |was| ==> SameCounts(f, UpdateReq(was[t], vc, n), now[t]))
    && (|now| > |was| ==> IsCandidate(f, now[|was|], was, vc, n, vcs))
  }

  /** q is the candidate that vc brings to row "was". */
  ghost predicate IsCandidate(f: nat, q: ReqSum, was: seq<ReqSum>, vc: VC, n: Seqno, vcs: map<int, VC>)
    requires vc.ls < n
  {
    && q.id == vc.id && (q.v, q.d) == Req(vc, n)
    && q.nLe == CountLower(was, q.v) + 1 && q.nProofs == |ProofSet(vcs, n, q.v, q.d)|
    && q.rPproofs == Affirmers(vcs, n, q.v, q.d) && (q.nPproofs > f || q.nPproofs == |q.rPproofs|)
  }

  predicate HasRequest(list: seq<ReqSum>, v: View, d: Digest) {
    exists t :: 0 <= t < |list| && list[t].v == v && list[t].d == d
  }

  predicate HasCkpt(ckpts: seq<CkptSum>, vc: VC) {
    exists t :: 0 <= t < |ckpts| && Matches(ckpts[t], vc)
  }

  /** The candidates after vc is weighed: each is updated, and one is added if none matches. */
  function CkptsWeighed(ckpts: seq<CkptSum>, vcs: map<int, VC>, vc: VC): seq<CkptSum> {
    seq(|ckpts|, t requires 0 <= t < |ckpts| => UpdateCkpt(ckpts[t], vc)) +
    if HasCkpt(ckpts, vc) || StableDigest(vc) == NULL_DIGEST then [] else [FreshCkpt(vcs, ckpts, vc)]
  }

  lemma SummedAdd(vcs: map<int, VC>, ids: set<int>, id: int)
    requires id in vcs && id !in ids
    ensures id !in Summed(vcs, ids) && Summed(vcs, ids + {id}) == Summed(vcs, ids)[id := vcs[id]]
  {
  }

  lemma {:induction false} SameCount(a: seq<ReqSum>, b: seq<ReqSum>, v: View)
    requires |a| == |b| && forall t :: 0 <= t < |a| ==> a[t].v == b[t].v
    ensures CountLower(a, v) == CountLower(b, v)
  {
    if a != [] {
      SameCount(a[..|a| - 1], b[..|b| - 1], v);
    }
  }

  // ------------------------------------------------------------------
  // The order of view-changes
  // ------------------------------------------------------------------

  function Members(order: seq<int>): set<int> {
    set i | i in order
  }

  /** The view-changes weighed after that of id. */
  function After(order: seq<int>, id: int): (late: set<int>)
    ensures late <= Members(order)
  {
    if order == [] then {}
    else
      var before := order[..|order| - 1];
      After(before, id) + if id in before then {order[|order| - 1]} else {}
  }

  lemma AfterNext(order: seq<int>, x: int, id: int)
    ensures After(order + [x], id) == After(order, id) + if id in order then {x} else {}
    ensures Members(order + [x]) == Members(order) + {x}
  {
    assert (order + [x])[..|order|] == order;
  }

  lemma {:induction false} NothingAfter(order: seq<int>, id: int)
    requires id !in order
    ensures After(order, id) == {}
  {
    if order != [] {
      NothingAfter(order[..|order| - 1], id);
    }
  }

  // ------------------------------------------------------------------
  // Requests
  // ------------------------------------------------------------------

  /** The view-changes that report the request with digest cd of view cv as prepared at n, or a null request. */
  function Reporters(vcs: map<int, VC>, n: Seqno, cv: View, cd: Digest): set<int> {
    set i | i in vcs && vcs[i].ls < n && Req(vcs[i], n) == (cv, cd)
  }

  /** vc's word at n is for digest cd itself, prepared or not, in view cv or later. */
  predicate Affirms(vc: VC, n: Seqno, cv: View, cd: Digest) {
    match Proofs(vc, n)
    case None => false
    case Some(r) => r.d == cd && (if r.prepared then r.lv >= cv else r.v >= cv)
  }

  function Affirmers(vcs: map<int, VC>, n: Seqno, cv: View, cd: Digest): set<int> {
    set i | i in vcs && Affirms(vcs[i], n, cv, cd)
  }

  /**
   * Candidate j of the row of n was made for the first view-change with its
   * request.  n_le counts it, the lower candidates before it, and every later
   * view-change that is not above; n_proofs counts every one that vouched for
   * it up to then and every later one that vouches or reports it.
   */
  ghost predicate ReqTallied(f: nat, vcs: map<int, VC>, order: seq<int>, n: Seqno, row: seq<ReqSum>, j: nat)
    requires j < |row|
  {
    var q, late := row[j], After(order, row[j].id);
    && q.id in order
    && q.nLe == 1 + CountLower(row[..j], q.v) + |Lower(Summed(vcs, late), n, q.v, q.d)|
    && q.nProofs == |ProofSet(Summed(vcs, Members(order) - late), n, q.v, q.d)| + |Vouchers(Summed(vcs, late), n, q.v, q.d)|
    && (q.nPproofs > f || q.nPproofs >= |q.rPproofs|)
    && Affirmers(Summed(vcs, Members(order)), n, q.v, q.d) + Reporters(Summed(vcs, late), n, q.v, q.d) <= q.rPproofs
    && Reporters(Summed(vcs, Members(order)), n, q.v, q.d) <= late + {q.id}
  }

  ghost predicate RowTallied(f: nat, vcs: map<int, VC>, order: seq<int>, n: Seqno, row: seq<ReqSum>) {
    && (forall j :: 0 <= j < |row| ==> ReqTallied(f, vcs, order, n, row, j))
    && forall i :: i in order && i in vcs && vcs[i].ls < n ==> HasRequest(row, Req(vcs[i], n).0, Req(vcs[i], n).1)
  }

  /** What weighing vc adds to the counters of a candidate. */
  lemma UpdateCounts(q: ReqSum, vc: VC, n: Seqno)
    requires vc.ls < n
    ensures var r := UpdateReq(q, vc, n);
            && r.id == q.id && r.v == q.v && r.d == q.d
            && r.nLe == q.nLe + (if NotAbove(vc, n, q.v, q.d) then 1 else 0)
            && r.nProofs == q.nProofs + (if Vouches(vc, n, q.v, q.d) then 1 else 0)
            && (var positive := Req(vc, n) == (q.v, q.d) || Affirms(vc, n, q.v, q.d);
                && r.nPproofs == q.nPproofs + (if positive then 1 else 0)
                && r.rPproofs == q.rPproofs + (if positive then {vc.id} else {}))
  {
    AddProofsIs(q, vc, n);
  }

  lemma SizeAdd(s: set<int>, id: int)
    ensures |s + {id}| <= |s| + 1
  {
    UnionSize(s, {id});
  }

  lemma NewPositives(vcs: map<int, VC>, order: seq<int>, late: set<int>, vc: VC, n: Seqno, cv: View, cd: Digest)
    requires vc.id in vcs && vcs[vc.id] == vc && vc.ls < n
    ensures Affirmers(Summed(vcs, Members(order) + {vc.id}), n, cv, cd)
         == Affirmers(Summed(vcs, Members(order)), n, cv, cd) + if Affirms(vc, n, cv, cd) then {vc.id} else {}
    ensures Reporters(Summed(vcs, late + {vc.id}), n, cv, cd)
         == Reporters(Summed(vcs, late), n, cv, cd) + if Req(vc, n) == (cv, cd) then {vc.id} else {}
  {
    hide Req, Affirms;
  }

  /** A candidate counts the view-change that is weighed next. */
  lemma TallyNext(f: nat, vcs: map<int, VC>, order: seq<int>, vc: VC, n: Seqno, was: seq<ReqSum>, now: seq<ReqSum>, j: nat)
    requires vc.id !in order && vc.id in vcs && vcs[vc.id] == vc && vc.ls < n
    requires j < |was| <= |now| && ReqTallied(f, vcs, order, n, was, j)
    requires forall t :: 0 <= t < |was| ==> SameCounts(f, UpdateReq(was[t], vc, n), now[t])
    ensures ReqTallied(f, vcs, order + [vc.id], n, now, j)
  {
    hide UpdateReq, Lower, Vouchers, ProofSet, Req, NotAbove, Vouches, CountLower, After, Affirmers, Affirms;
    var q, late, order' := was[j], After(order, was[j].id), order + [vc.id];
    UpdateCounts(q, vc, n);
    AfterNext(order, vc.id, q.id);
    var late' := After(order', q.id);
    assert Members(order') - late' == Members(order) - late;
    SummedAdd(vcs, late, vc.id);
    SummedAdd(vcs, Members(order), vc.id);
    LowerAdd(Summed(vcs, late), vc.id, vc, n, q.v, q.d);
    VouchersAdd(Summed(vcs, late), vc.id, vc, n, q.v, q.d);
    NewPositives(vcs, order, late, vc, n, q.v, q.d);
    SizeAdd(q.rPproofs, vc.id);
    forall t | 0 <= t < j ensures now[..j][t].v == was[..j][t].v {
      UpdateCounts(was[t], vc, n);
    }
    SameCount(was[..j], now[..j], q.v);
    assert Reporters(Summed(vcs, Members(order')), n, q.v, q.d) <= Reporters(Summed(vcs, Members(order)), n, q.v, q.d) + {vc.id};
  }

  /** So does a candidate that is made for it. */
  lemma TallyFirst(f: nat, vcs: map<int, VC>, order: seq<int>, vc: VC, n: Seqno, was: seq<ReqSum>, now: seq<ReqSum>)
    requires vc.id !in order && vc.id in vcs && vcs[vc.id] == vc && vc.ls < n
    requires RowTallied(f, vcs, order, n, was) && !HasRequest(was, Req(vc, n).0, Req(vc, n).1)
    requires |now| == |was| + 1 && (forall t :: 0 <= t < |was| ==> now[t].v == was[t].v)
    requires IsCandidate(f, now[|was|], was, vc, n, Summed(vcs, Members(order + [vc.id])))
    ensures ReqTallied(f, vcs, order + [vc.id], n, now, |was|)
  {
    hide Lower, Vouchers, ProofSet, Req, CountLower, ReqTallied, HasRequest, After;
    var q, order' := now[|was|], order + [vc.id];
    NothingAfter(order, vc.id);
    AfterNext(order, vc.id, vc.id);
    NoneSummed(vcs, n, q.v, q.d);
    SameCount(was, now[..|was|], q.v);
    assert Members(order') - {} == Members(order');
    forall i | i in Reporters(Summed(vcs, Members(order')), n, q.v, q.d) ensures i == vc.id {
    }
    IsTallied(f, vcs, order', n, now, |was|);
  }

  lemma NoneSummed(vcs: map<int, VC>, n: Seqno, v: View, d: Digest)
    ensures |Lower(Summed(vcs, {}), n, v, d)| == 0 && |Vouchers(Summed(vcs, {}), n, v, d)| == 0
    ensures Reporters(Summed(vcs, {}), n, v, d) == {}
  {
    assert Summed(vcs, {}) == map[];
  }

  lemma IsTallied(f: nat, vcs: map<int, VC>, order: seq<int>, n: Seqno, row: seq<ReqSum>, j: nat)
    requires j < |row| && row[j].id in order && After(order, row[j].id) == {}
    requires row[j].nLe == 1 + CountLower(row[..j], row[j].v) + |Lower(Summed(vcs, {}), n, row[j].v, row[j].d)|
    requires row[j].nProofs == |ProofSet(Summed(vcs, Members(order) - {}), n, row[j].v, row[j].d)|
                               + |Vouchers(Summed(vcs, {}), n, row[j].v, row[j].d)|
    requires Reporters(Summed(vcs, {}), n, row[j].v, row[j].d) == {}
    requires row[j].rPproofs == Affirmers(Summed(vcs, Members(order)), n, row[j].v, row[j].d)
    requires row[j].nPproofs > f || row[j].nPproofs == |row[j].rPproofs|
    requires Reporters(Summed(vcs, Members(order)), n, row[j].v, row[j].d) <= {} + {row[j].id}
    ensures ReqTallied(f, vcs, order, n, row, j)
  {
  }

  /** A row that is weighed counts the view-change. */
  lemma RowWeighedTallied(f: nat, vcs: map<int, VC>, order: seq<int>, vc: VC, n: Seqno, was: seq<ReqSum>, now: seq<ReqSum>)
    requires vc.id !in order && vc.id in vcs && vcs[vc.id] == vc && vc.ls < n
    requires RowTallied(f, vcs, order, n, was) && RowWeighed(f, was, now, vc, n, Summed(vcs, Members(order + [vc.id])))
    ensures RowTallied(f, vcs, order + [vc.id], n, now)
  {
    hide ReqTallied, UpdateReq, Req, IsCandidate, HasRequest, Summed, Members;
    forall t | 0 <= t < |was| ensures now[t].v == was[t].v && now[t].d == was[t].d {
      UpdateCounts(was[t], vc, n);
    }
    forall j | 0 <= j < |now| ensures ReqTallied(f, vcs, order + [vc.id], n, now, j) {
      if j < |was| {
        TallyNext(f, vcs, order, vc, n, was, now, j);
      } else {
        TallyFirst(f, vcs, order, vc, n, was, now);
      }
    }
    if |now| > |was| {
      CandidateIs(f, now[|was|], was, vc, n, Summed(vcs, Members(order + [vc.id])));
    }
    forall i | i in order + [vc.id] && i in vcs && vcs[i].ls < n ensures HasRequest(now, Req(vcs[i], n).0, Req(vcs[i], n).1) {
      if i in order || |now| == |was| {
        StillHas(was, now, Req(vcs[i], n).0, Req(vcs[i], n).1);
      } else {
        LastHas(now);
      }
    }
  }

  lemma CandidateIs(f: nat, q: ReqSum, was: seq<ReqSum>, vc: VC, n: Seqno, vcs: map<int, VC>)
    requires vc.ls < n && IsCandidate(f, q, was, vc, n, vcs)
    ensures (q.v, q.d) == Req(vc, n)
  {
  }

  lemma StillHas(was: seq<ReqSum>, now: seq<ReqSum>, v: View, d: Digest)
    requires |was| <= |now| && (forall t :: 0 <= t < |was| ==> now[t].v == was[t].v && now[t].d == was[t].d)
    requires HasRequest(was, v, d)
    ensures HasRequest(now, v, d)
  {
    var t :| 0 <= t < |was| && was[t].v == v && was[t].d == d;
    assert now[t].v == v && now[t].d == d;
  }

  lemma LastHas(now: seq<ReqSum>)
    requires now != []
    ensures HasRequest(now, now[|now| - 1].v, now[|now| - 1].d)
  {
  }

  /** A view-change that says nothing about n changes no count. */
  lemma RowSkippedTallied(f: nat, vcs: map<int, VC>, order: seq<int>, vc: VC, n: Seqno, row: seq<ReqSum>)
    requires vc.id !in order && vc.id in vcs && vcs[vc.id] == vc && vc.ls >= n
    requires RowTallied(f, vcs, order, n, row)
    ensures RowTallied(f, vcs, order + [vc.id], n, row)
  {
    hide ReqTallied;
    forall j | 0 <= j < |row| ensures ReqTallied(f, vcs, order + [vc.id], n, row, j) {
      TallySkips(f, vcs, order, vc, n, row, j);
    }
  }

  lemma TallySkips(f: nat, vcs: map<int, VC>, order: seq<int>, vc: VC, n: Seqno, row: seq<ReqSum>, j: nat)
    requires vc.id !in order && vc.id in vcs && vcs[vc.id] == vc && vc.ls >= n
    requires j < |row| && ReqTallied(f, vcs, order, n, row, j)
    ensures ReqTallied(f, vcs, order + [vc.id], n, row, j)
  {
    hide Req, CountLower, After;
    var q, late, order' := row[j], After(order, row[j].id), order + [vc.id];
    AfterNext(order, vc.id, q.id);
    assert Members(order') - After(order', q.id) == Members(order) - late;
    assert Lower(Summed(vcs, late + {vc.id}), n, q.v, q.d) == Lower(Summed(vcs, late), n, q.v, q.d);
    assert Vouchers(Summed(vcs, late + {vc.id}), n, q.v, q.d) == Vouchers(Summed(vcs, late), n, q.v, q.d);
    assert Reporters(Summed(vcs, late + {vc.id}), n, q.v, q.d) == Reporters(Summed(vcs, late), n, q.v, q.d);
    assert Affirmers(Summed(vcs, Members(order) + {vc.id}), n, q.v, q.d) == Affirmers(Summed(vcs, Members(order)), n, q.v, q.d);
    assert Reporters(Summed(vcs, Members(order')), n, q.v, q.d) == Reporters(Summed(vcs, Members(order)), n, q.v, q.d);
  }

  lemma ReportersCount(vcs: map<int, VC>, n: Seqno, v: View, d: Digest)
    ensures |Reporters(vcs, n, v, d)| <= |Lower(vcs, n, v, d)| && |Reporters(vcs, n, v, d)| <= |Vouchers(vcs, n, v, d)|
  {
    hide Req;
    forall i | i in Reporters(vcs, n, v, d) ensures i in Lower(vcs, n, v, d) && i in Vouchers(vcs, n, v, d) {
      assert NotAbove(vcs[i], n, v, d) && Vouches(vcs[i], n, v, d);
    }
    SubsetSize(Reporters(vcs, n, v, d), Lower(vcs, n, v, d));
    SubsetSize(Reporters(vcs, n, v, d), Vouchers(vcs, n, v, d));
  }

  /** No counter falls behind: what the view-changes that report the request, and those that vouch for it, come to is counted. */
  lemma CountsEnough(f: nat, vcs: map<int, VC>, order: seq<int>, n: Seqno, row: seq<ReqSum>, j: nat)
    requires j < |row| && ReqTallied(f, vcs, order, n, row, j)
    ensures var q, all := row[j], Summed(vcs, Members(order));
            && q.nLe >= |Reporters(all, n, q.v, q.d)|
            && q.nLe >= 1 + |Lower(Summed(vcs, After(order, q.id)), n, q.v, q.d)|
            && q.nProofs >= |ProofSet(all, n, q.v, q.d)|
            && q.nProofs >= |Reporters(all, n, q.v, q.d)| - 1
            && (q.nPproofs > f || (q.nPproofs >= |Affirmers(all, n, q.v, q.d)| && q.nPproofs >= |Reporters(all, n, q.v, q.d)| - 1))
  {
    hide Req, CountLower, After, ProofVouches;
    var q, late := row[j], After(order, row[j].id);
    var all, later, first := Summed(vcs, Members(order)), Summed(vcs, late), Summed(vcs, Members(order) - late);
    SubsetSize(Reporters(all, n, q.v, q.d), Reporters(later, n, q.v, q.d) + {q.id});
    ReportersCount(later, n, q.v, q.d);
    SubsetSize(Reporters(later, n, q.v, q.d), q.rPproofs);
    SubsetSize(Affirmers(all, n, q.v, q.d), q.rPproofs);
    ProofsSplit(vcs, Members(order), late, n, q.v, q.d);
  }

  lemma ProofsSplit(vcs: map<int, VC>, ids: set<int>, late: set<int>, n: Seqno, v: View, d: Digest)
    requires late <= ids
    ensures |ProofSet(Summed(vcs, ids), n, v, d)|
         <= |ProofSet(Summed(vcs, ids - late), n, v, d)| + |Vouchers(Summed(vcs, late), n, v, d)|
  {
    hide ProofVouches, Vouches;
    var a, b := ProofSet(Summed(vcs, ids - late), n, v, d), Vouchers(Summed(vcs, late), n, v, d);
    forall i | i in ProofSet(Summed(vcs, ids), n, v, d) ensures i in a + b {
      ProofIsWord(vcs[i], n, v, d);
    }
    SubsetSize(ProofSet(Summed(vcs, ids), n, v, d), a + b);
    UnionSize(a, b);
  }

  /** What 2f + 1 of the view-changes weighed report has a candidate that counted enough, with proofs at hand. */
  lemma AgreedCounts(f: nat, vcs: map<int, VC>, order: seq<int>, n: Seqno, row: seq<ReqSum>, v: View, d: Digest) returns (j: nat)
    requires f >= 1 && RowTallied(f, vcs, order, n, row)
    requires |Reporters(Summed(vcs, Members(order)), n, v, d)| >= 2 * f + 1
    ensures j < |row| && row[j].v == v && row[j].d == d
    ensures row[j].nLe >= 2 * f + 1 && row[j].nProofs >= f + 1 && row[j].nPproofs > f
  {
    hide ReqTallied, Req;
    var i := Member(Reporters(Summed(vcs, Members(order)), n, v, d));
    assert HasRequest(row, v, d);
    j :| 0 <= j < |row| && row[j].v == v && row[j].d == d;
    CountsEnough(f, vcs, order, n, row, j);
  }

  // ------------------------------------------------------------------
  // Checkpoints
  // ------------------------------------------------------------------

  /** The view-changes counted below checkpoint n with digest d: those with a lower stable checkpoint and those with this one. */
  function UpToCkpt(vcs: map<int, VC>, n: Seqno, d: Digest): set<int> {
    set i | i in vcs && (vcs[i].ls < n || (vcs[i].ls == n && Ckpt(vcs[i], n) == Some(d)))
  }

  /** The view-changes whose stable checkpoint is n with digest d. */
  function StableAt(vcs: map<int, VC>, n: Seqno, d: Digest): set<int> {
    set i | i in vcs && vcs[i].ls == n && Ckpt(vcs[i], n) == Some(d)
  }

  /**
   * Candidate j was made for the first view-change with its checkpoint.
   * n_proofs counts those that hold it; n_le counts that one, the lower
   * candidates before it, and every later view-change that is up to it;
   * max_seqno is the last number that one of those refers to.
   */
  ghost predicate CkptTallied(vcs: map<int, VC>, order: seq<int>, ckpts: seq<CkptSum>, j: nat)
    requires j < |ckpts|
  {
    var c, late := ckpts[j], After(order, ckpts[j].id);
    && c.id in order
    && c.nProofs == |Holders(Summed(vcs, Members(order)), c.n, c.d)|
    && c.nLe == 1 + CountBelow(ckpts[..j], c.n) + |UpToCkpt(Summed(vcs, late), c.n, c.d)|
    && (exists i :: i in order && i in vcs && vcs[i].ls <= c.n && MaxSeqno(vcs[i]) == c.maxSeqno)
    && (forall i :: i in UpToCkpt(Summed(vcs, late), c.n, c.d) ==> MaxSeqno(vcs[i]) <= c.maxSeqno)
    && StableAt(Summed(vcs, Members(order)), c.n, c.d) <= late + {c.id}
  }

  ghost predicate CkptsTallied(vcs: map<int, VC>, order: seq<int>, ckpts: seq<CkptSum>) {
    && (forall j :: 0 <= j < |ckpts| ==> CkptTallied(vcs, order, ckpts, j))
    && forall i :: i in order && i in vcs && StableDigest(vcs[i]) != NULL_DIGEST ==> HasCkpt(ckpts, vcs[i])
  }

  lemma UpdateCkptCounts(c: CkptSum, vc: VC)
    requires c.d != NULL_DIGEST
    ensures var r, counted := UpdateCkpt(c, vc), vc.ls < c.n || (vc.ls == c.n && Ckpt(vc, c.n) == Some(c.d));
            && r.id == c.id && r.n == c.n && r.d == c.d
            && r.nProofs == c.nProofs + (if Ckpt(vc, c.n) == Some(c.d) then 1 else 0)
            && r.nLe == c.nLe + (if counted then 1 else 0)
            && r.maxSeqno == (if counted then Max(c.maxSeqno, MaxSeqno(vc)) else c.maxSeqno)
  {
    hide Ckpt, StableDigest;
    StableDigestIs(vc, c.d);
  }

  lemma UpToCkptAdd(vcs: map<int, VC>, id: int, vc: VC, n: Seqno, d: Digest)
    requires id !in vcs
    ensures |UpToCkpt(vcs[id := vc], n, d)| ==
              |UpToCkpt(vcs, n, d)| + if vc.ls < n || (vc.ls == n && Ckpt(vc, n) == Some(d)) then 1 else 0
  {
    hide Ckpt;
    AddedTo(UpToCkpt(vcs, n, d), UpToCkpt(vcs[id := vc], n, d), id, vc.ls < n || (vc.ls == n && Ckpt(vc, n) == Some(d)));
  }

  lemma {:induction false} SameBelow(a: seq<CkptSum>, b: seq<CkptSum>, n: Seqno)
    requires |a| == |b| && forall t :: 0 <= t < |a| ==> a[t].n == b[t].n
    ensures CountBelow(a, n) == CountBelow(b, n)
  {
    if a != [] {
      SameBelow(a[..|a| - 1], b[..|b| - 1], n);
    }
  }

  lemma CkptTallyNext(vcs: map<int, VC>, order: seq<int>, vc: VC, was: seq<CkptSum>, now: seq<CkptSum>, j: nat)
    requires vc.id !in order && vc.id in vcs && vcs[vc.id] == vc
    requires j < |was| <= |now| && CkptTallied(vcs, order, was, j)
    requires forall t :: 0 <= t < |was| ==> was[t].d != NULL_DIGEST && now[t] == UpdateCkpt(was[t], vc)
    ensures CkptTallied(vcs, order + [vc.id], now, j)
  {
    hide UpdateCkpt, CountBelow, After, StableDigest, Ckpt, MaxSeqno;
    var c, late, order' := was[j], After(order, was[j].id), order + [vc.id];
    UpdateCkptCounts(c, vc);
    AfterNext(order, vc.id, c.id);
    SummedAdd(vcs, late, vc.id);
    SummedAdd(vcs, Members(order), vc.id);
    HoldersAdd(Summed(vcs, Members(order)), vc.id, vc, c.n, c.d);
    UpToCkptAdd(Summed(vcs, late), vc.id, vc, c.n, c.d);
    forall t | 0 <= t < j ensures now[..j][t].n == was[..j][t].n {
      UpdateCkptCounts(was[t], vc);
    }
    SameBelow(was[..j], now[..j], c.n);
    var i :| i in order && i in vcs && vcs[i].ls <= c.n && MaxSeqno(vcs[i]) == c.maxSeqno;
    var w := if now[j].maxSeqno == c.maxSeqno then i else vc.id;
    assert w in order' && w in vcs && vcs[w].ls <= now[j].n && MaxSeqno(vcs[w]) == now[j].maxSeqno;
    assert StableAt(Summed(vcs, Members(order')), c.n, c.d) <= StableAt(Summed(vcs, Members(order)), c.n, c.d) + {vc.id};
  }

  /** The numbers that a new candidate reaches are those of its view-change or of a lower candidate. */
  lemma {:induction false} MaxBelowIs(ckpts: seq<CkptSum>, n: Seqno, m: Seqno)
    ensures MaxBelow(ckpts, n, m) == m
            || exists t :: 0 <= t < |ckpts| && ckpts[t].n < n && ckpts[t].maxSeqno == MaxBelow(ckpts, n, m)
  {
    if ckpts != [] {
      var before, c := ckpts[..|ckpts| - 1], ckpts[|ckpts| - 1];
      MaxBelowIs(before, n, m);
      var r := MaxBelow(ckpts, n, m);
      if c.n < n && r == c.maxSeqno {
        assert ckpts[|ckpts| - 1].maxSeqno == r;
      } else if r != m {
        var t :| 0 <= t < |before| && before[t].n < n && before[t].maxSeqno == MaxBelow(before, n, m);
        assert ckpts[t].maxSeqno == r;
      }
    }
  }

  lemma CkptTallyFirst(vcs: map<int, VC>, order: seq<int>, vc: VC, was: seq<CkptSum>, now: seq<CkptSum>)
    requires vc.id !in order && vc.id in vcs && vcs[vc.id] == vc && vcs.Keys == Members(order + [vc.id])
    requires CkptsTallied(vcs, order, was) && !HasCkpt(was, vc) && StableDigest(vc) != NULL_DIGEST
    requires |now| == |was| + 1 && (forall t :: 0 <= t < |was| ==> now[t].n == was[t].n)
    requires now[|was|] == FreshCkpt(vcs, was, vc)
    ensures CkptTallied(vcs, order + [vc.id], now, |was|)
  {
    hide CountBelow, After, StableDigest, Ckpt, MaxSeqno, HasCkpt, MaxBelow, CkptTallied;
    var c, order' := now[|was|], order + [vc.id];
    NothingAfter(order, vc.id);
    AfterNext(order, vc.id, vc.id);
    assert Summed(vcs, Members(order')) == vcs && Summed(vcs, {}) == map[];
    SameBelow(was, now[..|was|], c.n);
    MaxBelowIs(was, vc.ls, MaxSeqno(vc));
    var w := Reacher(vcs, order, was, vc, c.maxSeqno);
    assert w in order' && vcs[w].ls <= c.n && MaxSeqno(vcs[w]) == c.maxSeqno;
    forall i | i in StableAt(vcs, c.n, c.d) ensures i == vc.id {
      StableDigestIs(vcs[i], c.d);
      if i in order {
        SameCkpt(was, vcs[i], vc);
      }
    }
    assert StableAt(Summed(vcs, Members(order')), c.n, c.d) <= {} + {vc.id};
    IsCkptTallied(vcs, order', now, |was|, w);
  }

  lemma Reacher(vcs: map<int, VC>, order: seq<int>, was: seq<CkptSum>, vc: VC, max: Seqno) returns (w: int)
    requires vc.id in vcs && vcs[vc.id] == vc && forall j :: 0 <= j < |was| ==> CkptTallied(vcs, order, was, j)
    requires max == MaxSeqno(vc) || exists t :: 0 <= t < |was| && was[t].n < vc.ls && was[t].maxSeqno == max
    ensures w in order + [vc.id] && w in vcs && vcs[w].ls <= vc.ls && MaxSeqno(vcs[w]) == max
  {
    hide MaxSeqno, After, CountBelow, Holders, UpToCkpt, StableAt;
    if max == MaxSeqno(vc) {
      w := vc.id;
    } else {
      var t :| 0 <= t < |was| && was[t].n < vc.ls && was[t].maxSeqno == max;
      assert CkptTallied(vcs, order, was, t);
      w :| w in order && w in vcs && vcs[w].ls <= was[t].n && MaxSeqno(vcs[w]) == max;
    }
  }

  lemma SameCkpt(ckpts: seq<CkptSum>, a: VC, b: VC)
    requires a.ls == b.ls && StableDigest(a) == StableDigest(b)
    ensures HasCkpt(ckpts, a) <==> HasCkpt(ckpts, b)
  {
    hide StableDigest;
    if HasCkpt(ckpts, a) {
      var t :| 0 <= t < |ckpts| && Matches(ckpts[t], a);
      assert Matches(ckpts[t], b);
    }
    if HasCkpt(ckpts, b) {
      var t :| 0 <= t < |ckpts| && Matches(ckpts[t], b);
      assert Matches(ckpts[t], a);
    }
  }

  lemma IsCkptTallied(vcs: map<int, VC>, order: seq<int>, ckpts: seq<CkptSum>, j: nat, w: int)
    requires j < |ckpts| && ckpts[j].id in order && After(order, ckpts[j].id) == {}
    requires ckpts[j].nProofs == |Holders(Summed(vcs, Members(order)), ckpts[j].n, ckpts[j].d)|
    requires ckpts[j].nLe == 1 + CountBelow(ckpts[..j], ckpts[j].n)
    requires w in order && w in vcs && vcs[w].ls <= ckpts[j].n && MaxSeqno(vcs[w]) == ckpts[j].maxSeqno
    requires StableAt(Summed(vcs, Members(order)), ckpts[j].n, ckpts[j].d) <= {ckpts[j].id}
    ensures CkptTallied(vcs, order, ckpts, j)
  {
    hide After, Ckpt, CountBelow, StableDigest, MaxSeqno;
    assert Summed(vcs, {}) == map[];
    assert UpToCkpt(map[], ckpts[j].n, ckpts[j].d) == {};
  }

  /** Weighing a view-change keeps every count of the candidates. */
  lemma WeighedTallied(vcs: map<int, VC>, order: seq<int>, vc: VC, was: seq<CkptSum>)
    requires vc.id !in order && vc.id in vcs && vcs[vc.id] == vc && vcs.Keys == Members(order + [vc.id])
    requires CkptsTallied(vcs, order, was) && forall t :: 0 <= t < |was| ==> was[t].d != NULL_DIGEST
    ensures CkptsTallied(vcs, order + [vc.id], CkptsWeighed(was, vcs, vc))
  {
    hide CkptTallied, UpdateCkpt, FreshCkpt, HasCkpt, StableDigest, Members;
    var now := CkptsWeighed(was, vcs, vc);
    forall t | 0 <= t < |was| ensures now[t] == UpdateCkpt(was[t], vc) && now[t].n == was[t].n && now[t].d == was[t].d {
      UpdateCkptCounts(was[t], vc);
    }
    forall j | 0 <= j < |now| ensures CkptTallied(vcs, order + [vc.id], now, j) {
      if j < |was| {
        CkptTallyNext(vcs, order, vc, was, now, j);
      } else {
        CkptTallyFirst(vcs, order, vc, was, now);
      }
    }
    forall i | i in order + [vc.id] && i in vcs && StableDigest(vcs[i]) != NULL_DIGEST ensures HasCkpt(now, vcs[i]) {
      if i in order || HasCkpt(was, vc) {
        StillHasCkpt(was, now, vcs[i]);
      } else {
        FreshMatches(vcs, was, now, vc);
      }
    }
  }

  lemma StillHasCkpt(was: seq<CkptSum>, now: seq<CkptSum>, vc: VC)
    requires |was| <= |now| && (forall t :: 0 <= t < |was| ==> now[t].n == was[t].n && now[t].d == was[t].d)
    requires HasCkpt(was, vc)
    ensures HasCkpt(now, vc)
  {
    hide StableDigest;
    var t :| 0 <= t < |was| && Matches(was[t], vc);
    assert Matches(now[t], vc);
  }

  lemma FreshMatches(vcs: map<int, VC>, was: seq<CkptSum>, now: seq<CkptSum>, vc: VC)
    requires |now| == |was| + 1 && now[|was|] == FreshCkpt(vcs, was, vc)
    ensures HasCkpt(now, vc)
  {
    hide StableDigest, CountBelow, MaxBelow, Holders;
    assert Matches(now[|was|], vc);
  }

  /** A stable checkpoint that 2f + 1 of the view-changes report has a candidate that counted enough. */
  lemma AgreedCkpt(f: nat, vcs: map<int, VC>, order: seq<int>, ckpts: seq<CkptSum>, n: Seqno, d: Digest) returns (j: nat)
    requires vcs.Keys == Members(order) && CkptsTallied(vcs, order, ckpts) && d != NULL_DIGEST
    requires |StableAt(vcs, n, d)| >= 2 * f + 1
    ensures j < |ckpts| && ckpts[j].n == n && ckpts[j].d == d
    ensures ckpts[j].nLe >= 2 * f + 1 && ckpts[j].nProofs >= 2 * f + 1
  {
    hide After, CountBelow, MaxSeqno, Members;
    var i := Member(StableAt(vcs, n, d));
    assert i in vcs.Keys;
    InOrder(order, i);
    StableDigestIs(vcs[i], d);
    j :| 0 <= j < |ckpts| && Matches(ckpts[j], vcs[i]);
    assert CkptTallied(vcs, order, ckpts, j);
    AllSummed(vcs);
    StableHolds(vcs, n, d);
    var late := After(order, ckpts[j].id);
    SubsetSize(StableAt(vcs, n, d), UpToCkpt(Summed(vcs, late), n, d) + {ckpts[j].id});
  }

  lemma InOrder(order: seq<int>, i: int)
    ensures i in Members(order) <==> i in order
  {
  }

  lemma AllSummed(vcs: map<int, VC>)
    ensures Summed(vcs, vcs.Keys) == vcs
  {
  }

  lemma StableHolds(vcs: map<int, VC>, n: Seqno, d: Digest)
    requires d != NULL_DIGEST
    ensures |StableAt(vcs, n, d)| <= |Holders(vcs, n, d)|
  {
    hide Ckpt;
    forall i | i in StableAt(vcs, n, d) ensures i in Holders(vcs, n, d) {
      assert Ckpt(vcs[i], vcs[i].ls) == Some(d);
    }
    SubsetSize(StableAt(vcs, n, d), Holders(vcs, n, d));
  }

  // ------------------------------------------------------------------
  // All rows
  // ------------------------------------------------------------------

  ghost predicate RowsTallied(f: nat, vcs: map<int, VC>, order: seq<int>, base: Seqno, min: Seqno, reqs: seq<seq<ReqSum>>) {
    forall k :: 0 <= k < |reqs| && min < base + k ==> RowTallied(f, vcs, order, base + k, reqs[k])
  }

  /** Every row of the range above the stable checkpoint of vc is weighed, and no other is touched. */
  ghost predicate RowsWeighed(f: nat, was: seq<seq<ReqSum>>, now: seq<seq<ReqSum>>, base: Seqno, min: Seqno, max: Seqno,
                              vc: VC, vcs: map<int, VC>)
  {
    && |now| == |was|
    && forall t :: 0 <= t < |was| ==>
         if Max(min, vc.ls) < base + t < max then RowWeighed(f, was[t], now[t], vc, base + t, vcs) else now[t] == was[t]
  }

  lemma RowsWeighedTallied(f: nat, vcs: map<int, VC>, order: seq<int>, vc: VC, base: Seqno, min: Seqno,
                           was: seq<seq<ReqSum>>, now: seq<seq<ReqSum>>)
    requires vc.id !in order && vc.id in vcs && vcs[vc.id] == vc && RowsTallied(f, vcs, order, base, min, was)
    requires RowsWeighed(f, was, now, base, min, base + |was|, vc, Summed(vcs, Members(order + [vc.id])))
    ensures RowsTallied(f, vcs, order + [vc.id], base, min, now)
  {
    hide RowTallied, RowWeighed, Summed, Members;
    forall k | 0 <= k < |now| && min < base + k ensures RowTallied(f, vcs, order + [vc.id], base + k, now[k]) {
      if vc.ls < base + k {
        RowWeighedTallied(f, vcs, order, vc, base + k, was[k], now[k]);
      } else {
        RowSkippedTallied(f, vcs, order, vc, base + k, was[k]);
      }
    }
  }

  /** A view-change that arrives and is not weighed yet changes no count. */
  lemma ArrivalTallied(f: nat, vcs: map<int, VC>, order: seq<int>, id: int, vc: VC, base: Seqno, min: Seqno, reqs: seq<seq<ReqSum>>)
    requires id !in vcs && Members(order) <= vcs.Keys && RowsTallied(f, vcs, order, base, min, reqs)
    ensures RowsTallied(f, vcs[id := vc], order, base, min, reqs)
  {
    hide RowTallied;
    forall k | 0 <= k < |reqs| && min < base + k ensures RowTallied(f, vcs[id := vc], order, base + k, reqs[k]) {
      ArrivalRow(f, vcs, order, id, vc, base + k, reqs[k]);
    }
  }

  lemma ArrivalRow(f: nat, vcs: map<int, VC>, order: seq<int>, id: int, vc: VC, n: Seqno, row: seq<ReqSum>)
    requires id !in vcs && Members(order) <= vcs.Keys && RowTallied(f, vcs, order, n, row)
    ensures RowTallied(f, vcs[id := vc], order, n, row)
  {
    hide Req, CountLower, After, HasRequest, Lower, Vouchers, ProofSet, Reporters, Affirmers;
    var more := vcs[id := vc];
    forall j | 0 <= j < |row| ensures ReqTallied(f, more, order, n, row, j) {
      assert ReqTallied(f, vcs, order, n, row, j);
      var late := After(order, row[j].id);
      SameSummed(vcs, id, vc, late);
      SameSummed(vcs, id, vc, Members(order) - late);
      SameSummed(vcs, id, vc, Members(order));
    }
    forall i | i in order ensures i in Members(order) && vcs[id := vc][i] == vcs[i] {
    }
  }

  lemma ArrivalCkpts(vcs: map<int, VC>, order: seq<int>, id: int, vc: VC, ckpts: seq<CkptSum>)
    requires id !in vcs && Members(order) <= vcs.Keys && CkptsTallied(vcs, order, ckpts)
    ensures CkptsTallied(vcs[id := vc], order, ckpts)
  {
    hide Ckpt, CountBelow, After, HasCkpt, Holders, StableAt, MaxSeqno, StableDigest;
    var more := vcs[id := vc];
    forall i | i in order ensures i in Members(order) && i in more && more[i] == vcs[i] {
    }
    forall j | 0 <= j < |ckpts| ensures CkptTallied(more, order, ckpts, j) {
      assert CkptTallied(vcs, order, ckpts, j);
      SameSummed(vcs, id, vc, After(order, ckpts[j].id));
      SameSummed(vcs, id, vc, Members(order));
    }
  }

  lemma SameSummed(vcs: map<int, VC>, id: int, vc: VC, ids: set<int>)
    requires id !in vcs && ids <= vcs.Keys
    ensures Summed(vcs[id := vc], ids) == Summed(vcs, ids)
  {
  }

  lemma NothingTallied(f: nat, vcs: map<int, VC>, base: Seqno, min: Seqno, reqs: seq<seq<ReqSum>>)
    requires forall k :: 0 <= k < |reqs| ==> reqs[k] == []
    ensures RowsTallied(f, vcs, [], base, min, reqs) && Members([]) == {}
  {
  }

  /** q' is q with more at hand, a prepare of a replica that had not sent one counted once, or all that is needed. */
  predicate IsNoted(f: nat, q: ReqSum, q': ReqSum) {
    && q' == q.(pp := q'.pp, nPproofs := q'.nPproofs, rPproofs := q'.rPproofs)
    && (q.pp ==> q'.pp) && q.rPproofs <= q'.rPproofs && (q.nPproofs > f ==> q'.nPproofs > f)
    && (q'.nPproofs > f || |q'.rPproofs| - |q.rPproofs| <= q'.nPproofs - q.nPproofs)
  }

  /** Candidates keep their counts while it is noted what is at hand for one of them. */
  lemma NotedTallied(f: nat, vcs: map<int, VC>, order: seq<int>, base: Seqno, min: Seqno,
                     was: seq<seq<ReqSum>>, now: seq<seq<ReqSum>>, k: nat, j: nat)
    requires RowsTallied(f, vcs, order, base, min, was) && k < |was| == |now| && j < |was[k]| == |now[k]|
    requires forall t :: 0 <= t < |was| && t != k ==> now[t] == was[t]
    requires forall t :: 0 <= t < |was[k]| && t != j ==> now[k][t] == was[k][t]
    requires var q, q' := was[k][j], now[k][j];
             IsNoted(f, q, q')
    ensures RowsTallied(f, vcs, order, base, min, now)
  {
    hide RowTallied;
    forall t | 0 <= t < |now| && min < base + t ensures RowTallied(f, vcs, order, base + t, now[t]) {
      if t == k {
        NotedRow(f, vcs, order, base + k, was[k], now[k], j);
      }
    }
  }

  lemma NotedRow(f: nat, vcs: map<int, VC>, order: seq<int>, n: Seqno, was: seq<ReqSum>, now: seq<ReqSum>, j: nat)
    requires RowTallied(f, vcs, order, n, was) && j < |was| == |now|
    requires forall t :: 0 <= t < |was| && t != j ==> now[t] == was[t]
    requires var q, q' := was[j], now[j];
             IsNoted(f, q, q')
    ensures RowTallied(f, vcs, order, n, now)
  {
    hide Req, CountLower, After, Lower, Vouchers, ProofSet, Reporters, Affirmers, Summed, Members, HasRequest;
    forall t | 0 <= t < |now| ensures ReqTallied(f, vcs, order, n, now, t) {
      assert ReqTallied(f, vcs, order, n, was, t);
      SameCount(was[..t], now[..t], now[t].v);
    }
    forall v, d | HasRequest(was, v, d) ensures HasRequest(now, v, d) {
      StillHas(was, now, v, d);
    }
  }
}
