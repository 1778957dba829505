/**
 * The counters by which the primary of a view weighs view-changes one at a
 * time: Ckpt_sum and Req_sum of src/NV_info.h as summarize, summarize_reqs and
 * get_proofs of src/NV_info.cc update them.  Each counter is a sound lower
 * bound of what the rules of NewViewRules count.
 */
module NewViewCounters {
  import opened Wrappers
  import opened Types
  import opened Quorums
  import opened OldRequestState
  import opened ViewChangeState
  import opened NewViewRules

  /** A checkpoint that some view-change reported as its stable one. */
  datatype CkptSum = CkptSum(n: Seqno, d: Digest, nProofs: nat, nLe: nat, maxSeqno: Seqno, id: int)

  /** A request that some view-change reported; pp says that its pre-prepare and requests are at hand. */
  datatype ReqSum = ReqSum(v: View, d: Digest, nProofs: nat, nPproofs: nat, rPproofs: set<int>,
                           pp: bool, nLe: nat, id: int)

  /** A view-change that verify() accepts. */
  predicate WellFormedVC(f: nat, vc: VC) {
    Verified(vc, 3 * f + 1)
  }

  // ------------------------------------------------------------------
  // Checkpoints
  // ------------------------------------------------------------------

  /** The view-changes whose stable checkpoint is at most n and that refer to nothing above m. */
  function LowerEnding(vcs: map<int, VC>, n: Seqno, m: Seqno): set<int> {
    set i | i in vcs && vcs[i].ls <= n && MaxSeqno(vcs[i]) <= m
  }

  ghost predicate CkptSumOK(vcs: map<int, VC>, c: CkptSum) {
    && c.id in vcs && vcs[c.id].ls == c.n && Ckpt(vcs[c.id], c.n) == Some(c.d) && c.d != NULL_DIGEST
    && MaxSeqno(vcs[c.id]) <= c.maxSeqno
    && c.n <= c.maxSeqno <= c.n + MAX_OUT
    && c.nLe <= |LowerEnding(vcs, c.n, c.maxSeqno)|
    && c.nProofs <= |Holders(vcs, c.n, c.d)|
  }

  ghost predicate DistinctCkpts(ckpts: seq<CkptSum>) {
    forall i, j :: 0 <= i < j < |ckpts| ==> ckpts[i].id != ckpts[j].id
  }

  ghost predicate CkptsOK(vcs: map<int, VC>, ckpts: seq<CkptSum>) {
    (forall i :: 0 <= i < |ckpts| ==> CkptSumOK(vcs, ckpts[i])) && DistinctCkpts(ckpts)
  }

  /** The digest of the stable checkpoint of vc, null if it has none. */
  function StableDigest(vc: VC): Digest {
    match Ckpt(vc, vc.ls)
    case None => NULL_DIGEST
    case Some(d) => d
  }

  lemma StableDigestIs(vc: VC, d: Digest)
    requires d != NULL_DIGEST
    ensures StableDigest(vc) == d <==> Ckpt(vc, vc.ls) == Some(d)
    ensures StableDigest(vc) == NULL_DIGEST <==> Ckpt(vc, vc.ls) == None
  {
  }

  predicate Matches(c: CkptSum, vc: VC) {
    c.n == vc.ls && c.d == StableDigest(vc)
  }

  /** What vc adds to candidate c. */
  function UpdateCkpt(c: CkptSum, vc: VC): CkptSum {
    if Matches(c, vc) then
      c.(nProofs := c.nProofs + 1, nLe := c.nLe + 1, maxSeqno := Max(c.maxSeqno, MaxSeqno(vc)))
    else
      var c1 := if Ckpt(vc, c.n) == Some(c.d) then c.(nProofs := c.nProofs + 1) else c;
      if c.n > vc.ls then c1.(nLe := c.nLe + 1, maxSeqno := Max(c.maxSeqno, MaxSeqno(vc))) else c1
  }

  lemma AddedTo(s: set<int>, s': set<int>, id: int, added: bool)
    requires id !in s && s' == if added then s + {id} else s
    ensures |s'| == |s| + if added then 1 else 0
  {
  }

  lemma HoldersAdd(vcs: map<int, VC>, id: int, vc: VC, n: Seqno, d: Digest)
    requires id !in vcs
    ensures |Holders(vcs[id := vc], n, d)| == |Holders(vcs, n, d)| + if Ckpt(vc, n) == Some(d) then 1 else 0
  {
    hide Ckpt;
    AddedTo(Holders(vcs, n, d), Holders(vcs[id := vc], n, d), id, Ckpt(vc, n) == Some(d));
  }

  lemma LowerEndingAdd(vcs: map<int, VC>, id: int, vc: VC, n: Seqno, m: Seqno, m': Seqno)
    requires id !in vcs && m <= m'
    ensures |LowerEnding(vcs[id := vc], n, m')| >=
              |LowerEnding(vcs, n, m)| + if vc.ls <= n && MaxSeqno(vc) <= m' then 1 else 0
  {
    if vc.ls <= n && MaxSeqno(vc) <= m' {
      SubsetSize(LowerEnding(vcs, n, m) + {id}, LowerEnding(vcs[id := vc], n, m'));
    } else {
      SubsetSize(LowerEnding(vcs, n, m), LowerEnding(vcs[id := vc], n, m'));
    }
  }

  /** A view-change that is not weighed yet takes nothing away. */
  lemma CkptGrows(vcs: map<int, VC>, id: int, vc: VC, c: CkptSum)
    requires id !in vcs && CkptSumOK(vcs, c)
    ensures CkptSumOK(vcs[id := vc], c)
  {
    hide Ckpt, MaxSeqno;
    HoldersAdd(vcs, id, vc, c.n, c.d);
    LowerEndingAdd(vcs, id, vc, c.n, c.maxSeqno, c.maxSeqno);
  }

  /** Weighing vc for one candidate. */
  lemma UpdateCkptOK(f: nat, vcs: map<int, VC>, id: int, vc: VC, c: CkptSum)
    requires id !in vcs && WellFormedVC(f, vc) && CkptSumOK(vcs, c)
    ensures CkptSumOK(vcs[id := vc], UpdateCkpt(c, vc))
  {
    hide Ckpt, Verified, Holders, LowerEnding;
    var c' := UpdateCkpt(c, vc);
    HoldersAdd(vcs, id, vc, c.n, c.d);
    LowerEndingAdd(vcs, id, vc, c.n, c.maxSeqno, c'.maxSeqno);
    SoundBounds(f, vc);
  }

  lemma SoundBounds(f: nat, vc: VC)
    requires WellFormedVC(f, vc)
    ensures vc.ls <= MaxSeqno(vc) <= vc.ls + MAX_OUT
  {
  }

  /** How many of the candidates are for a lower sequence number than n. */
  function CountBelow(ckpts: seq<CkptSum>, n: Seqno): nat {
    if ckpts == [] then 0
    else CountBelow(ckpts[..|ckpts| - 1], n) + if ckpts[|ckpts| - 1].n < n then 1 else 0
  }

  function PlacesBelow(ckpts: seq<CkptSum>, n: Seqno): set<int> {
    set j | 0 <= j < |ckpts| && ckpts[j].n < n
  }

  lemma {:induction false} CountBelowIs(ckpts: seq<CkptSum>, n: Seqno)
    ensures CountBelow(ckpts, n) == |PlacesBelow(ckpts, n)|
  {
    if ckpts != [] {
      var k := |ckpts| - 1;
      CountBelowIs(ckpts[..k], n);
      AddedTo(PlacesBelow(ckpts[..k], n), PlacesBelow(ckpts, n), k, ckpts[k].n < n);
    }
  }

  /** The greatest sequence number that a candidate below n refers to, but at least m. */
  function MaxBelow(ckpts: seq<CkptSum>, n: Seqno, m: Seqno): (r: Seqno)
    ensures r >= m
  {
    if ckpts == [] then m
    else
      var c := ckpts[|ckpts| - 1];
      var r := MaxBelow(ckpts[..|ckpts| - 1], n, m);
      if c.n < n then Max(r, c.maxSeqno) else r
  }

  lemma {:induction false} MaxBelowBounds(vcs: map<int, VC>, ckpts: seq<CkptSum>, n: Seqno, m: Seqno)
    requires CkptsOK(vcs, ckpts) && m <= n + MAX_OUT
    ensures MaxBelow(ckpts, n, m) <= n + MAX_OUT
    ensures forall i :: 0 <= i < |ckpts| && ckpts[i].n < n ==> ckpts[i].maxSeqno <= MaxBelow(ckpts, n, m)
  {
    hide CkptSumOK;
    if ckpts != [] {
      MaxBelowBounds(vcs, ckpts[..|ckpts| - 1], n, m);
      CkptRange(vcs, ckpts[|ckpts| - 1]);
    }
  }

  lemma CkptRange(vcs: map<int, VC>, c: CkptSum)
    requires CkptSumOK(vcs, c)
    ensures c.maxSeqno <= c.n + MAX_OUT && c.id in vcs && vcs[c.id].ls == c.n && MaxSeqno(vcs[c.id]) <= c.maxSeqno
  {
  }

  /** Distinct candidates below n come from as many distinct view-changes that are lower. */
  lemma {:induction false} CountBelowBound(vcs: map<int, VC>, ckpts: seq<CkptSum>, n: Seqno, m: Seqno)
    requires CkptsOK(vcs, ckpts) && forall i :: 0 <= i < |ckpts| && ckpts[i].n < n ==> ckpts[i].maxSeqno <= m
    ensures CountBelow(ckpts, n) <= |Proposers(ckpts, n)|
    ensures Proposers(ckpts, n) <= LowerEnding(vcs, n, m)
  {
    hide CkptSumOK, MaxSeqno;
    if ckpts != [] {
      var before, c := ckpts[..|ckpts| - 1], ckpts[|ckpts| - 1];
      CountBelowBound(vcs, before, n, m);
      CkptRange(vcs, c);
      if c.n < n {
        assert c.id !in Proposers(before, n);
        assert Proposers(ckpts, n) == Proposers(before, n) + {c.id};
      } else {
        assert Proposers(ckpts, n) == Proposers(before, n);
      }
    }
  }

  /** The authors of the view-changes that proposed the candidates below n. */
  function Proposers(ckpts: seq<CkptSum>, n: Seqno): set<int> {
    set i | 0 <= i < |ckpts| && ckpts[i].n < n :: ckpts[i].id
  }

  /**
   * A new candidate counts the candidates below it, not the view-changes, and
   * itself; vcs includes vc.
   */
  function FreshCkpt(vcs: map<int, VC>, ckpts: seq<CkptSum>, vc: VC): CkptSum {
    CkptSum(vc.ls, StableDigest(vc), |Holders(vcs, vc.ls, StableDigest(vc))|,
            CountBelow(ckpts, vc.ls) + 1, MaxBelow(ckpts, vc.ls, MaxSeqno(vc)), vc.id)
  }

  lemma FreshCkptOK(f: nat, vcs: map<int, VC>, ckpts: seq<CkptSum>, vc: VC)
    requires CkptsOK(vcs, ckpts) && vc.id in vcs && vcs[vc.id] == vc && WellFormedVC(f, vc) && StableDigest(vc) != NULL_DIGEST
    requires forall i :: 0 <= i < |ckpts| ==> ckpts[i].id != vc.id
    ensures CkptSumOK(vcs, FreshCkpt(vcs, ckpts, vc))
    ensures CkptsOK(vcs, ckpts + [FreshCkpt(vcs, ckpts, vc)])
  {
    hide CkptSumOK, Ckpt, Verified, MaxSeqno;
    var c := FreshCkpt(vcs, ckpts, vc);
    SoundBounds(f, vc);
    MaxBelowBounds(vcs, ckpts, vc.ls, MaxSeqno(vc));
    CountBelowBound(vcs, ckpts, vc.ls, c.maxSeqno);
    ProposersBelow(vcs, ckpts, vc);
    SubsetSize(Proposers(ckpts, vc.ls) + {vc.id}, LowerEnding(vcs, vc.ls, c.maxSeqno));
    IsCkptSum(vcs, c);
  }

  lemma ProposersBelow(vcs: map<int, VC>, ckpts: seq<CkptSum>, vc: VC)
    requires forall i :: 0 <= i < |ckpts| ==> ckpts[i].id != vc.id
    ensures vc.id !in Proposers(ckpts, vc.ls)
  {
  }

  lemma IsCkptSum(vcs: map<int, VC>, c: CkptSum)
    requires c.id in vcs && vcs[c.id].ls == c.n && Ckpt(vcs[c.id], c.n) == Some(c.d) && c.d != NULL_DIGEST
    requires MaxSeqno(vcs[c.id]) <= c.maxSeqno && c.n <= c.maxSeqno <= c.n + MAX_OUT
    requires c.nLe <= |LowerEnding(vcs, c.n, c.maxSeqno)| && c.nProofs <= |Holders(vcs, c.n, c.d)|
    ensures CkptSumOK(vcs, c)
  {
  }

  /** A candidate that counted enough may be chosen, and its range with it. */
  lemma ChosenIsSelected(f: nat, vcs: map<int, VC>, c: CkptSum)
    requires CkptSumOK(vcs, c) && c.nProofs >= f + 1 && c.nLe >= 2 * f + 1
    ensures CkptSelected(f, vcs, c.n, c.d) && RangeSelected(f, vcs, c.maxSeqno + 1)
  {
    SubsetSize(LowerEnding(vcs, c.n, c.maxSeqno), StableUpTo(vcs, c.n));
    SubsetSize(LowerEnding(vcs, c.n, c.maxSeqno), EndingBelow(vcs, c.maxSeqno + 1));
  }

  /** More view-changes never undo a range. */
  lemma RangeGrows(f: nat, vcs: map<int, VC>, id: int, vc: VC, max: Seqno)
    requires id !in vcs && RangeSelected(f, vcs, max)
    ensures RangeSelected(f, vcs[id := vc], max)
  {
    SubsetSize(EndingBelow(vcs, max), EndingBelow(vcs[id := vc], max));
  }

  // ------------------------------------------------------------------
  // Requests
  // ------------------------------------------------------------------

  ghost predicate ReqSumOK(vcs: map<int, VC>, n: Seqno, q: ReqSum) {
    && q.id in vcs && vcs[q.id].ls < n && Req(vcs[q.id], n) == (q.v, q.d)
    && q.nLe <= |Lower(vcs, n, q.v, q.d)|
    && q.nProofs <= |Vouchers(vcs, n, q.v, q.d)|
  }

  ghost predicate DistinctReqs(list: seq<ReqSum>) {
    forall i, j :: 0 <= i < j < |list| ==> list[i].id != list[j].id
  }

  ghost predicate ReqsOK(vcs: map<int, VC>, n: Seqno, list: seq<ReqSum>) {
    (forall j :: 0 <= j < |list| ==> ReqSumOK(vcs, n, list[j])) && DistinctReqs(list)
  }

  function Positive(q: ReqSum, id: int): ReqSum {
    q.(nProofs := q.nProofs + 1, nPproofs := q.nPproofs + 1, rPproofs := q.rPproofs + {id})
  }

  /** get_proofs: what vc says for q. */
  function AddProofs(q: ReqSum, vc: VC, n: Seqno): ReqSum {
    match Proofs(vc, n)
    case None => if n > vc.ls && q.v < 0 then q.(nProofs := q.nProofs + 1) else q
    case Some(r) =>
      if r.prepared then
        if r.lv >= q.v && r.d == q.d then Positive(q, vc.id) else q
      else if r.v >= q.v && r.d == q.d then Positive(q, vc.id)
      else if q.v <= r.lv then q.(nProofs := q.nProofs + 1)
      else q
  }

  /** What summarize_reqs makes of candidate q on seeing vc. */
  function UpdateReq(q: ReqSum, vc: VC, n: Seqno): ReqSum
    requires vc.ls < n
  {
    if (q.v, q.d) == Req(vc, n) then
      var p := Positive(q, vc.id); p.(nLe := q.nLe + 1)
    else
      var p := AddProofs(q, vc, n);
      if q.v > Req(vc, n).0 then p.(nLe := q.nLe + 1) else p
  }

  /** vc's word as get_proofs takes it. */
  predicate ProofVouches(vc: VC, n: Seqno, cv: View, cd: Digest) {
    match Proofs(vc, n)
    case None => n > vc.ls && cv < 0
    case Some(r) => RecordVouches(r, cv, cd)
  }

  lemma AddProofsIs(q: ReqSum, vc: VC, n: Seqno)
    ensures AddProofs(q, vc, n).nProofs == q.nProofs + if ProofVouches(vc, n, q.v, q.d) then 1 else 0
    ensures var p := AddProofs(q, vc, n); p.v == q.v && p.d == q.d && p.nLe == q.nLe && p.id == q.id && p.pp == q.pp
  {
  }

  lemma ProofIsWord(vc: VC, n: Seqno, cv: View, cd: Digest)
    requires ProofVouches(vc, n, cv, cd)
    ensures Vouches(vc, n, cv, cd)
  {
  }

  lemma LowerAdd(vcs: map<int, VC>, id: int, vc: VC, n: Seqno, cv: View, cd: Digest)
    requires id !in vcs
    ensures |Lower(vcs[id := vc], n, cv, cd)| == |Lower(vcs, n, cv, cd)| + if NotAbove(vc, n, cv, cd) then 1 else 0
  {
    hide NotAbove;
    AddedTo(Lower(vcs, n, cv, cd), Lower(vcs[id := vc], n, cv, cd), id, NotAbove(vc, n, cv, cd));
  }

  lemma VouchersAdd(vcs: map<int, VC>, id: int, vc: VC, n: Seqno, cv: View, cd: Digest)
    requires id !in vcs
    ensures |Vouchers(vcs[id := vc], n, cv, cd)| == |Vouchers(vcs, n, cv, cd)| + if Vouches(vc, n, cv, cd) then 1 else 0
  {
    hide Vouches;
    AddedTo(Vouchers(vcs, n, cv, cd), Vouchers(vcs[id := vc], n, cv, cd), id, Vouches(vc, n, cv, cd));
  }

  lemma ReqGrows(vcs: map<int, VC>, id: int, vc: VC, n: Seqno, q: ReqSum)
    requires id !in vcs && ReqSumOK(vcs, n, q)
    ensures ReqSumOK(vcs[id := vc], n, q)
  {
    hide Req, Lower, Vouchers;
    LowerAdd(vcs, id, vc, n, q.v, q.d);
    VouchersAdd(vcs, id, vc, n, q.v, q.d);
  }

  lemma UpdateReqOK(vcs: map<int, VC>, id: int, vc: VC, n: Seqno, q: ReqSum)
    requires id !in vcs && vc.ls < n && ReqSumOK(vcs, n, q)
    ensures ReqSumOK(vcs[id := vc], n, UpdateReq(q, vc, n))
  {
    hide Req, Lower, Vouchers, Proofs, RecordVouches, AddProofs, ProofVouches;
    LowerAdd(vcs, id, vc, n, q.v, q.d);
    VouchersAdd(vcs, id, vc, n, q.v, q.d);
    AddProofsIs(q, vc, n);
    if ProofVouches(vc, n, q.v, q.d) {
      ProofIsWord(vc, n, q.v, q.d);
    }
  }

  /** How many candidates are of a lower view than v. */
  function CountLower(list: seq<ReqSum>, v: View): nat {
    if list == [] then 0
    else CountLower(list[..|list| - 1], v) + if list[|list| - 1].v < v then 1 else 0
  }

  /** The candidates of a lower view than v, by their places. */
  function PlacesLower(list: seq<ReqSum>, v: View): set<int> {
    set j | 0 <= j < |list| && list[j].v < v
  }

  lemma {:induction false} CountLowerIs(list: seq<ReqSum>, v: View)
    ensures CountLower(list, v) == |PlacesLower(list, v)|
  {
    if list != [] {
      var k := |list| - 1;
      CountLowerIs(list[..k], v);
      AddedTo(PlacesLower(list[..k], v), PlacesLower(list, v), k, list[k].v < v);
    }
  }

  function ReqProposers(list: seq<ReqSum>, v: View): set<int> {
    set j | 0 <= j < |list| && list[j].v < v :: list[j].id
  }

  lemma {:induction false} CountLowerBound(vcs: map<int, VC>, n: Seqno, list: seq<ReqSum>, v: View, d: Digest)
    requires ReqsOK(vcs, n, list)
    ensures CountLower(list, v) <= |ReqProposers(list, v)|
    ensures ReqProposers(list, v) <= Lower(vcs, n, v, d)
  {
    hide ReqSumOK, Req;
    if list != [] {
      var before, q := list[..|list| - 1], list[|list| - 1];
      CountLowerBound(vcs, n, before, v, d);
      ReqSource(vcs, n, q);
      if q.v < v {
        assert q.id !in ReqProposers(before, v);
        assert ReqProposers(list, v) == ReqProposers(before, v) + {q.id};
      } else {
        assert ReqProposers(list, v) == ReqProposers(before, v);
      }
    }
  }

  lemma ReqSource(vcs: map<int, VC>, n: Seqno, q: ReqSum)
    requires ReqSumOK(vcs, n, q)
    ensures q.id in vcs && vcs[q.id].ls < n && Req(vcs[q.id], n) == (q.v, q.d)
  {
  }

  function ProofSet(vcs: map<int, VC>, n: Seqno, cv: View, cd: Digest): set<int> {
    set i | i in vcs && ProofVouches(vcs[i], n, cv, cd)
  }

  /** A candidate for vc's request that counted the lower candidates and itself, and the proofs of all of vcs. */
  lemma FreshReqOK(vcs: map<int, VC>, n: Seqno, list: seq<ReqSum>, vc: VC, q: ReqSum)
    requires ReqsOK(vcs, n, list) && vc.id in vcs && vcs[vc.id] == vc && vc.ls < n
    requires forall j :: 0 <= j < |list| ==> list[j].id != vc.id
    requires q.id == vc.id && (q.v, q.d) == Req(vc, n)
    requires q.nLe == CountLower(list, q.v) + 1 && q.nProofs == |ProofSet(vcs, n, q.v, q.d)|
    ensures ReqsOK(vcs, n, list + [q])
  {
    hide ReqSumOK, Req, ProofVouches, Vouches;
    CountLowerBound(vcs, n, list, q.v, q.d);
    SubsetSize(ReqProposers(list, q.v) + {vc.id}, Lower(vcs, n, q.v, q.d));
    forall i | i in ProofSet(vcs, n, q.v, q.d) ensures i in Vouchers(vcs, n, q.v, q.d) {
      ProofIsWord(vcs[i], n, q.v, q.d);
    }
    SubsetSize(ProofSet(vcs, n, q.v, q.d), Vouchers(vcs, n, q.v, q.d));
    IsReqSum(vcs, n, q);
  }

  lemma IsReqSum(vcs: map<int, VC>, n: Seqno, q: ReqSum)
    requires q.id in vcs && vcs[q.id].ls < n && Req(vcs[q.id], n) == (q.v, q.d)
    requires q.nLe <= |Lower(vcs, n, q.v, q.d)| && q.nProofs <= |Vouchers(vcs, n, q.v, q.d)|
    ensures ReqSumOK(vcs, n, q)
  {
  }

  /** A candidate that counted enough among some of the view-changes is selected by the rules among all of them. */
  lemma CountedIsSelected(f: nat, some: map<int, VC>, vcs: map<int, VC>, n: Seqno, q: ReqSum)
    requires ReqSumOK(some, n, q) && q.nLe >= 2 * f + 1 && q.nProofs >= f + 1
    requires forall i :: i in some ==> i in vcs && vcs[i] == some[i]
    ensures ReqSelected(f, vcs, n, q.v, q.d)
  {
    hide NotAbove, Vouches, Req;
    forall i | i in Lower(some, n, q.v, q.d) ensures i in Lower(vcs, n, q.v, q.d) {
    }
    SubsetSize(Lower(some, n, q.v, q.d), Lower(vcs, n, q.v, q.d));
    forall i | i in Vouchers(some, n, q.v, q.d) ensures i in Vouchers(vcs, n, q.v, q.d) {
    }
    SubsetSize(Vouchers(some, n, q.v, q.d), Vouchers(vcs, n, q.v, q.d));
  }
}
