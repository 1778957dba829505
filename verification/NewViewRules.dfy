/**
 * The rules by which a new view is formed from view-changes: what summarize,
 * summarize_reqs and get_proofs of src/NV_info.cc count, stated over the set
 * of view-changes and without counters.
 */
module NewViewRules {
  import opened Wrappers
  import opened Types
  import opened OldRequestState
  import opened ViewChangeState

  /** vc vouches for a request with digest cd in view cv at n. */
  predicate Vouches(vc: VC, n: Seqno, cv: View, cd: Digest) {
    && vc.ls < n
    && (|| Req(vc, n) == (cv, cd)
        || match Proofs(vc, n)
           case None => cv < 0
           case Some(r) => RecordVouches(r, cv, cd))
  }

  /** vc prepared nothing at n above the request with digest cd in view cv: an equal view needs an equal digest. */
  predicate NotAbove(vc: VC, n: Seqno, cv: View, cd: Digest) {
    vc.ls < n && (Req(vc, n) == (cv, cd) || Req(vc, n).0 < cv)
  }

  function Vouchers(vcs: map<int, VC>, n: Seqno, cv: View, cd: Digest): set<int> {
    set i | i in vcs && Vouches(vcs[i], n, cv, cd)
  }

  function Lower(vcs: map<int, VC>, n: Seqno, cv: View, cd: Digest): set<int> {
    set i | i in vcs && NotAbove(vcs[i], n, cv, cd)
  }

  function Holders(vcs: map<int, VC>, n: Seqno, d: Digest): set<int> {
    set i | i in vcs && Ckpt(vcs[i], n) == Some(d)
  }

  function StableUpTo(vcs: map<int, VC>, n: Seqno): set<int> {
    set i | i in vcs && vcs[i].ls <= n
  }

  function EndingBelow(vcs: map<int, VC>, max: Seqno): set<int> {
    set i | i in vcs && MaxSeqno(vcs[i]) < max
  }

  /** The request with digest cd of view cv may be propagated at n. */
  predicate ReqSelected(f: nat, vcs: map<int, VC>, n: Seqno, cv: View, cd: Digest) {
    |Lower(vcs, n, cv, cd)| >= 2 * f + 1 && |Vouchers(vcs, n, cv, cd)| >= f + 1
  }

  /** The new view may start from checkpoint n with digest d. */
  predicate CkptSelected(f: nat, vcs: map<int, VC>, n: Seqno, d: Digest) {
    d != NULL_DIGEST && |Holders(vcs, n, d)| >= f + 1 && |StableUpTo(vcs, n)| >= 2 * f + 1
  }

  /** No request at or above max needs to be propagated. */
  predicate RangeSelected(f: nat, vcs: map<int, VC>, max: Seqno) {
    |EndingBelow(vcs, max)| >= 2 * f + 1
  }
}
