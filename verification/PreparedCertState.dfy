/**
 * Prepared certificates: Prepared_cert of src/Prepared_cert.h and
 * src/Prepared_cert.cc.  A slot of the log holds messages of one view and
 * sequence number only, so a pre-prepare is known by its digest.
 */
module PreparedCertState {
  import opened Wrappers
  import opened Types
  import opened Quorums
  import opened CertificateState

  datatype PCert = PCert(pp: Option<Digest>, pc: CertState<Digest>, primary: bool)
  {
    predicate WellFormed() {
      pc.WellFormed()
    }

    predicate IsComplete()
      requires WellFormed()
    {
      && pp.Some?
      && pc.IsComplete()
      && pc.CValue().Some? && pc.CValue().value.val == pp.value
    }

    /** The pre-prepare that the calling replica sent itself, as primary. */
    function MyPrePrepare(): Option<Digest> {
      if primary then pp else None
    }

    function Cleared(): PCert {
      PCert(None, pc.Cleared(), false)
    }
  }

  /** A prepared certificate needs 2f prepares beside the pre-prepare. */
  function EmptyPCert(f: nat, me: int): PCert {
    PCert(None, EmptyCert(f, me, 2 * f), false)
  }

  /** Some value that matches d is counted f times or more. */
  predicate HasBacking(pc: CertState<Digest>, d: Digest) {
    exists i :: 0 <= i < |pc.vals| && pc.vals[i].count >= pc.f && pc.vals[i].m.val == d
  }

  /**
   * Adds a pre-prepare from the primary with digest d.  "authentic" says that
   * everything but the requests checks out, "verified" that they do too.
   */
  function AddPrePrepare(p: PCert, d: Digest, verified: bool, authentic: bool): (r: (PCert, bool))
    ensures r.0.pc == p.pc && r.0.primary == p.primary
  {
    if p.pp.Some? then (p, false)
    else
      var ok := if p.pc.mine.None? then verified || (authentic && HasBacking(p.pc, d))
                else p.pc.mine.value.val == d && authentic;
      if ok then (p.(pp := Some(d)), true) else (p, false)
  }

  function AddPrepare(p: PCert, m: Msg<Digest>): (r: (PCert, bool))
    requires p.WellFormed()
    ensures r.0.WellFormed() && r.0.pp == p.pp && r.0.primary == p.primary
  {
    var (pc, added) := Add(p.pc, m);
    (p.(pc := pc), added)
  }

  function AddMyPrepare(p: PCert, m: Msg<Digest>): (r: (PCert, bool))
    requires p.WellFormed()
    ensures r.0.WellFormed() && r.0.pp == p.pp && r.0.primary == p.primary
  {
    var (pc, added) := AddMine(p.pc, m);
    (p.(pc := pc), added)
  }

  function AddMyPrePrepare(p: PCert, d: Digest): PCert {
    p.(pp := Some(d), primary := true)
  }

  function AddOld(p: PCert, d: Digest): PCert {
    p.(pp := Some(d))
  }

  /** Discards every message but the caller's own; iAmPrimary is about the current view. */
  function MarkStale(p: PCert, iAmPrimary: bool): (r: PCert)
    requires p.WellFormed()
    ensures r.WellFormed()
  {
    if p.IsComplete() then p
    else p.(pp := if iAmPrimary then p.pp else None, pc := CertificateState.MarkStale(p.pc))
  }

  /** The pre-prepare agrees with f prepares. */
  predicate IsPPCorrect(p: PCert) {
    p.pp.Some? && HasBacking(p.pc, p.pp.value)
  }

  /** A complete prepared certificate stands for 2f distinct replicas that prepared its digest. */
  lemma CompleteMeansPrepared(p: PCert, seen: map<int, Digest>)
    requires p.WellFormed() && Inv(p.pc, seen) && p.pc.complete == 2 * p.pc.f && p.IsComplete()
    ensures |Voters(seen, p.pp.value)| >= 2 * p.pc.f
  {
    InvBounded(p.pc, seen);
    BoundedCount(p.pc.vals, seen, p.pc.c.value);
  }

  /** Backing means f distinct replicas that prepared the digest. */
  lemma BackingMeansVoters(pc: CertState<Digest>, seen: map<int, Digest>, d: Digest)
    requires Inv(pc, seen) && HasBacking(pc, d)
    ensures |Voters(seen, d)| >= pc.f
  {
    InvBounded(pc, seen);
  }

  /**
   * A pre-prepare whose requests are not known to be authentic is accepted
   * only on the word of f prepares or of the caller's own; an accepted one is
   * the only one accepted until the certificate is emptied.
   */
  lemma AcceptedPrePrepare(p: PCert, seen: map<int, Digest>, d: Digest, verified: bool, authentic: bool)
    requires Inv(p.pc, seen) && AddPrePrepare(p, d, verified, authentic).1
    ensures p.pp.None?
    ensures p.pc.mine.Some? ==> p.pc.mine.value.val == d
    ensures verified || p.pc.mine.Some? || |Voters(seen, d)| >= p.pc.f
  {
    if !verified && p.pc.mine.None? {
      BackingMeansVoters(p.pc, seen, d);
    }
  }

  /**
   * While no value of the prepares is known to be correct, or if it is d, the
   * pre-prepare has backing exactly if f distinct replicas prepared its digest.
   */
  lemma BackingIffVoters(pc: CertState<Digest>, seen: map<int, Digest>, d: Digest)
    requires pc.WellFormed() && Inv(pc, seen) && pc.mine.None? && (pc.c.Some? ==> pc.CValue().value.val == d)
    ensures HasBacking(pc, d) <==> |Voters(seen, d)| >= pc.f
  {
    if HasBacking(pc, d) {
      BackingMeansVoters(pc, seen, d);
    }
    if |Voters(seen, d)| >= pc.f {
      if pc.c.Some? {
        assert pc.vals[pc.c.value].count >= pc.f && pc.vals[pc.c.value].m.val == d;
      } else {
        var id := Member(Voters(seen, d));
        assert HasVal(pc.vals, seen[id]);
      }
    }
  }

  /** So with f prepares for it a pre-prepare is accepted although its requests are not verified, and without one's own only then. */
  lemma BackedIsAccepted(p: PCert, seen: map<int, Digest>, d: Digest, verified: bool)
    requires p.WellFormed() && Inv(p.pc, seen) && p.pp.None?
    requires p.pc.c.Some? ==> p.pc.CValue().value.val == d
    ensures p.pc.mine.None? ==> (AddPrePrepare(p, d, verified, true).1 <==> verified || |Voters(seen, d)| >= p.pc.f)
    ensures p.pc.mine.Some? ==> (AddPrePrepare(p, d, verified, true).1 <==> p.pc.mine.value.val == d)
  {
    if p.pc.mine.None? {
      BackingIffVoters(p.pc, seen, d);
    }
  }

  /** Refreshing the keys of an incomplete certificate leaves a replica's own messages, a pre-prepare only to the primary. */
  lemma StaleKeepsMine(p: PCert, iAmPrimary: bool)
    requires p.WellFormed()
    ensures MarkStale(p, iAmPrimary).pc.mine == p.pc.mine
            && MarkStale(p, iAmPrimary).pp == if p.IsComplete() || iAmPrimary then p.pp else None
  {
  }
}
