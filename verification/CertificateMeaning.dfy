/**
 * What complete certificates in the log of a correct replica stand for in the
 * message set, and how a certificate stays sound as votes come in.
 */
module CertificateMeaning {
  import opened Wrappers
  import opened Types
  import opened Quorums
  import opened CertificateState
  import PC = PreparedCertState
  import opened ReplicaState
  import opened Protocol
  import opened ProtocolInvariant

  /** Votes come from replicas of the group. */
  lemma SeenInGroup<V>(s: CertState<V>, seen: map<int, V>)
    requires Inv(s, seen) && 0 <= s.me < 3 * s.f + 1
    ensures forall id :: id in seen ==> 0 <= id < 3 * s.f + 1
  {
  }

  /** A complete certificate has at least as many voters for its value. */
  lemma CompleteVoters<V>(s: CertState<V>, seen: map<int, V>)
    requires s.WellFormed() && Inv(s, seen) && s.IsComplete() && s.complete >= 1
    ensures s.c.Some? && |Voters(seen, s.vals[s.c.value].m.val)| >= s.complete
  {
    InvBounded(s, seen);
    BoundedCount(s.vals, seen, s.c.value);
  }

  lemma VotersBack(g: Group, msgs: set<Message>, v: View, n: Seqno, d: Digest, seen: map<int, Digest>)
    requires PreparesSent(g.f, msgs, v, n, seen) && forall id :: id in seen ==> 0 <= id < 3 * g.f + 1
    requires PPOK(g, msgs, v, n, Some(d)) && |Voters(seen, d)| >= 2 * g.f
    ensures QuorumPrepared(g, msgs, v, n, d)
  {
    var p := Primary(g.f, v);
    assert p !in Voters(seen, d);
    SubsetSize(Voters(seen, d) + {p}, Backers(g, msgs, v, n, d));
  }

  /** A prepared certificate of a correct replica is complete only if a quorum stands behind its digest. */
  lemma CompleteMeansQuorumPrepared(g: Group, msgs: set<Message>, id: int, v: View, n: Seqno, p: PC.PCert)
    requires g.Valid() && g.Correct(id)
    requires CertOK(g, msgs, id, v, n, p.pc) && PPOK(g, msgs, v, n, p.pp)
    requires p.WellFormed() && p.IsComplete()
    ensures QuorumPrepared(g, msgs, v, n, p.pp.value)
  {
    hide Inv, PPOK, PreparesSent;
    var seen: map<int, Digest> :| Inv(p.pc, seen) && PreparesSent(g.f, msgs, v, n, seen);
    SeenInGroup(p.pc, seen);
    PC.CompleteMeansPrepared(p, seen);
    VotersBack(g, msgs, v, n, p.pp.value, seen);
  }

  lemma VotersCommitted(g: Group, msgs: set<Message>, v: View, n: Seqno, seen: map<int, ()>)
    requires CommitsSent(msgs, v, n, seen) && forall id :: id in seen ==> 0 <= id < 3 * g.f + 1
    requires |Voters(seen, ())| >= 2 * g.f + 1
    ensures QuorumCommitted(g, msgs, v, n)
  {
    SubsetSize(Voters(seen, ()), Committers(g, msgs, v, n));
  }

  /** A commit certificate of a correct replica is complete only if a quorum committed. */
  lemma CompleteMeansQuorumCommitted(g: Group, msgs: set<Message>, id: int, v: View, n: Seqno, cs: CertState<()>)
    requires g.Valid() && g.Correct(id)
    requires CommitCertOK(g, msgs, id, v, n, cs) && cs.IsComplete()
    ensures QuorumCommitted(g, msgs, v, n)
  {
    hide Inv, CommitsSent;
    var seen: map<int, ()> :| Inv(cs, seen) && CommitsSent(msgs, v, n, seen);
    SeenInGroup(cs, seen);
    CompleteVoters(cs, seen);
    assert cs.vals[cs.c.value].m.val == ();
    VotersCommitted(g, msgs, v, n, seen);
  }
}
