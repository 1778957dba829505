/** Normal operation: every handler of a correct replica keeps its part of the invariant. */
module ProtocolSteps {
  import opened Wrappers
  import opened Types
  import opened CertificateState
  import PC = PreparedCertState
  import opened ReplicaState
  import opened Protocol
  import opened ProtocolInvariant
  import opened CertificateMeaning
  import opened ProtocolFrames

  // ------------------------------------------------------------------
  // Certificates as votes come in
  // ------------------------------------------------------------------

  lemma EmptyCertOK(g: Group, msgs: set<Message>, id: int, v: View, n: Seqno)
    requires g.Valid()
    ensures CertOK(g, msgs, id, v, n, EmptyCert(g.f, id, 2 * g.f))
  {
    hide Inv;
    InvInit<Digest>(g.f, id, 2 * g.f);
    assert PreparesSent(g.f, msgs, v, n, map[]);
  }

  lemma EmptyCommitCertOK(g: Group, msgs: set<Message>, id: int, v: View, n: Seqno)
    requires g.Valid()
    ensures CommitCertOK(g, msgs, id, v, n, EmptyCert(g.f, id, 2 * g.f + 1))
  {
    hide Inv;
    InvInit<()>(g.f, id, 2 * g.f + 1);
    assert CommitsSent(msgs, v, n, map[]);
  }

  /** One more message is counted, is ignored, or empties the certificate. */
  lemma AddObserved<V>(s: CertState<V>, seen: map<int, V>, m: Msg<V>) returns (seen': map<int, V>)
    requires s.WellFormed() && Inv(s, seen)
    ensures Inv(Add(s, m).0, seen')
    ensures seen' == seen || seen' == seen[m.id := m.val] || seen' == map[]
    ensures Add(s, m).0.f == s.f && Add(s, m).0.me == s.me && Add(s, m).0.complete == s.complete
    ensures Add(s, m).0.mine == s.mine || Add(s, m).0.mine.None?
  {
    hide Inv;
    InvStep(s, seen, OpAdd(m));
    seen' := Observe(s, seen, OpAdd(m));
  }

  /** A complete certificate counts no further message. */
  lemma CompleteStays<V>(s: CertState<V>, m: Msg<V>)
    requires s.WellFormed() && s.IsComplete() && s.complete >= 1
    ensures !Add(s, m).1 && Add(s, m).0.IsComplete() && Add(s, m).0.CValue() == s.CValue()
    ensures Add(s, m).0.mine == s.mine
  {
  }

  /** The caller's own message keeps a complete certificate complete. */
  lemma CompleteStaysMine<V>(s: CertState<V>, m: Msg<V>)
    requires s.WellFormed() && s.IsComplete() && s.complete >= 1
    ensures AddMine(s, m).0.IsComplete() && AddMine(s, m).0.CValue().Some?
    ensures AddMine(s, m).0.CValue().value.val == s.CValue().value.val
  {
  }

  lemma CertAdd(g: Group, msgs: set<Message>, id: int, v: View, n: Seqno, pc: CertState<Digest>, m: Msg<Digest>)
    requires CertOK(g, msgs, id, v, n, pc) && m.id != Primary(g.f, v) && Prepare(m.id, v, n, m.val) in msgs
    ensures CertOK(g, msgs, id, v, n, Add(pc, m).0)
  {
    hide Inv, Add;
    var seen: map<int, Digest> :| Inv(pc, seen) && PreparesSent(g.f, msgs, v, n, seen);
    var seen' := AddObserved(pc, seen, m);
    assert PreparesSent(g.f, msgs, v, n, seen');
  }

  lemma CertAddMine(g: Group, msgs: set<Message>, id: int, v: View, n: Seqno, pc: CertState<Digest>, d: Digest)
    requires CertOK(g, msgs, id, v, n, pc) && pc.mine.None?
    requires id != Primary(g.f, v) && Prepare(id, v, n, d) in msgs
    ensures CertOK(g, msgs, id, v, n, AddMine(pc, Msg(id, d, true, true)).0)
  {
    hide Inv;
    var m := Msg(id, d, true, true);
    var seen: map<int, Digest> :| Inv(pc, seen) && PreparesSent(g.f, msgs, v, n, seen);
    if AddMine(pc, m).1 {
      InvAddMine(pc, seen, m);
      assert PreparesSent(g.f, msgs, v, n, seen[id := d]);
    }
  }

  lemma CommitCertAdd(g: Group, msgs: set<Message>, id: int, v: View, n: Seqno, cs: CertState<()>, m: Msg<()>)
    requires CommitCertOK(g, msgs, id, v, n, cs) && Commit(m.id, v, n) in msgs
    ensures CommitCertOK(g, msgs, id, v, n, Add(cs, m).0)
    ensures Add(cs, m).0.mine.Some? ==> cs.mine.Some?
  {
    hide Inv, Add;
    var seen: map<int, ()> :| Inv(cs, seen) && CommitsSent(msgs, v, n, seen);
    var seen' := AddObserved(cs, seen, m);
    assert CommitsSent(msgs, v, n, seen');
  }

  lemma CommitCertAddMine(g: Group, msgs: set<Message>, id: int, v: View, n: Seqno, cs: CertState<()>)
    requires CommitCertOK(g, msgs, id, v, n, cs) && cs.mine.None? && Commit(id, v, n) in msgs
    ensures CommitCertOK(g, msgs, id, v, n, AddMine(cs, Msg(id, (), true, true)).0)
  {
    hide Inv;
    var m := Msg(id, (), true, true);
    var seen: map<int, ()> :| Inv(cs, seen) && CommitsSent(msgs, v, n, seen);
    if AddMine(cs, m).1 {
      InvAddMine(cs, seen, m);
      assert CommitsSent(msgs, v, n, seen[id := ()]);
    }
  }

  // ------------------------------------------------------------------
  // One slot of the log changes
  // ------------------------------------------------------------------

  /** What was logged stays logged and what was complete stays complete. */
  ghost predicate Extends(plog: map<Seqno, PC.PCert>, plog': map<Seqno, PC.PCert>) {
    && (forall n :: PPAt(plog, n).Some? ==> PPAt(plog', n) == PPAt(plog, n))
    && (forall n :: CompleteAt(plog, n) ==> CompleteAt(plog', n))
  }

  lemma ExtendsSlot(plog: map<Seqno, PC.PCert>, n: Seqno, p: PC.PCert)
    requires PPAt(plog, n).Some? ==> p.pp == PPAt(plog, n)
    requires CompleteAt(plog, n) ==> p.WellFormed() && p.IsComplete()
    ensures Extends(plog, plog[n := p])
  {
    var plog' := plog[n := p];
    forall k | PPAt(plog, k).Some? ensures PPAt(plog', k) == PPAt(plog, k) {
    }
    forall k | CompleteAt(plog, k) ensures CompleteAt(plog', k) {
    }
  }

  lemma SentExtends(g: Group, msgs: set<Message>, id: int, r: Replica, plog: map<Seqno, PC.PCert>)
    requires SentInv(g, msgs, id, r) && Extends(r.plog, plog)
    ensures SentInv(g, msgs, id, r.(plog := plog))
  {
    hide OneVote, PPAt, CompleteAt, PreparedSomething;
  }

  lemma RuledExtends(g: Group, msgs: set<Message>, id: int, r: Replica, plog: map<Seqno, PC.PCert>)
    requires Ruled(g, msgs, id, r.v, r.installed, r.lowBound, r.seqno, r.plog) && Extends(r.plog, plog)
    ensures Ruled(g, msgs, id, r.v, r.installed, r.lowBound, r.seqno, plog)
  {
    hide GoodNewView, ValidPick, PickedDigest, PPAt, CompleteAt;
    if r.v > 0 && r.installed {
      var nv: NV :| InForce(g, msgs, id, r.v, r.lowBound, r.seqno, r.plog, nv);
      assert InForce(g, msgs, id, r.v, r.lowBound, r.seqno, plog, nv);
    }
  }

  lemma SlotsUpdate(g: Group, msgs: set<Message>, id: int, v: View, plog: map<Seqno, PC.PCert>, n: Seqno, p: PC.PCert)
    requires Slots(g, msgs, id, v, plog)
    requires CertOK(g, msgs, id, v, n, p.pc) && PPOK(g, msgs, v, n, p.pp) && (p.primary ==> id == Primary(g.f, v))
    ensures Slots(g, msgs, id, v, plog[n := p])
  {
    hide CertOK, PPOK;
  }

  lemma CommitSlotsExtends(g: Group, msgs: set<Message>, id: int, v: View,
                           clog: map<Seqno, CertState<()>>, plog: map<Seqno, PC.PCert>, plog': map<Seqno, PC.PCert>)
    requires CommitSlots(g, msgs, id, v, clog, plog) && Extends(plog, plog')
    ensures CommitSlots(g, msgs, id, v, clog, plog')
  {
    hide CommitCertOK, CompleteAt, PPAt;
  }

  lemma CommitSlotsUpdate(g: Group, msgs: set<Message>, id: int, v: View,
                          clog: map<Seqno, CertState<()>>, plog: map<Seqno, PC.PCert>, n: Seqno, cs: CertState<()>)
    requires CommitSlots(g, msgs, id, v, clog, plog) && CommitCertOK(g, msgs, id, v, n, cs)
    requires cs.mine.Some? ==> CompleteAt(plog, n)
    ensures CommitSlots(g, msgs, id, v, clog[n := cs], plog)
  {
    hide CommitCertOK, CompleteAt;
  }

  lemma CoreSlot(g: Group, id: int, r: Replica, n: Seqno, p: PC.PCert)
    requires Core(g, id, r) && r.InWindow(n) && Ready(r)
    ensures Core(g, id, r.(plog := r.plog[n := p]))
  {
  }

  /** The slot of a correct replica, empty or not. */
  lemma SlotFacts(g: Group, msgs: set<Message>, id: int, r: Replica, n: Seqno)
    requires g.Valid() && Core(g, id, r) && LogInv(g, msgs, id, r)
    ensures var p := r.PSlot(n);
            && CertOK(g, msgs, id, r.v, n, p.pc) && PPOK(g, msgs, r.v, n, p.pp)
            && (p.primary ==> id == Primary(g.f, r.v))
            && p.WellFormed() && p.pp == PPAt(r.plog, n)
            && (p.IsComplete() <==> CompleteAt(r.plog, n))
  {
    hide CertOK;
    if n !in r.plog {
      EmptyCertOK(g, msgs, id, r.v, n);
      EmptyIsIncomplete(g.f, id);
    }
    CertWellFormed(g, msgs, id, r.v, n, r.PSlot(n).pc);
  }

  lemma EmptyIsIncomplete(f: nat, id: int)
    requires f >= 1
    ensures PC.EmptyPCert(f, id).WellFormed() && !PC.EmptyPCert(f, id).IsComplete()
  {
  }

  lemma CertWellFormed(g: Group, msgs: set<Message>, id: int, v: View, n: Seqno, pc: CertState<Digest>)
    requires CertOK(g, msgs, id, v, n, pc)
    ensures pc.WellFormed() && pc.complete == 2 * g.f
  {
  }

  /** The slot for commits of a correct replica, empty or not. */
  lemma CommitSlotFacts(g: Group, msgs: set<Message>, id: int, r: Replica, n: Seqno)
    requires g.Valid() && Core(g, id, r) && LogInv(g, msgs, id, r)
    ensures var cs := r.CSlot(n);
            && CommitCertOK(g, msgs, id, r.v, n, cs)
            && (cs.mine.Some? ==> CompleteAt(r.plog, n))
  {
    hide CommitCertOK, CompleteAt;
    if n !in r.clog {
      EmptyCommitCertOK(g, msgs, id, r.v, n);
    }
  }

  /** A correct replica keeps its logs well formed, so every handler is defined on it. */
  lemma InvSlotsWellFormed(g: Group, msgs: set<Message>, id: int, r: Replica)
    requires ReplicaInv(g, msgs, id, r)
    ensures r.SlotsWellFormed()
  {
    hide Inv;
    assert LogInv(g, msgs, id, r);
    assert Slots(g, msgs, id, r.v, r.plog) && CommitSlots(g, msgs, id, r.v, r.clog, r.plog);
  }

  /** A slot fills up, no message being sent. */
  lemma SlotStep(g: Group, msgs: set<Message>, id: int, r: Replica, n: Seqno, p: PC.PCert)
    requires ReplicaInv(g, msgs, id, r) && r.InWindow(n) && Ready(r)
    requires CertOK(g, msgs, id, r.v, n, p.pc) && PPOK(g, msgs, r.v, n, p.pp) && (p.primary ==> id == Primary(g.f, r.v))
    requires id == Primary(g.f, r.v) && p.pp.Some? ==> n <= r.seqno
    requires Extends(r.plog, r.plog[n := p])
    ensures ReplicaInv(g, msgs, id, r.(plog := r.plog[n := p]))
  {
    hide Core, Slots, CommitSlots, SentInv, PastInv, CertOK, PPOK, Extends, Ruled, AllowedVotes, SentNewViews;
    CoreSlot(g, id, r, n, p);
    SlotsUpdate(g, msgs, id, r.v, r.plog, n, p);
    CommitSlotsExtends(g, msgs, id, r.v, r.clog, r.plog, r.plog[n := p]);
    SentExtends(g, msgs, id, r, r.plog[n := p]);
    RuledExtends(g, msgs, id, r, r.plog[n := p]);
    PastIgnoresPlog(g, msgs, id, r, r.plog[n := p]);
  }

  lemma PastIgnoresPlog(g: Group, msgs: set<Message>, id: int, r: Replica, plog: map<Seqno, PC.PCert>)
    requires PastInv(g, msgs, id, r)
    ensures PastInv(g, msgs, id, r.(plog := plog))
  {
    hide Histories, SentViewChanges, HeldTaken, SentCkpts;
  }

  // ------------------------------------------------------------------
  // Messages sent
  // ------------------------------------------------------------------

  /** What the replica may vote for in its view is allowed by the rules. */
  lemma LoggedIsAllowed(g: Group, msgs: set<Message>, id: int, r: Replica, n: Seqno, d: Digest)
    requires Ruled(g, msgs, id, r.v, r.installed, r.lowBound, r.seqno, r.plog) && Ready(r) && r.v > 0
    requires n > r.lowBound && PPAt(r.plog, n) == Some(d)
    ensures Allowed(g, msgs, r.v, n, d)
  {
    hide GoodNewView, ValidPick, PickedDigest, PPAt;
    var nv: NV :| InForce(g, msgs, id, r.v, r.lowBound, r.seqno, r.plog, nv);
    assert AllowedBy(g.f, nv, n, d);
  }

  /** One more prepare of this replica: the votes. */
  lemma PrepareSentVotes(g: Group, msgs: set<Message>, id: int, r: Replica, n: Seqno, d: Digest)
    requires SentInv(g, msgs, id, r) && Ready(r) && id != Primary(g.f, r.v)
    requires PPAt(r.plog, n) == Some(d) && d != NULL_DIGEST && n > r.lastStable
    ensures var msgs' := msgs + {Prepare(id, r.v, n, d)};
            && SentPrepares(g.f, msgs', id, r.v, Ready(r), r.lastStable, r.plog)
            && SentPrePrepares(g.f, msgs', id, r.v, Ready(r), r.seqno, r.lastStable, r.plog)
            && OneVote(g.f, msgs', id)
  {
    hide PPAt, SentCommits;
    var msgs' := msgs + {Prepare(id, r.v, n, d)};
    forall u, k, e, e' | VoteSent(g.f, msgs', id, u, k, e) && VoteSent(g.f, msgs', id, u, k, e') ensures e == e' {
      if u == r.v && k == n {
      } else {
        assert VoteSent(g.f, msgs, id, u, k, e) && VoteSent(g.f, msgs, id, u, k, e');
      }
    }
  }

  lemma PrepareSentAllowed(g: Group, msgs: set<Message>, id: int, v: View, n: Seqno, d: Digest)
    requires AllowedVotes(g, msgs, id) && (v > 0 ==> Allowed(g, msgs, v, n, d)) && id != Primary(g.f, v)
    ensures AllowedVotes(g, msgs + {Prepare(id, v, n, d)}, id)
  {
    hide Allowed;
    var msgs' := msgs + {Prepare(id, v, n, d)};
    forall w, k, e | w > 0 && VoteSent(g.f, msgs', id, w, k, e) ensures Allowed(g, msgs', w, k, e) {
      if w == v && k == n && e == d {
      } else {
        assert VoteSent(g.f, msgs, id, w, k, e);
      }
      AllowedGrows(g, msgs, msgs', w, k, e);
    }
  }

  /** A replica other than the primary prepares what it logged. */
  lemma PrepareSent(g: Group, msgs: set<Message>, id: int, r: Replica, n: Seqno, d: Digest)
    requires ReplicaInv(g, msgs, id, r) && Ready(r) && id != Primary(g.f, r.v)
    requires PPAt(r.plog, n) == Some(d) && d != NULL_DIGEST && n > r.lowBound
    ensures ReplicaInv(g, msgs + {Prepare(id, r.v, n, d)}, id, r)
  {
    hide LogInv, Slots, CommitSlots, SentPrepares, SentPrePrepares, OneVote, SentCommits, PastInv, Ruled, AllowedVotes,
         PPAt, PickedDigest, Allowed;
    var msgs' := msgs + {Prepare(id, r.v, n, d)};
    LogGrows(g, msgs, msgs', id, r);
    PrepareSentVotes(g, msgs, id, r, n, d);
    SentCommitsGrow(g, msgs, msgs', id, r);
    PastGrows(g, msgs, msgs', id, r);
    if r.v > 0 {
      LoggedIsAllowed(g, msgs, id, r, n, d);
    }
    PrepareSentAllowed(g, msgs, id, r.v, n, d);
    RuledGrows(g, msgs, msgs', id, r);
  }

  lemma CommitSentSent(g: Group, msgs: set<Message>, id: int, r: Replica, n: Seqno)
    requires SentInv(g, msgs, id, r) && CompleteAt(r.plog, n) && r.InWindow(n)
    requires PreparedSomething(g, msgs, r.v, n)
    ensures SentInv(g, msgs + {Commit(id, r.v, n)}, id, r)
  {
    hide SentPrepares, SentPrePrepares, OneVote, CompleteAt, PreparedSomething;
    var msgs' := msgs + {Commit(id, r.v, n)};
    VotesGrow(g, msgs, msgs', id, r);
    forall u, k | Commit(id, u, k) in msgs' ensures PreparedSomething(g, msgs', u, k) {
      PreparedSomethingGrows(g, msgs, msgs', u, k);
    }
  }

  /** A replica commits a slot that prepared. */
  lemma CommitSent(g: Group, msgs: set<Message>, id: int, r: Replica, n: Seqno)
    requires g.Valid() && g.Correct(id)
    requires ReplicaInv(g, msgs, id, r) && CompleteAt(r.plog, n)
    ensures ReplicaInv(g, msgs + {Commit(id, r.v, n)}, id, r)
  {
    hide LogInv, SentInv, PastInv, ViewInv, CompleteAt, PreparedSomething;
    var msgs' := msgs + {Commit(id, r.v, n)};
    assert Core(g, id, r);
    CompleteInWindow(g, id, r, n);
    CompleteMeansPreparedSomething(g, msgs, id, r, n);
    LogGrows(g, msgs, msgs', id, r);
    CommitSentSent(g, msgs, id, r, n);
    PastGrows(g, msgs, msgs', id, r);
    ViewGrows(g, msgs, msgs', id, r);
  }

  lemma CompleteInWindow(g: Group, id: int, r: Replica, n: Seqno)
    requires Core(g, id, r) && CompleteAt(r.plog, n)
    ensures r.InWindow(n)
  {
  }

  lemma CompleteMeansPreparedSomething(g: Group, msgs: set<Message>, id: int, r: Replica, n: Seqno)
    requires g.Valid() && g.Correct(id)
    requires LogInv(g, msgs, id, r) && CompleteAt(r.plog, n)
    ensures QuorumPrepared(g, msgs, r.v, n, r.plog[n].pp.value)
    ensures PreparedSomething(g, msgs, r.v, n)
  {
    hide CertOK, PPOK, CommitSlots, QuorumPrepared;
    CompleteMeansQuorumPrepared(g, msgs, id, r.v, n, r.plog[n]);
  }

  // ------------------------------------------------------------------
  // Handlers
  // ------------------------------------------------------------------

  /** A slot for commits fills up. */
  lemma ClogStep(g: Group, msgs: set<Message>, id: int, r: Replica, n: Seqno, cs: CertState<()>)
    requires ReplicaInv(g, msgs, id, r) && r.InWindow(n)
    requires CommitCertOK(g, msgs, id, r.v, n, cs) && (cs.mine.Some? ==> CompleteAt(r.plog, n))
    ensures ReplicaInv(g, msgs, id, r.(clog := r.clog[n := cs]))
  {
    hide Slots, CommitSlots, SentPrepares, SentPrePrepares, OneVote, SentCommits, Histories, SentViewChanges,
         Ruled, AllowedVotes, SentNewViews, CommitCertOK, CompleteAt, HeldTaken, SentCkpts, PrimaryBound;
    CommitSlotsUpdate(g, msgs, id, r.v, r.clog, r.plog, n, cs);
  }

  lemma SendCommitKeeps(g: Group, msgs: set<Message>, id: int, r: Replica, n: Seqno)
    requires g.Valid() && g.Correct(id) && r.SlotsWellFormed()
    requires ReplicaInv(g, msgs, id, r) && CompleteAt(r.plog, n) && r.CSlot(n).mine.None?
    ensures ReplicaInv(g, msgs + SendCommit(r, n).1, id, SendCommit(r, n).0)
  {
    hide LogInv, SentInv, PastInv, ViewInv, CompleteAt, CommitCertOK, AddMine;
    var msgs' := msgs + {Commit(id, r.v, n)};
    assert Core(g, id, r);
    CompleteInWindow(g, id, r, n);
    CommitSent(g, msgs, id, r, n);
    CommitSlotFacts(g, msgs', id, r, n);
    CommitCertAddMine(g, msgs', id, r.v, n, r.CSlot(n));
    ClogStep(g, msgs', id, r, n, AddMine(r.CSlot(n), Msg(id, (), true, true)).0);
  }

  lemma CommitIfCompleteKeeps(g: Group, msgs: set<Message>, id: int, r: Replica, n: Seqno)
    requires g.Valid() && g.Correct(id) && r.SlotsWellFormed()
    requires ReplicaInv(g, msgs, id, r) && r.CSlot(n).mine.None?
    ensures ReplicaInv(g, msgs + CommitIfComplete(r, n).1, id, CommitIfComplete(r, n).0)
  {
    hide LogInv, SentInv, PastInv, ViewInv, CompleteAt, SendCommit;
    assert Core(g, id, r);
    SlotFacts(g, msgs, id, r, n);
    if r.PSlot(n).IsComplete() {
      SendCommitKeeps(g, msgs, id, r, n);
    } else {
      assert msgs + {} == msgs;
    }
  }

  lemma SendPrepareKeeps(g: Group, msgs: set<Message>, id: int, r: Replica, n: Seqno)
    requires g.Valid() && g.Correct(id) && r.SlotsWellFormed()
    requires ReplicaInv(g, msgs, id, r) && Ready(r) && id != Primary(g.f, r.v) && r.InWindow(n) && n > r.lowBound
    ensures var (r', out) := SendPrepare(r, n);
            r'.SlotsWellFormed() && ReplicaInv(g, msgs + out, id, r') && r'.clog == r.clog
  {
    hide LogInv, SentInv, PastInv, ViewInv, CompleteAt, CertOK, AddMine;
    assert Core(g, id, r);
    SlotFacts(g, msgs, id, r, n);
    var p := r.PSlot(n);
    if p.pc.mine.None? && p.pp.Some? {
      var d := p.pp.value;
      var p' := PC.AddMyPrepare(p, Msg(id, d, true, true)).0;
      var msgs' := msgs + {Prepare(id, r.v, n, d)};
      PrepareSent(g, msgs, id, r, n, d);
      SlotFacts(g, msgs', id, r, n);
      CertAddMine(g, msgs', id, r.v, n, p.pc, d);
      CertWellFormed(g, msgs, id, r.v, n, p.pc);
      MinePrepareExtends(r.plog, n, p, id);
      SlotStep(g, msgs', id, r, n, p');
    } else {
      assert msgs + {} == msgs;
    }
  }

  lemma MinePrepareExtends(plog: map<Seqno, PC.PCert>, n: Seqno, p: PC.PCert, id: int)
    requires p.WellFormed() && p.pp == PPAt(plog, n) && p.pp.Some? && p.pc.complete >= 1
    requires p.IsComplete() <==> CompleteAt(plog, n)
    ensures Extends(plog, plog[n := PC.AddMyPrepare(p, Msg(id, p.pp.value, true, true)).0])
  {
    hide Extends, CompleteAt, AddMine;
    var m := Msg(id, p.pp.value, true, true);
    if p.IsComplete() {
      CompleteStaysMine(p.pc, m);
    }
    ExtendsSlot(plog, n, PC.AddMyPrepare(p, m).0);
  }

  lemma PrePrepareExtends(plog: map<Seqno, PC.PCert>, n: Seqno, p: PC.PCert)
    requires PPAt(plog, n).None?
    ensures !CompleteAt(plog, n) && Extends(plog, plog[n := p])
  {
    hide Extends;
    ExtendsSlot(plog, n, p);
  }

  /** A pre-prepare that the primary sent is logged in an empty place. */
  lemma PrePrepareLogged(g: Group, msgs: set<Message>, id: int, r: Replica, n: Seqno, d: Digest)
    requires g.Valid() && g.Correct(id)
    requires ReplicaInv(g, msgs, id, r) && Ready(r) && r.InWindow(n) && id != Primary(g.f, r.v)
    requires PPAt(r.plog, n).None? && d != NULL_DIGEST && PrePrepare(r.v, n, d) in msgs
    ensures var r' := r.(plog := r.plog[n := r.PSlot(n).(pp := Some(d))]);
            ReplicaInv(g, msgs, id, r') && r'.SlotsWellFormed() && r'.CSlot(n).mine.None?
  {
    hide LogInv, SentInv, PastInv, ViewInv, CompleteAt, CertOK, Core;
    CoreFacts(g, id, r);
    SlotFacts(g, msgs, id, r, n);
    CommitSlotFacts(g, msgs, id, r, n);
    var p := r.PSlot(n).(pp := Some(d));
    PrePrepareExtends(r.plog, n, p);
    SlotStep(g, msgs, id, r, n, p);
    InvSlotsWellFormed(g, msgs, id, r.(plog := r.plog[n := p]));
  }

  lemma CoreFacts(g: Group, id: int, r: Replica)
    requires Core(g, id, r)
    ensures r.f == g.f && r.id == id
  {
  }

  lemma HandlePrePrepareKeeps(g: Group, msgs: set<Message>, id: int, r: Replica,
                              view: View, n: Seqno, d: Digest, verified: bool)
    requires g.Valid() && g.Correct(id) && r.SlotsWellFormed() && ReplicaInv(g, msgs, id, r)
    requires PrePrepare(view, n, d) in msgs && d != NULL_DIGEST && Primary(g.f, view) != id
    ensures var (r', out) := HandlePrePrepare(r, view, n, d, verified); ReplicaInv(g, msgs + out, id, r')
  {
    hide LogInv, SentInv, PastInv, ViewInv, CompleteAt, CommitIfComplete, SendPrepare, ReplicaInv, Core;
    InvCore(g, msgs, id, r);
    if r.Accepts(view, n) && r.HasNewView() && PC.AddPrePrepare(r.PSlot(n), d, verified, true).1 {
      var r0 := r.(plog := r.plog[n := r.PSlot(n).(pp := Some(d))]);
      PrePrepareLogged(g, msgs, id, r, n, d);
      SendPrepareKeeps(g, msgs, id, r0, n);
      var (r1, out1) := SendPrepare(r0, n);
      CommitIfCompleteKeeps(g, msgs + out1, id, r1, n);
      var out2 := CommitIfComplete(r1, n).1;
      assert msgs + out1 + out2 == msgs + (out1 + out2);
    } else {
      assert msgs + {} == msgs;
    }
  }

  lemma InvCore(g: Group, msgs: set<Message>, id: int, r: Replica)
    requires ReplicaInv(g, msgs, id, r)
    ensures Core(g, id, r) && r.f == g.f && r.id == id
  {
  }

  lemma PrepareExtends(plog: map<Seqno, PC.PCert>, n: Seqno, p: PC.PCert, m: Msg<Digest>)
    requires p.WellFormed() && p.pp == PPAt(plog, n) && p.pc.complete >= 1
    requires p.IsComplete() <==> CompleteAt(plog, n)
    ensures Extends(plog, plog[n := PC.AddPrepare(p, m).0])
    ensures PC.AddPrepare(p, m).1 ==> !CompleteAt(plog, n)
  {
    hide Extends, CompleteAt, Add;
    if p.IsComplete() {
      CompleteStays(p.pc, m);
    }
    ExtendsSlot(plog, n, PC.AddPrepare(p, m).0);
  }

  /** A prepare that was sent is logged; it counts only where nothing was complete. */
  lemma PrepareIsLogged(g: Group, msgs: set<Message>, id: int, r: Replica, jd: int, n: Seqno, d: Digest)
    requires g.Valid() && g.Correct(id) && r.SlotsWellFormed()
    requires ReplicaInv(g, msgs, id, r) && Ready(r) && r.InWindow(n)
    requires jd != Primary(g.f, r.v) && Prepare(jd, r.v, n, d) in msgs
    ensures var (p, added) := PC.AddPrepare(r.PSlot(n), Msg(jd, d, true, true));
            var r' := r.(plog := r.plog[n := p]);
            && ReplicaInv(g, msgs, id, r') && r'.SlotsWellFormed()
            && (added ==> r'.CSlot(n).mine.None?)
  {
    hide LogInv, SentInv, PastInv, ViewInv, CompleteAt, CertOK, Core, Add;
    CoreFacts(g, id, r);
    SlotFacts(g, msgs, id, r, n);
    CommitSlotFacts(g, msgs, id, r, n);
    PrimaryBoundAt(g, msgs, id, r, n);
    var m := Msg(jd, d, true, true);
    var p := PC.AddPrepare(r.PSlot(n), m).0;
    CertWellFormed(g, msgs, id, r.v, n, r.PSlot(n).pc);
    CertAdd(g, msgs, id, r.v, n, r.PSlot(n).pc, m);
    PrepareExtends(r.plog, n, r.PSlot(n), m);
    SlotStep(g, msgs, id, r, n, p);
    InvSlotsWellFormed(g, msgs, id, r.(plog := r.plog[n := p]));
  }

  lemma PrimaryBoundAt(g: Group, msgs: set<Message>, id: int, r: Replica, n: Seqno)
    requires LogInv(g, msgs, id, r)
    ensures id == Primary(g.f, r.v) && PPAt(r.plog, n).Some? ==> n <= r.seqno
  {
  }

  lemma HandlePrepareKeeps(g: Group, msgs: set<Message>, id: int, r: Replica, jd: int, view: View, n: Seqno, d: Digest)
    requires g.Valid() && g.Correct(id) && r.SlotsWellFormed() && ReplicaInv(g, msgs, id, r)
    requires Prepare(jd, view, n, d) in msgs
    ensures var (r', out) := HandlePrepare(r, jd, view, n, d); ReplicaInv(g, msgs + out, id, r')
  {
    hide LogInv, SentInv, PastInv, ViewInv, CompleteAt, CommitIfComplete, ReplicaInv, Core, Add;
    InvCore(g, msgs, id, r);
    assert msgs + {} == msgs;
    if r.Accepts(view, n) && Primary(g.f, r.v) != jd && r.HasNewView() {
      PrepareIsLogged(g, msgs, id, r, jd, n, d);
      var (p, added) := PC.AddPrepare(r.PSlot(n), Msg(jd, d, true, true));
      if added {
        CommitIfCompleteKeeps(g, msgs, id, r.(plog := r.plog[n := p]), n);
      }
    }
  }

  lemma HandleCommitKeeps(g: Group, msgs: set<Message>, id: int, r: Replica, jd: int, view: View, n: Seqno)
    requires g.Valid() && g.Correct(id) && r.SlotsWellFormed() && ReplicaInv(g, msgs, id, r)
    requires Commit(jd, view, n) in msgs
    ensures ReplicaInv(g, msgs, id, HandleCommit(r, jd, view, n))
  {
    hide LogInv, SentInv, PastInv, ViewInv, CompleteAt, Core, Add, CommitCertOK;
    CoreFacts(g, id, r);
    if r.Accepts(view, n) {
      var m := Msg(jd, (), true, true);
      CommitSlotFacts(g, msgs, id, r, n);
      CommitCertAdd(g, msgs, id, r.v, n, r.CSlot(n), m);
      ClogStep(g, msgs, id, r, n, Add(r.CSlot(n), m).0);
    }
  }
}
