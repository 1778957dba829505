/** The remaining steps of a correct replica: proposals, garbage collection, view changes and new views. */
module ProtocolViewSteps {
  import opened Wrappers
  import opened Types
  import opened CertificateState
  import PC = PreparedCertState
  import opened ReplicaState
  import opened Protocol
  import opened ProtocolInvariant
  import opened ProtocolFrames
  import opened ProtocolSteps

  // ------------------------------------------------------------------
  // Proposals
  // ------------------------------------------------------------------

  lemma ProposeLog(g: Group, msgs: set<Message>, id: int, r: Replica, d: Digest)
    requires g.Valid() && Core(g, id, r) && LogInv(g, msgs, id, r)
    requires id == Primary(g.f, r.v) && d != NULL_DIGEST
    ensures LogInv(g, msgs + {PrePrepare(r.v, r.seqno + 1, d)}, id, SendPrePrepare(r, d).0)
    ensures PPAt(r.plog, r.seqno + 1).None?
    ensures Extends(r.plog, SendPrePrepare(r, d).0.plog)
  {
    hide CommitSlots, CertOK, Extends, CompleteAt;
    var n, msgs' := r.seqno + 1, msgs + {PrePrepare(r.v, r.seqno + 1, d)};
    var p := PC.AddMyPrePrepare(r.PSlot(n), d);
    LogGrows(g, msgs, msgs', id, r);
    SlotFacts(g, msgs', id, r, n);
    SlotsUpdate(g, msgs', id, r.v, r.plog, n, p);
    PrePrepareExtends(r.plog, n, p);
    CommitSlotsExtends(g, msgs', id, r.v, r.clog, r.plog, r.plog[n := p]);
  }

  lemma ProposeSent(g: Group, msgs: set<Message>, id: int, r: Replica, d: Digest)
    requires SentInv(g, msgs, id, r) && Ready(r) && id == Primary(g.f, r.v) && d != NULL_DIGEST
    requires Extends(r.plog, SendPrePrepare(r, d).0.plog)
    ensures SentInv(g, msgs + {PrePrepare(r.v, r.seqno + 1, d)}, id, SendPrePrepare(r, d).0)
  {
    hide PreparedSomething, CompleteAt;
    var n, msgs', r' := r.seqno + 1, msgs + {PrePrepare(r.v, r.seqno + 1, d)}, SendPrePrepare(r, d).0;
    SentExtends(g, msgs, id, r, r'.plog);
    SentCommitsGrow(g, msgs, msgs', id, r');
    ProposeOneVote(g, msgs, id, r, d);
  }

  lemma ProposeOneVote(g: Group, msgs: set<Message>, id: int, r: Replica, d: Digest)
    requires SentInv(g, msgs, id, r) && id == Primary(g.f, r.v)
    ensures OneVote(g.f, msgs + {PrePrepare(r.v, r.seqno + 1, d)}, id)
  {
    hide SentCommits, PPAt;
    var n, msgs' := r.seqno + 1, msgs + {PrePrepare(r.v, r.seqno + 1, d)};
    forall u, k, e, e' | VoteSent(g.f, msgs', id, u, k, e) && VoteSent(g.f, msgs', id, u, k, e') ensures e == e' {
      if u == r.v && k == n {
      } else {
        assert VoteSent(g.f, msgs, id, u, k, e) && VoteSent(g.f, msgs, id, u, k, e');
      }
    }
  }

  /** Numbers above the range of the new view in force are allowed. */
  lemma FreshIsAllowed(g: Group, msgs: set<Message>, id: int, r: Replica, d: Digest)
    requires Ruled(g, msgs, id, r.v, r.installed, r.lowBound, r.seqno, r.plog) && Ready(r) && r.v > 0
    ensures Allowed(g, msgs, r.v, r.seqno + 1, d)
  {
    hide GoodNewView, ValidPick, PickedDigest, PPAt;
    var nv: NV :| InForce(g, msgs, id, r.v, r.lowBound, r.seqno, r.plog, nv);
    assert AllowedBy(g.f, nv, r.seqno + 1, d);
  }

  lemma ProposeAllowed(g: Group, msgs: set<Message>, id: int, v: View, n: Seqno, d: Digest)
    requires AllowedVotes(g, msgs, id) && (v > 0 ==> Allowed(g, msgs, v, n, d))
    ensures AllowedVotes(g, msgs + {PrePrepare(v, n, d)}, id)
  {
    hide Allowed;
    var msgs' := msgs + {PrePrepare(v, n, d)};
    forall w, k, e | w > 0 && VoteSent(g.f, msgs', id, w, k, e) ensures Allowed(g, msgs', w, k, e) {
      if w == v && k == n && e == d {
      } else {
        assert VoteSent(g.f, msgs, id, w, k, e);
      }
      AllowedGrows(g, msgs, msgs', w, k, e);
    }
  }

  lemma NewViewsGrow(f: nat, msgs: set<Message>, msgs': set<Message>, id: int)
    requires msgs <= msgs' && NoNewViews(f, msgs, msgs', id) && SentNewViews(f, msgs, id)
    ensures SentNewViews(f, msgs', id)
  {
    hide PickedDigest;
  }

  lemma RuledRaised(g: Group, msgs: set<Message>, id: int, r: Replica, seqno: Seqno)
    requires Ruled(g, msgs, id, r.v, r.installed, r.lowBound, r.seqno, r.plog) && seqno >= r.seqno
    ensures Ruled(g, msgs, id, r.v, r.installed, r.lowBound, seqno, r.plog)
  {
    hide GoodNewView, ValidPick, PickedDigest, PPAt;
    if r.v > 0 && r.installed {
      var nv: NV :| InForce(g, msgs, id, r.v, r.lowBound, r.seqno, r.plog, nv);
      assert InForce(g, msgs, id, r.v, r.lowBound, seqno, r.plog, nv);
    }
  }

  lemma ProposeView(g: Group, msgs: set<Message>, id: int, r: Replica, d: Digest)
    requires ViewInv(g, msgs, id, r) && Ready(r)
    requires Extends(r.plog, SendPrePrepare(r, d).0.plog)
    ensures ViewInv(g, msgs + {PrePrepare(r.v, r.seqno + 1, d)}, id, SendPrePrepare(r, d).0)
  {
    hide AllowedVotes, SentNewViews, Ruled, Extends, Allowed;
    var n, msgs', r' := r.seqno + 1, msgs + {PrePrepare(r.v, r.seqno + 1, d)}, SendPrePrepare(r, d).0;
    if r.v > 0 {
      FreshIsAllowed(g, msgs, id, r, d);
    }
    ProposeAllowed(g, msgs, id, r.v, n, d);
    NewViewsGrow(g.f, msgs, msgs', id);
    RuledGrows(g, msgs, msgs', id, r);
    RuledExtends(g, msgs', id, r, r'.plog);
    RuledRaised(g, msgs', id, r.(plog := r'.plog), n);
  }

  lemma ProposeKeeps(g: Group, msgs: set<Message>, id: int, r: Replica, d: Digest)
    requires g.Valid() && ReplicaInv(g, msgs, id, r) && CanPropose(r) && d != NULL_DIGEST
    ensures ReplicaInv(g, msgs + SendPrePrepare(r, d).1, id, SendPrePrepare(r, d).0)
  {
    hide LogInv, SentInv, PastInv, ViewInv, Extends;
    var n, msgs' := r.seqno + 1, msgs + {PrePrepare(r.v, r.seqno + 1, d)};
    var p := PC.AddMyPrePrepare(r.PSlot(n), d);
    CoreFacts(g, id, r);
    CoreSlot(g, id, r, n, p);
    ProposeLog(g, msgs, id, r, d);
    ProposeSent(g, msgs, id, r, d);
    PastGrows(g, msgs, msgs', id, r);
    PastIgnoresPlog(g, msgs', id, r, r.plog[n := p]);
    PastIgnoresSeqno(g, msgs', id, r.(plog := r.plog[n := p]), n);
    ProposeView(g, msgs, id, r, d);
  }

  lemma PastIgnoresSeqno(g: Group, msgs: set<Message>, id: int, r: Replica, seqno: Seqno)
    requires PastInv(g, msgs, id, r)
    ensures PastInv(g, msgs, id, r.(seqno := seqno))
  {
    hide Histories, SentViewChanges, HeldTaken, SentCkpts;
  }

  // ------------------------------------------------------------------
  // Checkpoints, fetched state, garbage collection
  // ------------------------------------------------------------------

  lemma TakeCheckpointKeeps(g: Group, msgs: set<Message>, id: int, r: Replica, n: Seqno, d: Digest)
    requires ReplicaInv(g, msgs, id, r) && d != NULL_DIGEST
    ensures var (r', out) := TakeCheckpoint(r, n, d); ReplicaInv(g, msgs + out, id, r')
  {
    hide LogInv, SentInv, ViewInv, Histories, SentViewChanges, SentCkpts;
    var msgs' := msgs + {Checkpointed(id, n, d)};
    CoreFacts(g, id, r);
    LogGrows(g, msgs, msgs', id, r);
    SentGrows(g, msgs, msgs', id, r);
    PastGrows(g, msgs, msgs', id, r);
    ViewGrows(g, msgs, msgs', id, r);
    IgnoreHeld(g, msgs', id, r, r.held[n := d]);
  }

  lemma IgnoreHeld(g: Group, msgs: set<Message>, id: int, r: Replica, held: map<Seqno, Digest>)
    requires Core(g, id, r) && LogInv(g, msgs, id, r) && SentInv(g, msgs, id, r) && ViewInv(g, msgs, id, r)
    ensures var r' := r.(held := held);
            Core(g, id, r') && LogInv(g, msgs, id, r') && SentInv(g, msgs, id, r') && ViewInv(g, msgs, id, r')
  {
    hide Slots, CommitSlots, PrimaryBound, SentPrepares, SentPrePrepares, OneVote, SentCommits,
         AllowedVotes, SentNewViews, Ruled;
  }

  lemma NewStateKeeps(g: Group, msgs: set<Message>, id: int, r: Replica, c: Seqno)
    requires ReplicaInv(g, msgs, id, r)
    ensures ReplicaInv(g, msgs, id, NewState(r, c))
  {
    hide Slots, CommitSlots, SentPrepares, OneVote, SentCommits, PPAt, Histories, SentViewChanges, HeldTaken, SentCkpts,
         AllowedVotes, SentNewViews, Ruled;
    RuledRaised(g, msgs, id, r, Max(r.seqno, c));
  }

  lemma StableCore(g: Group, id: int, r: Replica, n: Seqno)
    requires Core(g, id, r) && r.SlotsWellFormed() && n > r.lastStable
    ensures Core(g, id, MarkStable(r, n))
  {
  }

  /** plog' is what is left of plog above n. */
  ghost predicate Truncated(plog: map<Seqno, PC.PCert>, plog': map<Seqno, PC.PCert>, n: Seqno) {
    && (forall k :: k in plog' <==> k in plog && k > n)
    && (forall k :: k in plog' ==> plog'[k] == plog[k])
  }

  lemma StableTruncates(r: Replica, n: Seqno)
    requires r.SlotsWellFormed() && n > r.lastStable
    ensures Truncated(r.plog, MarkStable(r, n).plog, n)
    ensures forall k :: k in MarkStable(r, n).clog ==> k > n && k in r.clog && MarkStable(r, n).clog[k] == r.clog[k]
  {
  }

  lemma TruncatedAt(plog: map<Seqno, PC.PCert>, plog': map<Seqno, PC.PCert>, n: Seqno, k: Seqno)
    requires Truncated(plog, plog', n) && k > n
    ensures PPAt(plog', k) == PPAt(plog, k) && (CompleteAt(plog', k) <==> CompleteAt(plog, k))
  {
  }

  lemma StableLog(g: Group, msgs: set<Message>, id: int, r: Replica, n: Seqno)
    requires LogInv(g, msgs, id, r) && r.SlotsWellFormed() && n > r.lastStable
    ensures LogInv(g, msgs, id, MarkStable(r, n))
  {
    hide CertOK, PPOK, CommitCertOK, CompleteAt, PPAt;
    var r' := MarkStable(r, n);
    StableTruncates(r, n);
    forall k | k in r'.clog && r'.clog[k].mine.Some? ensures CompleteAt(r'.plog, k) {
      TruncatedAt(r.plog, r'.plog, n, k);
    }
  }

  lemma SentTruncates(g: Group, msgs: set<Message>, id: int, r: Replica,
                      n: Seqno, seqno: Seqno, plog: map<Seqno, PC.PCert>)
    requires SentInv(g, msgs, id, r) && n > r.lastStable && seqno >= r.seqno
    requires forall k :: k > n ==> PPAt(plog, k) == PPAt(r.plog, k)
    requires forall k :: k > n ==> (CompleteAt(plog, k) <==> CompleteAt(r.plog, k))
    ensures SentPrepares(g.f, msgs, id, r.v, Ready(r), n, plog)
    ensures SentPrePrepares(g.f, msgs, id, r.v, Ready(r), seqno, n, plog)
    ensures SentCommits(g, msgs, id, r.v, n, plog)
  {
    hide OneVote, CompleteAt, PPAt, PreparedSomething;
  }

  lemma StableSent(g: Group, msgs: set<Message>, id: int, r: Replica, n: Seqno)
    requires SentInv(g, msgs, id, r) && r.SlotsWellFormed() && n > r.lastStable
    ensures SentInv(g, msgs, id, MarkStable(r, n))
  {
    hide OneVote, CompleteAt, PPAt, SentPrepares, SentPrePrepares, SentCommits, Truncated;
    var r' := MarkStable(r, n);
    StableTruncates(r, n);
    forall k | k > n ensures PPAt(r'.plog, k) == PPAt(r.plog, k) && (CompleteAt(r'.plog, k) <==> CompleteAt(r.plog, k)) {
      TruncatedAt(r.plog, r'.plog, n, k);
    }
    SentTruncates(g, msgs, id, r, n, r'.seqno, r'.plog);
  }

  lemma StablePast(g: Group, msgs: set<Message>, id: int, r: Replica, n: Seqno)
    requires PastInv(g, msgs, id, r) && r.SlotsWellFormed() && n > r.lastStable
    ensures PastInv(g, msgs, id, MarkStable(r, n))
  {
    hide HasHistory, SentViewChanges, SentCkpts;
    var r' := MarkStable(r, n);
    forall k | k > n ensures RecAt(r'.oplog, k) == RecAt(r.oplog, k) {
    }
  }

  lemma StableRuled(g: Group, msgs: set<Message>, id: int, r: Replica, n: Seqno)
    requires Ruled(g, msgs, id, r.v, r.installed, r.lowBound, r.seqno, r.plog)
    requires r.SlotsWellFormed() && n > r.lastStable
    ensures var r' := MarkStable(r, n);
            Ruled(g, msgs, id, r'.v, r'.installed, r'.lowBound, r'.seqno, r'.plog)
  {
    hide GoodNewView, ValidPick, PickedDigest, CompleteAt, PPAt;
    var r' := MarkStable(r, n);
    if r.v > 0 && r.installed {
      var nv: NV :| InForce(g, msgs, id, r.v, r.lowBound, r.seqno, r.plog, nv);
      StableTruncates(r, n);
      forall k | k > n ensures PPAt(r'.plog, k) == PPAt(r.plog, k) {
        TruncatedAt(r.plog, r'.plog, n, k);
      }
      assert InForce(g, msgs, id, r'.v, r'.lowBound, r'.seqno, r'.plog, nv);
    }
  }

  lemma StableKeeps(g: Group, msgs: set<Message>, id: int, r: Replica, n: Seqno)
    requires ReplicaInv(g, msgs, id, r) && r.SlotsWellFormed() && n > r.lastStable
    ensures ReplicaInv(g, msgs, id, MarkStable(r, n))
  {
    hide Core, LogInv, SentInv, PastInv, Ruled, AllowedVotes, SentNewViews;
    StableCore(g, id, r, n);
    StableLog(g, msgs, id, r, n);
    StableSent(g, msgs, id, r, n);
    StablePast(g, msgs, id, r, n);
    StableRuled(g, msgs, id, r, n);
  }

  // ------------------------------------------------------------------
  // Entering a new view
  // ------------------------------------------------------------------

  /** Before it enters its view a replica may move its bounds freely. */
  lemma MoveBounds(g: Group, msgs: set<Message>, id: int, r: Replica, seqno: Seqno, lowBound: Seqno)
    requires ReplicaInv(g, msgs, id, r) && r.v > 0 && !r.installed && lowBound >= r.lastStable
    ensures ReplicaInv(g, msgs, id, r.(seqno := seqno, lowBound := lowBound))
  {
    hide Slots, CommitSlots, OneVote, SentCommits, PPAt, Histories, SentViewChanges, HeldTaken, SentCkpts,
         AllowedVotes, SentNewViews;
  }

  lemma TrimKeeps(g: Group, msgs: set<Message>, id: int, r: Replica, nv: NV, hasState: bool)
    requires ReplicaInv(g, msgs, id, r) && r.v > 0 && !r.installed && id != Primary(g.f, r.v)
    requires GoodNewView(g, msgs, r.v, nv) && nv.max <= r.lastStable
    ensures ReplicaInv(g, msgs, id, TrimNewView(r, hasState))
  {
    hide Slots, CommitSlots, OneVote, SentCommits, Histories, SentViewChanges, HeldTaken, SentCkpts,
         AllowedVotes, SentNewViews, GoodNewView;
    var r' := TrimNewView(r, hasState);
    MinBelowMax(g, msgs, r.v, nv);
    assert InForce(g, msgs, id, r'.v, r'.lowBound, r'.seqno, r'.plog, nv);
  }

  lemma MinBelowMax(g: Group, msgs: set<Message>, v: View, nv: NV)
    requires GoodNewView(g, msgs, v, nv)
    ensures nv.min < nv.max && v > 0
  {
  }

  /** r waits, with an empty log and its bounds set, to install nv. */
  ghost predicate Waiting(g: Group, r: Replica, nv: NV) {
    && r.v > 0 && r.v == nv.view && !r.installed
    && r.lowBound >= nv.min && (r.lowBound == nv.min || r.lowBound <= r.lastStable)
    && r.seqno == nv.max - 1
    && nv.max - 1 <= r.lastStable + MAX_OUT
  }

  /** r has entered the view. */
  function Entered(r: Replica, nv: NV, hasState: bool): Replica
    requires r.SlotsWellFormed()
  {
    r.(installed := true, hasState := hasState, plog := Installed(r, nv, r.lowBound))
  }

  lemma PickedIsReal(nv: NV, n: Seqno)
    ensures PickedDigest(nv, n) != NULL_DIGEST
  {
  }

  /** The log after installing: the picks and nothing else. */
  lemma InstalledSlots(g: Group, id: int, r: Replica, nv: NV, hasState: bool)
    requires r.SlotsWellFormed() && Core(g, id, r) && Waiting(g, r, nv)
    ensures var plog := Entered(r, nv, hasState).plog;
            && (forall n :: n in plog <==> r.lowBound < n < nv.max)
            && (forall n :: n in plog ==> plog[n] == InstallSlot(r, n, PickedDigest(nv, n)))
            && forall n :: n in plog ==> plog[n].pp == Some(PickedDigest(nv, n))
    ensures Core(g, id, Entered(r, nv, hasState))
  {
    hide PickedDigest;
  }

  lemma InstallSlotOK(g: Group, msgs: set<Message>, id: int, r: Replica, n: Seqno, d: Digest)
    requires g.Valid() && r.SlotsWellFormed() && Core(g, id, r) && n !in r.plog
    requires id != Primary(g.f, r.v) ==> Prepare(id, r.v, n, d) in msgs
    ensures CertOK(g, msgs, id, r.v, n, InstallSlot(r, n, d).pc)
    ensures InstallSlot(r, n, d).primary ==> id == Primary(g.f, r.v)
  {
    hide CertOK, AddMine;
    EmptyCertOK(g, msgs, id, r.v, n);
    if id != Primary(g.f, r.v) {
      CertAddMine(g, msgs, id, r.v, n, EmptyCert(g.f, id, 2 * g.f), d);
    }
  }

  /** The new votes of replica id are for the picks of nv, in its view. */
  ghost predicate VotesForPicks(f: nat, msgs: set<Message>, msgs': set<Message>, id: int, r: Replica, nv: NV) {
    && (forall u, n, d :: Prepare(id, u, n, d) in msgs' && Prepare(id, u, n, d) !in msgs ==>
          u == r.v && id != Primary(f, r.v) && r.lowBound < n < nv.max && d == PickedDigest(nv, n))
    && (forall u, n, d :: PrePrepare(u, n, d) in msgs' && PrePrepare(u, n, d) !in msgs && Primary(f, u) == id ==>
          u == r.v && nv.min < n < nv.max && d == PickedDigest(nv, n))
  }

  /** The picks of nv are voted for: by the primary if it is correct, and by this replica. */
  ghost predicate PicksVoted(g: Group, msgs: set<Message>, id: int, r: Replica, nv: NV) {
    && (forall n :: r.lowBound < n < nv.max && id != Primary(g.f, r.v) ==>
          Prepare(id, r.v, n, PickedDigest(nv, n)) in msgs)
    && (forall n :: nv.min < n < nv.max ==>
          Primary(g.f, r.v) in g.faulty || PrePrepare(r.v, n, PickedDigest(nv, n)) in msgs)
  }

  lemma InstallLog(g: Group, msgs: set<Message>, id: int, r: Replica, nv: NV, hasState: bool)
    requires g.Valid() && r.SlotsWellFormed() && Core(g, id, r) && LogInv(g, msgs, id, r)
    requires Waiting(g, r, nv) && PicksVoted(g, msgs, id, r, nv)
    ensures LogInv(g, msgs, id, Entered(r, nv, hasState))
  {
    hide CertOK, CommitCertOK, CompleteAt, PickedDigest, InstallSlot;
    var r' := Entered(r, nv, hasState);
    InstalledSlots(g, id, r, nv, hasState);
    forall n | n in r'.plog
      ensures CertOK(g, msgs, id, r.v, n, r'.plog[n].pc) && PPOK(g, msgs, r.v, n, r'.plog[n].pp)
      ensures r'.plog[n].primary ==> id == Primary(g.f, r.v)
    {
      InstallSlotOK(g, msgs, id, r, n, PickedDigest(nv, n));
      PickedIsReal(nv, n);
    }
    EmptyNotComplete();
  }

  lemma EmptyNotComplete()
    ensures forall n :: !CompleteAt(map[], n)
  {
  }

  /** Before the installation nothing was said in this view. */
  lemma NothingSaid(g: Group, msgs: set<Message>, id: int, r: Replica)
    requires SentInv(g, msgs, id, r) && !Ready(r)
    ensures forall n, d :: !VoteSent(g.f, msgs, id, r.v, n, d)
    ensures forall n, d :: Prepare(id, r.v, n, d) !in msgs
    ensures forall n, d :: Primary(g.f, r.v) == id ==> PrePrepare(r.v, n, d) !in msgs
  {
    hide OneVote, SentCommits;
  }

  lemma InstallVotes(g: Group, msgs: set<Message>, msgs': set<Message>, id: int, r: Replica, nv: NV, hasState: bool)
    requires r.SlotsWellFormed() && Core(g, id, r) && SentInv(g, msgs, id, r) && Waiting(g, r, nv)
    requires VotesForPicks(g.f, msgs, msgs', id, r, nv)
    ensures var r' := Entered(r, nv, hasState);
            && SentPrepares(g.f, msgs', id, r'.v, Ready(r'), r'.lastStable, r'.plog)
            && SentPrePrepares(g.f, msgs', id, r'.v, Ready(r'), r'.seqno, r'.lastStable, r'.plog)
  {
    hide OneVote, SentCommits, PickedDigest, InstallSlot, Core;
    var r' := Entered(r, nv, hasState);
    InstalledSlots(g, id, r, nv, hasState);
    forall n ensures PickedDigest(nv, n) != NULL_DIGEST {
      PickedIsReal(nv, n);
    }
  }

  lemma InstallOneVote(g: Group, msgs: set<Message>, msgs': set<Message>, id: int, r: Replica, nv: NV)
    requires SentInv(g, msgs, id, r) && Waiting(g, r, nv)
    requires VotesForPicks(g.f, msgs, msgs', id, r, nv)
    ensures OneVote(g.f, msgs', id)
  {
    hide SentCommits, SentPrepares, SentPrePrepares, PickedDigest;
    NothingSaid(g, msgs, id, r);
    forall u, k, e, e' | VoteSent(g.f, msgs', id, u, k, e) && VoteSent(g.f, msgs', id, u, k, e') ensures e == e' {
      if u == r.v {
        assert e == PickedDigest(nv, k) && e' == PickedDigest(nv, k);
      } else {
        assert VoteSent(g.f, msgs, id, u, k, e) && VoteSent(g.f, msgs, id, u, k, e');
      }
    }
  }

  lemma InstallCommits(g: Group, msgs: set<Message>, msgs': set<Message>, id: int, r: Replica, nv: NV, hasState: bool)
    requires msgs <= msgs' && NoCommits(msgs, msgs', id)
    requires r.SlotsWellFormed() && Core(g, id, r) && SentInv(g, msgs, id, r) && Waiting(g, r, nv)
    ensures SentCommits(g, msgs', id, r.v, r.lastStable, Entered(r, nv, hasState).plog)
  {
    hide SentPrepares, SentPrePrepares, OneVote, CompleteAt, PreparedSomething, InstallSlot, PickedDigest;
    SentCommitsGrow(g, msgs, msgs', id, r);
    EmptyNotComplete();
  }

  lemma InstallAllowed(g: Group, msgs: set<Message>, msgs': set<Message>, id: int, r: Replica, nv: NV)
    requires msgs <= msgs' && AllowedVotes(g, msgs, id) && VotesForPicks(g.f, msgs, msgs', id, r, nv)
    requires r.lowBound >= nv.min
    requires GoodNewView(g, msgs', r.v, nv) && forall n :: nv.min < n < nv.max ==> ValidPick(g.f, nv, n)
    ensures AllowedVotes(g, msgs', id)
  {
    hide GoodNewView, ValidPick, PickedDigest;
    forall w, k, e | w > 0 && VoteSent(g.f, msgs', id, w, k, e) ensures Allowed(g, msgs', w, k, e) {
      if VoteSent(g.f, msgs, id, w, k, e) {
        AllowedGrows(g, msgs, msgs', w, k, e);
      } else {
        assert AllowedBy(g.f, nv, k, e);
      }
    }
  }

  lemma InstallRuled(g: Group, msgs: set<Message>, id: int, r: Replica, nv: NV, hasState: bool)
    requires r.SlotsWellFormed() && Core(g, id, r) && Waiting(g, r, nv)
    requires GoodNewView(g, msgs, r.v, nv) && forall n :: nv.min < n < nv.max ==> ValidPick(g.f, nv, n)
    ensures var r' := Entered(r, nv, hasState);
            Ruled(g, msgs, id, r'.v, r'.installed, r'.lowBound, r'.seqno, r'.plog)
  {
    hide GoodNewView, ValidPick, PickedDigest, InstallSlot, Core;
    var r' := Entered(r, nv, hasState);
    InstalledSlots(g, id, r, nv, hasState);
    assert InForce(g, msgs, id, r'.v, r'.lowBound, r'.seqno, r'.plog, nv);
  }

  /** The new-view message of this replica, if there is a new one, is nv. */
  ghost predicate OnlyNewView(f: nat, msgs: set<Message>, msgs': set<Message>, id: int, nv: NV) {
    forall nv' :: NewView(nv') in msgs' && Primary(f, nv'.view) == id ==> NewView(nv') in msgs || nv' == nv
  }

  lemma InstallNewViews(g: Group, msgs: set<Message>, msgs': set<Message>, id: int, r: Replica, nv: NV)
    requires g.Correct(id) && msgs <= msgs' && SentNewViews(g.f, msgs, id) && r.v == nv.view
    requires OnlyNewView(g.f, msgs, msgs', id, nv) && PicksVoted(g, msgs', id, r, nv)
    ensures SentNewViews(g.f, msgs', id)
  {
    hide PickedDigest;
  }

  /** Installing nv, all messages sent. */
  lemma InstalledKeeps(g: Group, msgs: set<Message>, msgs': set<Message>, id: int, r: Replica, nv: NV, hasState: bool)
    requires g.Valid() && g.Correct(id) && r.SlotsWellFormed()
    requires ReplicaInv(g, msgs, id, r) && Waiting(g, r, nv) && msgs <= msgs'
    requires VotesForPicks(g.f, msgs, msgs', id, r, nv) && PicksVoted(g, msgs', id, r, nv)
    requires NoCommits(msgs, msgs', id) && NoViewChanges(msgs, msgs', id) && OnlyNewView(g.f, msgs, msgs', id, nv)
    requires GoodNewView(g, msgs', r.v, nv) && forall n :: nv.min < n < nv.max ==> ValidPick(g.f, nv, n)
    ensures ReplicaInv(g, msgs', id, Entered(r, nv, hasState))
  {
    hide Core, LogInv, SentPrepares, SentPrePrepares, OneVote, SentCommits, PastInv, AllowedVotes, SentNewViews,
         Ruled, VotesForPicks, PicksVoted, NoViewChanges, OnlyNewView, GoodNewView, ValidPick, PickedDigest;
    InstalledSlots(g, id, r, nv, hasState);
    LogGrows(g, msgs, msgs', id, r);
    InstallLog(g, msgs', id, r, nv, hasState);
    InstallVotes(g, msgs, msgs', id, r, nv, hasState);
    InstallOneVote(g, msgs, msgs', id, r, nv);
    InstallCommits(g, msgs, msgs', id, r, nv, hasState);
    PastGrows(g, msgs, msgs', id, r);
    InstallAllowed(g, msgs, msgs', id, r, nv);
    InstallNewViews(g, msgs, msgs', id, r, nv);
    InstallRuled(g, msgs', id, r, nv, hasState);
    PastIgnoresFlags(g, msgs', id, r, Entered(r, nv, hasState));
  }

  lemma PastIgnoresFlags(g: Group, msgs: set<Message>, id: int, r: Replica, r': Replica)
    requires PastInv(g, msgs, id, r)
    requires r'.v == r.v && r'.lastStable == r.lastStable && r'.oplog == r.oplog && r'.held == r.held
    ensures PastInv(g, msgs, id, r')
  {
    hide Histories, SentViewChanges, HeldTaken, SentCkpts;
  }

  lemma MadeReady(g: Group, msgs: set<Message>, id: int, r: Replica, nv: NV, ms: Seqno)
    requires r.SlotsWellFormed() && ReplicaInv(g, msgs, id, r)
    requires r.v > 0 && nv.view == r.v && !r.installed
    requires nv.min < nv.max && ms <= nv.min && nv.max - 1 <= Max(r.lastStable, ms) + MAX_OUT
    ensures var r1 := Begun(r, nv, ms);
            && r1.SlotsWellFormed() && ReplicaInv(g, msgs, id, r1) && Waiting(g, r1, nv)
            && r1.lowBound == Max(nv.min, r.lastStable) && r1.v == r.v
  {
    hide ReplicaInv;
    MoveBounds(g, msgs, id, r, nv.max - 1, Max(nv.min, r.lastStable));
    if ms > r.lastStable {
      StableKeeps(g, msgs, id, r.(seqno := nv.max - 1, lowBound := Max(nv.min, r.lastStable)), ms);
    }
  }

  lemma ProcessIsInstalled(g: Group, r: Replica, nv: NV, ms: Seqno, hasState: bool)
    requires r.SlotsWellFormed() && Begun(r, nv, ms).SlotsWellFormed()
    requires Begun(r, nv, ms).lowBound == Max(nv.min, r.lastStable)
    ensures ProcessNewView(r, nv, ms, hasState).0 == Entered(Begun(r, nv, ms), nv, hasState)
    ensures ProcessNewView(r, nv, ms, hasState).1 == InstallMessages(r, nv, Max(nv.min, r.lastStable))
  {
    hide PickedDigest, InstallSlot, InstallMessages;
  }

  /** What an installation sends. */
  lemma InstallMessagesAre(r: Replica, nv: NV, low: Seqno, m: Message)
    ensures m in InstallMessages(r, nv, low) <==>
              if Primary(r.f, r.v) == r.id then
                m == NewView(nv)
                || (m.PrePrepare? && m.view == r.v && nv.min < m.n < nv.max && m.d == PickedDigest(nv, m.n))
              else
                m.Prepare? && m.id == r.id && m.view == r.v && low < m.n < nv.max && m.d == PickedDigest(nv, m.n)
  {
    hide PickedDigest;
    var out := InstallMessages(r, nv, low);
    if Primary(r.f, r.v) == r.id {
      if m.PrePrepare? && m.view == r.v && nv.min < m.n < nv.max && m.d == PickedDigest(nv, m.n) {
        assert PrePrepare(r.v, m.n, PickedDigest(nv, m.n)) in out;
      }
    } else {
      if m.Prepare? && m.id == r.id && m.view == r.v && low < m.n < nv.max && m.d == PickedDigest(nv, m.n) {
        assert Prepare(r.id, r.v, m.n, PickedDigest(nv, m.n)) in out;
      }
    }
  }

  lemma InstallMessagesFacts(g: Group, msgs: set<Message>, id: int, r: Replica, r1: Replica, nv: NV, low: Seqno)
    requires r.f == g.f && r.id == id && g.Correct(id) && r1.v == r.v && r1.lowBound == low && r.v == nv.view
    requires Primary(g.f, r.v) != id ==>
      forall n :: nv.min < n < nv.max ==>
        Primary(g.f, r.v) in g.faulty || PrePrepare(r.v, n, PickedDigest(nv, n)) in msgs
    ensures var msgs' := msgs + InstallMessages(r, nv, low);
            && VotesForPicks(g.f, msgs, msgs', id, r1, nv) && PicksVoted(g, msgs', id, r1, nv)
            && NoCommits(msgs, msgs', id) && NoViewChanges(msgs, msgs', id) && OnlyNewView(g.f, msgs, msgs', id, nv)
            && (Primary(g.f, r.v) == id ==> NewView(nv) in msgs')
  {
    hide InstallMessages, PickedDigest;
    forall m ensures m in InstallMessages(r, nv, low) <==>
              if Primary(r.f, r.v) == r.id then
                m == NewView(nv)
                || (m.PrePrepare? && m.view == r.v && nv.min < m.n < nv.max && m.d == PickedDigest(nv, m.n))
              else
                m.Prepare? && m.id == r.id && m.view == r.v && low < m.n < nv.max && m.d == PickedDigest(nv, m.n)
    {
      InstallMessagesAre(r, nv, low, m);
    }
  }

  lemma InstallKeeps(g: Group, msgs: set<Message>, id: int, r: Replica, nv: NV, ms: Seqno, hasState: bool)
    requires g.Valid() && g.Correct(id) && r.SlotsWellFormed() && ReplicaInv(g, msgs, id, r)
    requires nv.view == r.v && !r.installed && ValidNewView(g.f, nv) && Received(msgs, nv)
    requires Primary(g.f, r.v) != id ==> NewView(nv) in msgs
    requires Primary(g.f, r.v) != id ==>
      forall n :: nv.min < n < nv.max ==>
        Primary(g.f, r.v) in g.faulty || PrePrepare(r.v, n, PickedDigest(nv, n)) in msgs
    requires ms <= nv.min && nv.max - 1 <= Max(r.lastStable, ms) + MAX_OUT
    ensures var (r', out) := ProcessNewView(r, nv, ms, hasState); ReplicaInv(g, msgs + out, id, r')
  {
    hide ReplicaInv, ValidPick, PickedDigest, InstallMessages, Begun, ProcessNewView, Waiting, Entered,
         VotesForPicks, PicksVoted, NoCommits, NoViewChanges, OnlyNewView;
    InvCore(g, msgs, id, r);
    MadeReady(g, msgs, id, r, nv, ms);
    var r1, low := Begun(r, nv, ms), Max(nv.min, r.lastStable);
    InstallMessagesFacts(g, msgs, id, r, r1, nv, low);
    ProcessIsInstalled(g, r, nv, ms, hasState);
    var msgs' := msgs + InstallMessages(r, nv, low);
    assert GoodNewView(g, msgs', r.v, nv);
    InstalledKeeps(g, msgs, msgs', id, r1, nv, hasState);
  }
}
