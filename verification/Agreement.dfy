/**
 * Safety of the protocol: what the invariant says about requests that
 * committed, in one view and across views.
 */
module Agreement {
  import opened Wrappers
  import opened Types
  import opened Quorums
  import opened OldRequestState
  import opened ViewChangeState
  import opened NewViewRules
  import opened ReplicaState
  import opened Protocol
  import opened ProtocolInvariant
  import opened CertificateMeaning
  import opened ProtocolFrames
  import opened ProtocolSteps
  import opened ProtocolRuns

  /** The facts of the invariant that safety rests on, for one correct replica. */
  lemma Facts(g: Group, s: System, id: int)
    requires SystemInv(g, s) && g.Correct(id)
    ensures OneVote(g.f, s.msgs, id) && AllowedVotes(g, s.msgs, id)
    ensures SentViewChanges(g, s.msgs, id, s.reps[id].v)
    ensures SentCommits(g, s.msgs, id, s.reps[id].v, s.reps[id].lastStable, s.reps[id].plog)
  {
    assert ReplicaInv(g, s.msgs, id, s.reps[id]);
  }

  /** In one view at most one digest gathers a quorum at a sequence number. */
  lemma QuorumsAgree(g: Group, s: System, v: View, n: Seqno, d: Digest, d': Digest)
    requires g.Valid() && SystemInv(g, s)
    requires QuorumPrepared(g, s.msgs, v, n, d) && QuorumPrepared(g, s.msgs, v, n, d')
    ensures d == d'
  {
    hide SystemInv, AllowedVotes, SentViewChanges, SentCommits;
    var a, b := Backers(g, s.msgs, v, n, d), Backers(g, s.msgs, v, n, d');
    var id := QuorumsMeet(g.f, a, b, g.faulty);
    Facts(g, s, id);
  }

  /** A quorum has a correct member, whose vote was sent. */
  lemma CorrectBacker(g: Group, msgs: set<Message>, v: View, n: Seqno, d: Digest) returns (id: int)
    requires g.Valid() && QuorumPrepared(g, msgs, v, n, d)
    ensures g.Correct(id) && VoteSent(g.f, msgs, id, v, n, d)
  {
    id := CorrectMember(g.f, Backers(g, msgs, v, n, d), g.faulty);
  }

  /** Correct replicas that voted at n in a view between v and w voted for d. */
  ghost predicate VotesAgreeUntil(g: Group, msgs: set<Message>, v: View, w: View, n: Seqno, d: Digest) {
    forall u, id, d' :: v < u < w && g.Correct(id) && VoteSent(g.f, msgs, id, u, n, d') ==> d' == d
  }

  /** Hence every later event of a true history has digest d. */
  lemma EventsAgree(g: Group, msgs: set<Message>, id: int, v: View, w: View, n: Seqno, d: Digest, events: seq<Event>)
    requires g.Valid() && g.Correct(id) && VotesAgreeUntil(g, msgs, v, w, n, d)
    requires TrueHistory(g, msgs, id, w, n, events)
    ensures LaterAgree(events, v, d)
  {
    forall k | 0 <= k < |events| && events[k].view > v ensures events[k].d == d {
      var e := events[k];
      assert EventOK(g, msgs, id, n, e);
      if !VoteSent(g.f, msgs, id, e.view, n, e.d) {
        var id' := CorrectBacker(g, msgs, e.view, n, e.d);
      }
    }
  }

  /** A correct replica that committed n in view v reports d as prepared in v or later. */
  lemma CommitterReports(g: Group, s: System, vc: VC, v: View, n: Seqno, d: Digest)
    requires g.Valid() && SystemInv(g, s)
    requires g.Correct(vc.id) && ViewChange(vc) in s.msgs && n > vc.ls
    requires v < vc.view && Commit(vc.id, v, n) in s.msgs && QuorumPrepared(g, s.msgs, v, n, d)
    requires VotesAgreeUntil(g, s.msgs, v, vc.view, n, d)
    ensures Req(vc, n).0 >= v && Req(vc, n).1 == d && n <= MaxSeqno(vc)
  {
    hide SystemInv, AllowedVotes, SentCommits, OneVote, VotesAgreeUntil, QuorumPrepared, LaterAgree;
    Facts(g, s, vc.id);
    assert TrueReport(g, s.msgs, vc, n);
    var events: seq<Event> :| TrueHistory(g, s.msgs, vc.id, vc.view, n, events) && ReportsRecord(vc, n, Replay(events));
    EventsAgree(g, s.msgs, vc.id, v, vc.view, n, d, events);
    assert PreparedIn(events, v);
    var k :| 0 <= k < |events| && events[k].view == v && events[k].prepared;
    assert EventOK(g, s.msgs, vc.id, n, events[k]);
    QuorumsAgree(g, s, v, n, d, events[k].d);
    assert events[k] == Event(v, d, true);
    DecidedIsKept(events, v, d);
    KeptViewIsReal(events);
  }

  lemma KeptViewIsReal(events: seq<Event>)
    requires IsHistory(events) && Replay(events).prepared
    ensures Replay(events).v >= 0
  {
    ReplaySummarises(events);
  }

  /** A correct replica vouches in a view above v only for d. */
  lemma VoucherAgrees(g: Group, s: System, vc: VC, v: View, n: Seqno, d: Digest, cv: View, cd: Digest)
    requires g.Valid() && SystemInv(g, s)
    requires g.Correct(vc.id) && ViewChange(vc) in s.msgs && 0 <= v < cv
    requires VotesAgreeUntil(g, s.msgs, v, vc.view, n, d)
    requires Vouches(vc, n, cv, cd)
    ensures cd == d
  {
    hide SystemInv, AllowedVotes, SentCommits, OneVote, VotesAgreeUntil, LaterAgree;
    Facts(g, s, vc.id);
    assert TrueReport(g, s.msgs, vc, n);
    var events: seq<Event> :| TrueHistory(g, s.msgs, vc.id, vc.view, n, events) && ReportsRecord(vc, n, Replay(events));
    EventsAgree(g, s.msgs, vc.id, v, vc.view, n, d, events);
    var r := Replay(events);
    if Req(vc, n) == (cv, cd) {
      PreparedVouches(events, cv, cd);
    }
    VouchedIsLater(events, v, d, cv, cd);
  }

  /** A prepared record vouches for itself. */
  lemma PreparedVouches(events: seq<Event>, cv: View, cd: Digest)
    requires IsHistory(events) && Replay(events).prepared
    requires Replay(events).v == cv && Replay(events).d == cd
    ensures RecordVouches(Replay(events), cv, cd)
  {
    ReplaySummarises(events);
  }

  // ------------------------------------------------------------------
  // Selection
  // ------------------------------------------------------------------

  /** The view-changes of nv come from their authors and are well formed. */
  lemma NewViewFacts(g: Group, msgs: set<Message>, w: View, nv: NV)
    requires GoodNewView(g, msgs, w, nv)
    ensures w > 0 && RangeSelected(g.f, nv.vcs, nv.max)
    ensures forall i :: i in nv.vcs ==> 0 <= i < 3 * g.f + 1 && nv.vcs[i].id == i && nv.vcs[i].view == w
    ensures forall i :: i in nv.vcs ==> ViewChange(nv.vcs[i]) in msgs
  {
  }

  /** 2f + 1 view-changes include that of a correct replica that committed n in view v. */
  lemma CommitterAmong(g: Group, msgs: set<Message>, v: View, n: Seqno, ids: set<int>) returns (i: int)
    requires g.Valid() && QuorumCommitted(g, msgs, v, n)
    requires |ids| >= 2 * g.f + 1 && forall i :: i in ids ==> 0 <= i < 3 * g.f + 1
    ensures i in ids && g.Correct(i) && Commit(i, v, n) in msgs
  {
    i := QuorumsMeet(g.f, Committers(g, msgs, v, n), ids, g.faulty);
  }

  /** A committed request is below the end of the range of every later new view. */
  lemma RangeSafe(g: Group, s: System, v: View, n: Seqno, d: Digest, nv: NV)
    requires g.Valid() && SystemInv(g, s)
    requires GoodNewView(g, s.msgs, nv.view, nv) && v < nv.view
    requires QuorumCommitted(g, s.msgs, v, n) && QuorumPrepared(g, s.msgs, v, n, d)
    requires VotesAgreeUntil(g, s.msgs, v, nv.view, n, d)
    ensures n < nv.max
  {
    hide *;
    NewViewFacts(g, s.msgs, nv.view, nv);
    EndingBelowFacts(g.f, nv.vcs, nv.max);
    var i := CommitterAmong(g, s.msgs, v, n, EndingBelow(nv.vcs, nv.max));
    var vc := nv.vcs[i];
    if n > vc.ls {
      CommitterReports(g, s, vc, v, n, d);
    } else {
      MaxSeqnoAbove(vc);
    }
  }

  lemma MaxSeqnoAbove(vc: VC)
    ensures MaxSeqno(vc) >= vc.ls
  {
  }

  lemma EndingBelowFacts(f: nat, vcs: map<int, VC>, max: Seqno)
    requires RangeSelected(f, vcs, max)
    ensures |EndingBelow(vcs, max)| >= 2 * f + 1
    ensures forall i :: i in EndingBelow(vcs, max) ==> i in vcs && MaxSeqno(vcs[i]) < max
  {
  }

  lemma SelectedFacts(f: nat, vcs: map<int, VC>, n: Seqno, cv: View, cd: Digest)
    requires ReqSelected(f, vcs, n, cv, cd)
    ensures |Lower(vcs, n, cv, cd)| >= 2 * f + 1 && |Vouchers(vcs, n, cv, cd)| >= f + 1
    ensures forall i :: i in Lower(vcs, n, cv, cd) ==>
      i in vcs && vcs[i].ls < n && (Req(vcs[i], n) == (cv, cd) || Req(vcs[i], n).0 < cv)
    ensures forall i :: i in Vouchers(vcs, n, cv, cd) ==> i in vcs && vcs[i].ls < n && Vouches(vcs[i], n, cv, cd)
  {
  }

  /** The rules select only d for n after d committed there in view v and no later vote contradicts it. */
  lemma SelectionSafe(g: Group, s: System, v: View, n: Seqno, d: Digest, nv: NV, cv: View, cd: Digest)
    requires g.Valid() && SystemInv(g, s)
    requires GoodNewView(g, s.msgs, nv.view, nv) && 0 <= v < nv.view
    requires QuorumCommitted(g, s.msgs, v, n) && QuorumPrepared(g, s.msgs, v, n, d)
    requires VotesAgreeUntil(g, s.msgs, v, nv.view, n, d)
    requires ReqSelected(g.f, nv.vcs, n, cv, cd)
    ensures cv >= v && cd == d
  {
    hide *;
    NewViewFacts(g, s.msgs, nv.view, nv);
    SelectedFacts(g.f, nv.vcs, n, cv, cd);
    var i := CommitterAmong(g, s.msgs, v, n, Lower(nv.vcs, n, cv, cd));
    CommitterReports(g, s, nv.vcs[i], v, n, d);
    if Req(nv.vcs[i], n) != (cv, cd) {
      var j := CorrectAmong(g, Vouchers(nv.vcs, n, cv, cd));
      VoucherAgrees(g, s, nv.vcs[j], v, n, d, cv, cd);
    }
  }

  lemma CorrectAmong(g: Group, ids: set<int>) returns (j: int)
    requires g.Valid() && |ids| >= g.f + 1 && forall i :: i in ids ==> 0 <= i < 3 * g.f + 1
    ensures j in ids && g.Correct(j)
  {
    j := CorrectMember(g.f, ids, g.faulty);
  }

  /** So a vote that a later new view allows is for d. */
  lemma AllowedVoteAgrees(g: Group, s: System, v: View, n: Seqno, d: Digest, w: View, d': Digest)
    requires g.Valid() && SystemInv(g, s) && 0 <= v < w && d != NULL_DIGEST
    requires QuorumCommitted(g, s.msgs, v, n) && QuorumPrepared(g, s.msgs, v, n, d)
    requires VotesAgreeUntil(g, s.msgs, v, w, n, d)
    requires Allowed(g, s.msgs, w, n, d')
    ensures d' == d
  {
    hide SystemInv, GoodNewView, VotesAgreeUntil, QuorumCommitted, QuorumPrepared, ReqSelected, PickedDigest, Req;
    var nv: NV :| GoodNewView(g, s.msgs, w, nv) && AllowedBy(g.f, nv, n, d');
    GoodNewViewView(g, s.msgs, w, nv);
    RangeSafe(g, s, v, n, d, nv);
    var (cv, cd) := Req(nv.vcs[nv.picked[n]], n);
    SelectionSafe(g, s, v, n, d, nv, cv, cd);
    PickedIs(nv, n);
  }

  lemma GoodNewViewView(g: Group, msgs: set<Message>, w: View, nv: NV)
    requires GoodNewView(g, msgs, w, nv)
    ensures nv.view == w
  {
  }

  lemma PickedIs(nv: NV, n: Seqno)
    requires n in nv.picked && nv.picked[n] in nv.vcs && nv.vcs[nv.picked[n]].ls < n
    ensures var (cv, cd) := Req(nv.vcs[nv.picked[n]], n);
            cv >= 0 && cd != NULL_DIGEST ==> PickedDigest(nv, n) == cd
  {
  }

  /** View-change safety: once d committed at n in view v, every later vote at n is for d. */
  lemma {:induction false} LaterVotesAgree(g: Group, s: System, v: View, n: Seqno, d: Digest, w: View)
    requires g.Valid() && SystemInv(g, s) && 0 <= v < w && d != NULL_DIGEST
    requires QuorumCommitted(g, s.msgs, v, n) && QuorumPrepared(g, s.msgs, v, n, d)
    ensures VotesAgreeUntil(g, s.msgs, v, w, n, d)
    decreases w - v
  {
    hide SystemInv, QuorumCommitted, QuorumPrepared, Allowed, VoteSent, SentCommits, SentViewChanges, OneVote;
    if w > v + 1 {
      var u := w - 1;
      LaterVotesAgree(g, s, v, n, d, u);
      forall id, d' | g.Correct(id) && VoteSent(g.f, s.msgs, id, u, n, d') ensures d' == d {
        Facts(g, s, id);
        AllowedVoteAgrees(g, s, v, n, d, u, d');
      }
    }
  }

  // ------------------------------------------------------------------
  // Main results
  // ------------------------------------------------------------------

  /** What a correct replica holds prepared in its view has a quorum behind it. */
  lemma PreparedMeansQuorum(g: Group, s: System, i: int, n: Seqno)
    requires g.Valid() && SystemInv(g, s) && g.Correct(i) && s.reps[i].SlotsWellFormed()
    requires Prepared(s.reps[i], n).Some?
    ensures Prepared(s.reps[i], n).value != NULL_DIGEST
    ensures QuorumPrepared(g, s.msgs, s.reps[i].v, n, Prepared(s.reps[i], n).value)
  {
    hide LogInv, SentInv, PastInv, ViewInv, CertOK, QuorumPrepared, CompleteAt;
    var r := s.reps[i];
    assert ReplicaInv(g, s.msgs, i, r);
    SlotFacts(g, s.msgs, i, r, n);
    CompleteMeansQuorumPrepared(g, s.msgs, i, r.v, n, r.PSlot(n));
  }

  /** What it holds committed has quorums that prepared and committed it. */
  lemma CommittedMeansQuorums(g: Group, s: System, i: int, n: Seqno)
    requires g.Valid() && SystemInv(g, s) && g.Correct(i) && s.reps[i].SlotsWellFormed()
    requires Committed(s.reps[i], n).Some?
    ensures s.reps[i].v >= 0 && Committed(s.reps[i], n).value != NULL_DIGEST
    ensures QuorumPrepared(g, s.msgs, s.reps[i].v, n, Committed(s.reps[i], n).value)
    ensures QuorumCommitted(g, s.msgs, s.reps[i].v, n)
  {
    hide LogInv, SentInv, PastInv, ViewInv, CommitCertOK, QuorumPrepared, QuorumCommitted, Prepared, CompleteAt;
    var r := s.reps[i];
    assert ReplicaInv(g, s.msgs, i, r);
    PreparedMeansQuorum(g, s, i, n);
    CommitSlotFacts(g, s.msgs, i, r, n);
    CompleteMeansQuorumCommitted(g, s.msgs, i, r.v, n, r.CSlot(n));
  }

  /** In-view agreement: correct replicas in the same view hold the same digest prepared. */
  lemma InViewAgreement(g: Group, s: System, i: int, j: int, n: Seqno)
    requires g.Valid() && SystemInv(g, s) && g.Correct(i) && g.Correct(j)
    requires s.reps[i].SlotsWellFormed() && s.reps[j].SlotsWellFormed() && s.reps[i].v == s.reps[j].v
    requires Prepared(s.reps[i], n).Some? && Prepared(s.reps[j], n).Some?
    ensures Prepared(s.reps[i], n) == Prepared(s.reps[j], n)
  {
    hide ReplicaInv, QuorumPrepared, Prepared;
    PreparedMeansQuorum(g, s, i, n);
    PreparedMeansQuorum(g, s, j, n);
    QuorumsAgree(g, s, s.reps[i].v, n, Prepared(s.reps[i], n).value, Prepared(s.reps[j], n).value);
  }

  /** A digest that gathers a quorum after d committed is d. */
  lemma QuorumAfterCommit(g: Group, s: System, v: View, n: Seqno, d: Digest, w: View, d': Digest)
    requires g.Valid() && SystemInv(g, s) && 0 <= v <= w && d != NULL_DIGEST
    requires QuorumCommitted(g, s.msgs, v, n) && QuorumPrepared(g, s.msgs, v, n, d)
    requires QuorumPrepared(g, s.msgs, w, n, d')
    ensures d' == d
  {
    hide SystemInv, QuorumCommitted, QuorumPrepared, VoteSent;
    if v == w {
      QuorumsAgree(g, s, v, n, d, d');
    } else {
      LaterVotesAgree(g, s, v, n, d, w + 1);
      var id := CorrectBacker(g, s.msgs, w, n, d');
    }
  }

  /** digest d is held committed at n by correct replica i in state k of a run. */
  ghost predicate CommittedIn(states: seq<System>, k: nat, i: int, n: Seqno, d: Digest) {
    && k < |states| && 0 <= i < |states[k].reps| && states[k].reps[i].SlotsWellFormed()
    && Committed(states[k].reps[i], n) == Some(d)
  }

  /** The quorums behind a committed digest, in the state it was committed and in every later one. */
  lemma CommittedLater(g: Group, states: seq<System>, actions: seq<Action>, k: nat, l: nat, i: int, n: Seqno, d: Digest)
    requires g.Valid() && IsRun(g, states, actions) && g.Correct(i)
    requires CommittedIn(states, k, i, n, d) && k <= l < |states|
    ensures SystemInv(g, states[l]) && d != NULL_DIGEST && states[k].reps[i].v >= 0
    ensures QuorumPrepared(g, states[l].msgs, states[k].reps[i].v, n, d)
    ensures QuorumCommitted(g, states[l].msgs, states[k].reps[i].v, n)
  {
    hide IsRun, SystemInv, QuorumCommitted, QuorumPrepared, Committed;
    RunKeeps(g, states, actions, k);
    RunKeeps(g, states, actions, l);
    CommittedMeansQuorums(g, states[k], i, n);
    MessagesGrow(g, states, actions, k, l);
    PreparedGrows(g, states[k].msgs, states[l].msgs, states[k].reps[i].v, n, d);
    CommittedGrows(g, states[k].msgs, states[l].msgs, states[k].reps[i].v, n);
  }

  /**
   * Agreement over whole runs: whatever correct replicas ever hold committed at
   * a sequence number, in whatever views and states, is the same digest.
   */
  lemma Agreement(g: Group, states: seq<System>, actions: seq<Action>,
                  k: nat, i: int, d: Digest, l: nat, j: int, d': Digest, n: Seqno)
    requires g.Valid() && IsRun(g, states, actions) && g.Correct(i) && g.Correct(j)
    requires CommittedIn(states, k, i, n, d) && CommittedIn(states, l, j, n, d')
    ensures d == d'
  {
    hide IsRun, SystemInv, QuorumCommitted, QuorumPrepared;
    var last := if k <= l then l else k;
    CommittedLater(g, states, actions, k, last, i, n, d);
    CommittedLater(g, states, actions, l, last, j, n, d');
    var v, w := states[k].reps[i].v, states[l].reps[j].v;
    if v <= w {
      QuorumAfterCommit(g, states[last], v, n, d, w, d');
    } else {
      QuorumAfterCommit(g, states[last], w, n, d', v, d);
    }
  }

  /**
   * View-change safety: a new view that follows the rules has every request
   * committed in an earlier view inside its range, and every request that the
   * rules select for its number, in particular the one picked, is that request.
   */
  lemma ViewChangeSafety(g: Group, states: seq<System>, actions: seq<Action>,
                         k: nat, i: int, n: Seqno, d: Digest, l: nat, nv: NV)
    requires g.Valid() && IsRun(g, states, actions) && g.Correct(i)
    requires CommittedIn(states, k, i, n, d) && k <= l < |states|
    requires nv.view > states[k].reps[i].v && ValidNewView(g.f, nv)
    requires NewView(nv) in states[l].msgs && Received(states[l].msgs, nv)
    ensures n < nv.max
    ensures forall cv, cd :: ReqSelected(g.f, nv.vcs, n, cv, cd) ==> cd == d
    ensures n > nv.min ==> PickedDigest(nv, n) == d
  {
    hide IsRun, SystemInv, QuorumCommitted, QuorumPrepared, VotesAgreeUntil, ReqSelected, ValidPick, PickedDigest,
         ValidRange, Received;
    var s, v := states[l], states[k].reps[i].v;
    CommittedLater(g, states, actions, k, l, i, n, d);
    LaterVotesAgree(g, s, v, n, d, nv.view);
    assert GoodNewView(g, s.msgs, nv.view, nv);
    RangeSafe(g, s, v, n, d, nv);
    forall cv, cd | ReqSelected(g.f, nv.vcs, n, cv, cd) ensures cd == d {
      SelectionSafe(g, s, v, n, d, nv, cv, cd);
    }
    if n > nv.min {
      assert AllowedBy(g.f, nv, n, PickedDigest(nv, n));
      AllowedVoteAgrees(g, s, v, n, d, nv.view, PickedDigest(nv, n));
    }
  }

  /** A checkpoint that a new view may start from was taken by a correct replica. */
  lemma StartIsReal(g: Group, s: System, nv: NV, n: Seqno, d: Digest) returns (i: int)
    requires g.Valid() && SystemInv(g, s)
    requires GoodNewView(g, s.msgs, nv.view, nv) && CkptSelected(g.f, nv.vcs, n, d)
    ensures g.Correct(i) && Checkpointed(i, n, d) in s.msgs
  {
    hide SystemInv, GoodNewView, Ckpt, RangeSelected;
    NewViewFacts(g, s.msgs, nv.view, nv);
    i := CorrectAmong(g, Holders(nv.vcs, n, d));
    CkptFacts(g, s, i);
  }

  lemma CkptFacts(g: Group, s: System, id: int)
    requires SystemInv(g, s) && g.Correct(id)
    ensures SentCkpts(s.msgs, id)
  {
    assert ReplicaInv(g, s.msgs, id, s.reps[id]);
  }
}
