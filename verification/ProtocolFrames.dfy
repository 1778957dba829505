/**
 * How the parts of the invariant survive messages they are not about, and
 * slots of the log that fill up.
 */
module ProtocolFrames {
  import opened Types
  import opened Quorums
  import opened CertificateState
  import PC = PreparedCertState
  import opened OldRequestState
  import opened ViewChangeState
  import opened ReplicaState
  import opened Protocol
  import opened ProtocolInvariant

  // ------------------------------------------------------------------
  // Facts about messages only become more
  // ------------------------------------------------------------------

  lemma PreparedGrows(g: Group, msgs: set<Message>, msgs': set<Message>, v: View, n: Seqno, d: Digest)
    requires msgs <= msgs' && QuorumPrepared(g, msgs, v, n, d)
    ensures QuorumPrepared(g, msgs', v, n, d)
  {
    SubsetSize(Backers(g, msgs, v, n, d), Backers(g, msgs', v, n, d));
  }

  lemma CommittedGrows(g: Group, msgs: set<Message>, msgs': set<Message>, v: View, n: Seqno)
    requires msgs <= msgs' && QuorumCommitted(g, msgs, v, n)
    ensures QuorumCommitted(g, msgs', v, n)
  {
    SubsetSize(Committers(g, msgs, v, n), Committers(g, msgs', v, n));
  }

  lemma CertGrows(g: Group, msgs: set<Message>, msgs': set<Message>, id: int, v: View, n: Seqno, pc: CertState<Digest>)
    requires msgs <= msgs' && CertOK(g, msgs, id, v, n, pc)
    ensures CertOK(g, msgs', id, v, n, pc)
  {
    hide Inv;
    var seen: map<int, Digest> :| Inv(pc, seen) && PreparesSent(g.f, msgs, v, n, seen);
    assert PreparesSent(g.f, msgs', v, n, seen);
  }

  lemma CommitCertGrows(g: Group, msgs: set<Message>, msgs': set<Message>, id: int, v: View, n: Seqno, cs: CertState<()>)
    requires msgs <= msgs' && CommitCertOK(g, msgs, id, v, n, cs)
    ensures CommitCertOK(g, msgs', id, v, n, cs)
  {
    hide Inv;
    var seen: map<int, ()> :| Inv(cs, seen) && CommitsSent(msgs, v, n, seen);
    assert CommitsSent(msgs', v, n, seen);
  }

  lemma SlotsGrow(g: Group, msgs: set<Message>, msgs': set<Message>, id: int, v: View, plog: map<Seqno, PC.PCert>)
    requires msgs <= msgs' && Slots(g, msgs, id, v, plog)
    ensures Slots(g, msgs', id, v, plog)
  {
    hide CertOK;
    forall n | n in plog
      ensures CertOK(g, msgs', id, v, n, plog[n].pc)
    {
      CertGrows(g, msgs, msgs', id, v, n, plog[n].pc);
    }
  }

  lemma CommitSlotsGrow(g: Group, msgs: set<Message>, msgs': set<Message>, id: int, v: View,
                        clog: map<Seqno, CertState<()>>, plog: map<Seqno, PC.PCert>)
    requires msgs <= msgs' && CommitSlots(g, msgs, id, v, clog, plog)
    ensures CommitSlots(g, msgs', id, v, clog, plog)
  {
    hide CommitCertOK, CompleteAt;
    forall n | n in clog
      ensures CommitCertOK(g, msgs', id, v, n, clog[n])
    {
      CommitCertGrows(g, msgs, msgs', id, v, n, clog[n]);
    }
  }

  lemma LogGrows(g: Group, msgs: set<Message>, msgs': set<Message>, id: int, r: Replica)
    requires msgs <= msgs' && LogInv(g, msgs, id, r)
    ensures LogInv(g, msgs', id, r)
  {
    hide Slots, CommitSlots, PrimaryBound;
    SlotsGrow(g, msgs, msgs', id, r.v, r.plog);
    CommitSlotsGrow(g, msgs, msgs', id, r.v, r.clog, r.plog);
  }

  lemma GoodNewViewGrows(g: Group, msgs: set<Message>, msgs': set<Message>, v: View, nv: NV)
    requires msgs <= msgs' && GoodNewView(g, msgs, v, nv)
    ensures GoodNewView(g, msgs', v, nv)
  {
    hide ValidRange;
  }

  lemma RuledGrows(g: Group, msgs: set<Message>, msgs': set<Message>, id: int, r: Replica)
    requires msgs <= msgs' && Ruled(g, msgs, id, r.v, r.installed, r.lowBound, r.seqno, r.plog)
    ensures Ruled(g, msgs', id, r.v, r.installed, r.lowBound, r.seqno, r.plog)
  {
    hide GoodNewView, ValidPick, PickedDigest, PPAt;
    if r.v > 0 && r.installed {
      var nv: NV :| InForce(g, msgs, id, r.v, r.lowBound, r.seqno, r.plog, nv);
      GoodNewViewGrows(g, msgs, msgs', r.v, nv);
      assert InForce(g, msgs', id, r.v, r.lowBound, r.seqno, r.plog, nv);
    }
  }

  lemma AllowedGrows(g: Group, msgs: set<Message>, msgs': set<Message>, v: View, n: Seqno, d: Digest)
    requires msgs <= msgs' && Allowed(g, msgs, v, n, d)
    ensures Allowed(g, msgs', v, n, d)
  {
    hide GoodNewView, AllowedBy;
    var nv: NV :| GoodNewView(g, msgs, v, nv) && AllowedBy(g.f, nv, n, d);
    GoodNewViewGrows(g, msgs, msgs', v, nv);
  }

  // ------------------------------------------------------------------
  // Parts about what one replica sent, when it sends nothing of the kind
  // ------------------------------------------------------------------

  /** No new vote of replica id. */
  ghost predicate NoVotes(f: nat, msgs: set<Message>, msgs': set<Message>, id: int) {
    && (forall u, n, d :: Prepare(id, u, n, d) in msgs' ==> Prepare(id, u, n, d) in msgs)
    && (forall u, n, d :: PrePrepare(u, n, d) in msgs' && Primary(f, u) == id ==> PrePrepare(u, n, d) in msgs)
  }

  ghost predicate NoCommits(msgs: set<Message>, msgs': set<Message>, id: int) {
    forall u, n :: Commit(id, u, n) in msgs' ==> Commit(id, u, n) in msgs
  }

  ghost predicate NoViewChanges(msgs: set<Message>, msgs': set<Message>, id: int) {
    forall vc :: ViewChange(vc) in msgs' && vc.id == id ==> ViewChange(vc) in msgs
  }

  ghost predicate NoNewViews(f: nat, msgs: set<Message>, msgs': set<Message>, id: int) {
    forall nv :: NewView(nv) in msgs' && Primary(f, nv.view) == id ==> NewView(nv) in msgs
  }

  lemma VotesGrow(g: Group, msgs: set<Message>, msgs': set<Message>, id: int, r: Replica)
    requires NoVotes(g.f, msgs, msgs', id)
    requires SentPrepares(g.f, msgs, id, r.v, Ready(r), r.lastStable, r.plog)
    requires SentPrePrepares(g.f, msgs, id, r.v, Ready(r), r.seqno, r.lastStable, r.plog)
    requires OneVote(g.f, msgs, id)
    ensures SentPrepares(g.f, msgs', id, r.v, Ready(r), r.lastStable, r.plog)
    ensures SentPrePrepares(g.f, msgs', id, r.v, Ready(r), r.seqno, r.lastStable, r.plog)
    ensures OneVote(g.f, msgs', id)
  {
    hide PPAt;
    OneVoteGrows(g.f, msgs, msgs', id);
  }

  lemma OneVoteGrows(f: nat, msgs: set<Message>, msgs': set<Message>, id: int)
    requires NoVotes(f, msgs, msgs', id) && OneVote(f, msgs, id)
    ensures OneVote(f, msgs', id)
  {
    forall u, n, d, d' | VoteSent(f, msgs', id, u, n, d) && VoteSent(f, msgs', id, u, n, d') ensures d == d' {
      assert VoteSent(f, msgs, id, u, n, d) && VoteSent(f, msgs, id, u, n, d');
    }
  }

  lemma SentCommitsGrow(g: Group, msgs: set<Message>, msgs': set<Message>, id: int, r: Replica)
    requires msgs <= msgs' && NoCommits(msgs, msgs', id)
    requires SentCommits(g, msgs, id, r.v, r.lastStable, r.plog)
    ensures SentCommits(g, msgs', id, r.v, r.lastStable, r.plog)
  {
    hide CompleteAt, QuorumPrepared;
    forall u, n | Commit(id, u, n) in msgs' ensures PreparedSomething(g, msgs', u, n) {
      PreparedSomethingGrows(g, msgs, msgs', u, n);
    }
  }

  lemma PreparedSomethingGrows(g: Group, msgs: set<Message>, msgs': set<Message>, v: View, n: Seqno)
    requires msgs <= msgs' && PreparedSomething(g, msgs, v, n)
    ensures PreparedSomething(g, msgs', v, n)
  {
    hide QuorumPrepared;
    var d :| QuorumPrepared(g, msgs, v, n, d);
    PreparedGrows(g, msgs, msgs', v, n, d);
  }

  lemma SentGrows(g: Group, msgs: set<Message>, msgs': set<Message>, id: int, r: Replica)
    requires msgs <= msgs' && NoVotes(g.f, msgs, msgs', id) && NoCommits(msgs, msgs', id)
    requires SentInv(g, msgs, id, r)
    ensures SentInv(g, msgs', id, r)
  {
    hide SentPrepares, SentPrePrepares, OneVote, SentCommits, NoVotes, NoCommits;
    VotesGrow(g, msgs, msgs', id, r);
    SentCommitsGrow(g, msgs, msgs', id, r);
  }

  // Histories and view-changes.

  /** No new commit of replica id below view v. */
  ghost predicate NoOldCommits(msgs: set<Message>, msgs': set<Message>, id: int, v: View) {
    forall u, n :: Commit(id, u, n) in msgs' && u < v ==> Commit(id, u, n) in msgs
  }

  lemma EventGrows(g: Group, msgs: set<Message>, msgs': set<Message>, id: int, n: Seqno, e: Event)
    requires msgs <= msgs' && EventOK(g, msgs, id, n, e)
    ensures EventOK(g, msgs', id, n, e)
  {
    hide QuorumPrepared;
    if QuorumPrepared(g, msgs, e.view, n, e.d) {
      PreparedGrows(g, msgs, msgs', e.view, n, e.d);
    }
  }

  lemma HistoryGrows(g: Group, msgs: set<Message>, msgs': set<Message>, id: int, v: View, n: Seqno, events: seq<Event>)
    requires msgs <= msgs' && NoOldCommits(msgs, msgs', id, v) && TrueHistory(g, msgs, id, v, n, events)
    ensures TrueHistory(g, msgs', id, v, n, events)
  {
    hide EventOK, PreparedIn, IsHistory;
    forall k | 0 <= k < |events| ensures events[k].view < v && EventOK(g, msgs', id, n, events[k]) {
      EventGrows(g, msgs, msgs', id, n, events[k]);
    }
  }

  lemma HasHistoryGrows(g: Group, msgs: set<Message>, msgs': set<Message>, id: int, v: View, n: Seqno, rec: Record)
    requires msgs <= msgs' && NoOldCommits(msgs, msgs', id, v) && HasHistory(g, msgs, id, v, n, rec)
    ensures HasHistory(g, msgs', id, v, n, rec)
  {
    hide TrueHistory, NoOldCommits, Replay;
    var events: seq<Event> :| TrueHistory(g, msgs, id, v, n, events) && Replay(events) == rec;
    HistoryGrows(g, msgs, msgs', id, v, n, events);
  }

  lemma HistoriesGrow(g: Group, msgs: set<Message>, msgs': set<Message>, id: int, v: View,
                      lastStable: Seqno, oplog: map<Seqno, Record>)
    requires msgs <= msgs' && NoOldCommits(msgs, msgs', id, v)
    requires Histories(g, msgs, id, v, lastStable, oplog)
    ensures Histories(g, msgs', id, v, lastStable, oplog)
  {
    hide HasHistory, RecAt, NoOldCommits;
    forall n | n > lastStable ensures HasHistory(g, msgs', id, v, n, RecAt(oplog, n)) {
      HasHistoryGrows(g, msgs, msgs', id, v, n, RecAt(oplog, n));
    }
  }

  lemma TrueReportGrows(g: Group, msgs: set<Message>, msgs': set<Message>, vc: VC, n: Seqno)
    requires msgs <= msgs' && NoOldCommits(msgs, msgs', vc.id, vc.view)
    requires n > vc.ls && TrueReport(g, msgs, vc, n)
    ensures TrueReport(g, msgs', vc, n)
  {
    hide TrueHistory, ReportsRecord, NoOldCommits, Replay;
    var events: seq<Event> :| TrueHistory(g, msgs, vc.id, vc.view, n, events) && ReportsRecord(vc, n, Replay(events));
    HistoryGrows(g, msgs, msgs', vc.id, vc.view, n, events);
  }

  lemma OlderCommits(msgs: set<Message>, msgs': set<Message>, id: int, v: View, w: View)
    requires NoOldCommits(msgs, msgs', id, v) && w <= v
    ensures NoOldCommits(msgs, msgs', id, w)
  {
  }

  lemma ViewChangesGrow(g: Group, msgs: set<Message>, msgs': set<Message>, id: int, v: View)
    requires msgs <= msgs' && NoViewChanges(msgs, msgs', id) && NoOldCommits(msgs, msgs', id, v)
    requires SentViewChanges(g, msgs, id, v)
    ensures SentViewChanges(g, msgs', id, v)
  {
    hide TrueReport, NoOldCommits;
    forall vc, n | ViewChange(vc) in msgs' && vc.id == id && n > vc.ls ensures TrueReport(g, msgs', vc, n) {
      OlderCommits(msgs, msgs', id, v, vc.view);
      TrueReportGrows(g, msgs, msgs', vc, n);
    }
  }

  lemma PastGrows(g: Group, msgs: set<Message>, msgs': set<Message>, id: int, r: Replica)
    requires msgs <= msgs' && NoViewChanges(msgs, msgs', id) && NoOldCommits(msgs, msgs', id, r.v)
    requires PastInv(g, msgs, id, r)
    ensures PastInv(g, msgs', id, r)
  {
    hide Histories, SentViewChanges, Ckpt, NoOldCommits;
    HistoriesGrow(g, msgs, msgs', id, r.v, r.lastStable, r.oplog);
    ViewChangesGrow(g, msgs, msgs', id, r.v);
  }

  // Rules of new views.

  lemma AllowedVotesGrow(g: Group, msgs: set<Message>, msgs': set<Message>, id: int)
    requires msgs <= msgs' && NoVotes(g.f, msgs, msgs', id) && AllowedVotes(g, msgs, id)
    ensures AllowedVotes(g, msgs', id)
  {
    hide Allowed;
    forall v, n, d | v > 0 && VoteSent(g.f, msgs', id, v, n, d) ensures Allowed(g, msgs', v, n, d) {
      assert VoteSent(g.f, msgs, id, v, n, d);
      AllowedGrows(g, msgs, msgs', v, n, d);
    }
  }

  lemma ViewGrows(g: Group, msgs: set<Message>, msgs': set<Message>, id: int, r: Replica)
    requires msgs <= msgs' && NoVotes(g.f, msgs, msgs', id) && NoNewViews(g.f, msgs, msgs', id)
    requires ViewInv(g, msgs, id, r)
    ensures ViewInv(g, msgs', id, r)
  {
    hide AllowedVotes, Ruled, NoVotes, PickedDigest;
    AllowedVotesGrow(g, msgs, msgs', id);
    RuledGrows(g, msgs, msgs', id, r);
  }

  // ------------------------------------------------------------------
  // Replicas that take no step
  // ------------------------------------------------------------------

  /** Replica id sends none of the new messages. */
  ghost predicate Silent(f: nat, msgs: set<Message>, msgs': set<Message>, id: int) {
    msgs <= msgs' && forall m :: m in msgs' && m !in msgs ==> Sender(f, m) != id
  }

  lemma SilentKinds(f: nat, msgs: set<Message>, msgs': set<Message>, id: int, v: View)
    requires Silent(f, msgs, msgs', id)
    ensures NoVotes(f, msgs, msgs', id) && NoCommits(msgs, msgs', id) && NoViewChanges(msgs, msgs', id)
    ensures NoNewViews(f, msgs, msgs', id) && NoOldCommits(msgs, msgs', id, v)
  {
    forall u, n, d | Prepare(id, u, n, d) in msgs' ensures Prepare(id, u, n, d) in msgs {
      assert Sender(f, Prepare(id, u, n, d)) == id;
    }
    forall u, n, d | PrePrepare(u, n, d) in msgs' && Primary(f, u) == id ensures PrePrepare(u, n, d) in msgs {
      assert Sender(f, PrePrepare(u, n, d)) == id;
    }
    forall u, n | Commit(id, u, n) in msgs' ensures Commit(id, u, n) in msgs {
      assert Sender(f, Commit(id, u, n)) == id;
    }
    forall vc | ViewChange(vc) in msgs' && vc.id == id ensures ViewChange(vc) in msgs {
      assert Sender(f, ViewChange(vc)) == id;
    }
    forall nv | NewView(nv) in msgs' && Primary(f, nv.view) == id ensures NewView(nv) in msgs {
      assert Sender(f, NewView(nv)) == id;
    }
  }

  /** What others send leaves the invariant of a replica alone. */
  lemma SilentKeeps(g: Group, msgs: set<Message>, msgs': set<Message>, id: int, r: Replica)
    requires Silent(g.f, msgs, msgs', id) && ReplicaInv(g, msgs, id, r)
    ensures ReplicaInv(g, msgs', id, r)
  {
    hide Core, LogInv, SentInv, PastInv, ViewInv, NoVotes, NoCommits, NoViewChanges, NoNewViews, NoOldCommits;
    SilentKinds(g.f, msgs, msgs', id, r.v);
    LogGrows(g, msgs, msgs', id, r);
    SentGrows(g, msgs, msgs', id, r);
    PastGrows(g, msgs, msgs', id, r);
    ViewGrows(g, msgs, msgs', id, r);
  }
}
