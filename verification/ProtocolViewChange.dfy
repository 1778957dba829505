/** Leaving a view: the records and the view-change message tell the truth about it. */
module ProtocolViewChange {
  import opened Types
  import opened CertificateState
  import PC = PreparedCertState
  import opened OldRequestState
  import opened ViewChangeState
  import opened ReplicaState
  import opened Protocol
  import opened ProtocolInvariant
  import opened CertificateMeaning
  import opened ProtocolFrames
  import opened ProtocolSteps

  /** What the slot of a sequence number adds to its history when view v is left. */
  function LastEvents(p: PC.PCert, v: View): seq<Event>
    requires p.WellFormed()
  {
    if p.IsComplete() then [Event(v, p.pp.value, true)]
    else if p.pc.mine.Some? then [Event(v, p.pc.mine.value.val, false)]
    else if p.MyPrePrepare().Some? then [Event(v, p.MyPrePrepare().value, false)]
    else []
  }

  lemma UpdateIsReplay(events: seq<Event>, p: PC.PCert, v: View)
    requires p.WellFormed()
    ensures Replay(events + LastEvents(p, v)) == UpdateRecord(Replay(events), p, v)
  {
    var last := LastEvents(p, v);
    if last == [] {
      assert events + last == events;
    } else {
      assert (events + last)[..|events|] == events;
      assert (events + last)[|events|] == last[0];
    }
  }

  /** The event of a slot stands for votes that were sent. */
  lemma LastEventOK(g: Group, msgs: set<Message>, id: int, r: Replica, n: Seqno)
    requires g.Valid() && g.Correct(id) && r.SlotsWellFormed()
    requires Core(g, id, r) && LogInv(g, msgs, id, r)
    requires SentPrepares(g.f, msgs, id, r.v, Ready(r), r.lastStable, r.plog)
    ensures forall e :: e in LastEvents(r.PSlot(n), r.v) ==>
              e.view == r.v && e.d != NULL_DIGEST && EventOK(g, msgs, id, n, e)
  {
    hide LogInv, SentPrepares, QuorumPrepared, CertOK, CompleteAt;
    SlotFacts(g, msgs, id, r, n);
    var p := r.PSlot(n);
    if p.IsComplete() {
      CompleteMeansQuorumPrepared(g, msgs, id, r.v, n, p);
    } else if p.pc.mine.Some? {
      MineWasSent(g, msgs, id, r, n, p.pc);
    }
  }

  lemma MineWasSent(g: Group, msgs: set<Message>, id: int, r: Replica, n: Seqno, pc: CertState<Digest>)
    requires CertOK(g, msgs, id, r.v, n, pc) && pc.mine.Some?
    requires SentPrepares(g.f, msgs, id, r.v, Ready(r), r.lastStable, r.plog)
    ensures Prepare(id, r.v, n, pc.mine.value.val) in msgs && pc.mine.value.val != NULL_DIGEST
  {
    hide PPAt;
    var seen: map<int, Digest> :| Inv(pc, seen) && PreparesSent(g.f, msgs, r.v, n, seen);
    MineIsSeen(pc, seen);
  }

  lemma MineIsSeen<V>(s: CertState<V>, seen: map<int, V>)
    requires Inv(s, seen) && s.mine.Some?
    ensures s.me in seen && seen[s.me] == s.mine.value.val
  {
  }

  lemma HistoryAppend(events: seq<Event>, last: seq<Event>, v: View)
    requires IsHistory(events) && |last| <= 1 && v >= 0
    requires forall k :: 0 <= k < |events| ==> events[k].view < v
    requires forall e :: e in last ==> e.view == v && e.d != NULL_DIGEST
    ensures IsHistory(events + last)
  {
  }

  lemma PreparedInAppend(events: seq<Event>, last: seq<Event>, u: View)
    requires PreparedIn(events, u)
    ensures PreparedIn(events + last, u)
  {
    var k :| 0 <= k < |events| && events[k].view == u && events[k].prepared;
    assert (events + last)[k] == events[k];
  }

  lemma PreparedInLast(events: seq<Event>, p: PC.PCert, v: View)
    requires p.WellFormed() && p.IsComplete()
    ensures PreparedIn(events + LastEvents(p, v), v)
  {
    assert (events + LastEvents(p, v))[|events|] == Event(v, p.pp.value, true);
  }

  /** A commit of this view at n means that its slot is complete. */
  lemma CommitMeansComplete(g: Group, msgs: set<Message>, id: int, r: Replica, n: Seqno)
    requires g.Valid() && Core(g, id, r) && LogInv(g, msgs, id, r)
    requires SentCommits(g, msgs, id, r.v, r.lastStable, r.plog)
    requires Commit(id, r.v, n) in msgs && n > r.lastStable
    ensures r.PSlot(n).WellFormed() && r.PSlot(n).IsComplete() && r.InWindow(n)
  {
    hide LogInv, CertOK, PPOK, PreparedSomething;
    SlotFacts(g, msgs, id, r, n);
  }

  /** The history of n goes on with the event of its slot. */
  lemma HistoryStep(g: Group, msgs: set<Message>, id: int, r: Replica, n: Seqno, events: seq<Event>, w: View)
    requires g.Valid() && g.Correct(id) && r.SlotsWellFormed() && Core(g, id, r) && LogInv(g, msgs, id, r)
    requires SentPrepares(g.f, msgs, id, r.v, Ready(r), r.lastStable, r.plog)
    requires SentCommits(g, msgs, id, r.v, r.lastStable, r.plog)
    requires n > r.lastStable && w > r.v && TrueHistory(g, msgs, id, r.v, n, events)
    ensures TrueHistory(g, msgs, id, w, n, events + LastEvents(r.PSlot(n), r.v))
  {
    hide LogInv, SentPrepares, SentCommits, EventOK, PreparedIn, IsHistory;
    var last := LastEvents(r.PSlot(n), r.v);
    LastEventOK(g, msgs, id, r, n);
    HistoryAppend(events, last, r.v);
    var all := events + last;
    forall k | 0 <= k < |all| ensures all[k].view < w && EventOK(g, msgs, id, n, all[k]) {
      if k >= |events| {
        assert all[k] in last;
      }
    }
    forall u | u < w && Commit(id, u, n) in msgs ensures PreparedIn(all, u) {
      CommitAccounted(g, msgs, id, r, n, events, u);
    }
  }

  lemma CommitAccounted(g: Group, msgs: set<Message>, id: int, r: Replica, n: Seqno, events: seq<Event>, u: View)
    requires g.Valid() && r.SlotsWellFormed() && Core(g, id, r) && LogInv(g, msgs, id, r)
    requires SentCommits(g, msgs, id, r.v, r.lastStable, r.plog)
    requires n > r.lastStable && TrueHistory(g, msgs, id, r.v, n, events)
    requires Commit(id, u, n) in msgs
    ensures PreparedIn(events + LastEvents(r.PSlot(n), r.v), u)
  {
    hide LogInv, EventOK, PreparedIn, IsHistory, PreparedSomething, CompleteAt, LastEvents;
    if u < r.v {
      PreparedInAppend(events, LastEvents(r.PSlot(n), r.v), u);
    } else {
      CommitMeansComplete(g, msgs, id, r, n);
      PreparedInLast(events, r.PSlot(n), r.v);
    }
  }

  lemma RecordStep(g: Group, msgs: set<Message>, id: int, r: Replica, n: Seqno, w: View)
    requires g.Valid() && g.Correct(id) && r.SlotsWellFormed() && Core(g, id, r) && LogInv(g, msgs, id, r)
    requires SentPrepares(g.f, msgs, id, r.v, Ready(r), r.lastStable, r.plog)
    requires SentCommits(g, msgs, id, r.v, r.lastStable, r.plog)
    requires n > r.lastStable && w > r.v && HasHistory(g, msgs, id, r.v, n, r.Rec(n))
    ensures HasHistory(g, msgs, id, w, n, RecAt(UpdatedLog(r), n))
  {
    hide LogInv, SentPrepares, SentCommits, TrueHistory, Replay, LastEvents, UpdateRecord, IsHistory;
    var events: seq<Event> :| TrueHistory(g, msgs, id, r.v, n, events) && Replay(events) == r.Rec(n);
    HistoryStep(g, msgs, id, r, n, events, w);
    UpdateIsReplay(events, r.PSlot(n), r.v);
    OutsideWindow(g, msgs, id, r, n);
  }

  /** Outside the window there is neither a record nor a slot. */
  lemma OutsideWindow(g: Group, msgs: set<Message>, id: int, r: Replica, n: Seqno)
    requires g.Valid() && r.SlotsWellFormed() && Core(g, id, r) && n > r.lastStable
    ensures RecAt(UpdatedLog(r), n) == UpdateRecord(r.Rec(n), r.PSlot(n), r.v)
  {
    hide UpdateRecord;
    if !r.InWindow(n) {
      EmptyUpdatesNothing(g.f, id, r.Rec(n), r.v);
    }
  }

  lemma EmptyUpdatesNothing(f: nat, id: int, rec: Record, v: View)
    requires f >= 1
    ensures PC.EmptyPCert(f, id).WellFormed() && UpdateRecord(rec, PC.EmptyPCert(f, id), v) == rec
  {
  }

  lemma LeaveHistories(g: Group, msgs: set<Message>, id: int, r: Replica, w: View)
    requires g.Valid() && g.Correct(id) && r.SlotsWellFormed() && w > r.v
    requires Core(g, id, r) && LogInv(g, msgs, id, r) && SentInv(g, msgs, id, r)
    requires Histories(g, msgs, id, r.v, r.lastStable, r.oplog)
    ensures Histories(g, msgs, id, w, r.lastStable, UpdatedLog(r))
  {
    hide Core, LogInv, SentPrepares, SentPrePrepares, OneVote, SentCommits, HasHistory, UpdatedLog;
    forall n | n > r.lastStable ensures HasHistory(g, msgs, id, w, n, RecAt(UpdatedLog(r), n)) {
      assert RecAt(r.oplog, n) == r.Rec(n);
      RecordStep(g, msgs, id, r, n, w);
    }
  }

  /** The message reports every record beyond its stable checkpoint, also those outside the window. */
  lemma ReportsAll(r: Replica, w: View, vc: VC, n: Seqno)
    requires r.SlotsWellFormed() && IsMyViewChange(r, w, vc) && n > vc.ls
    ensures ReportsRecord(vc, n, RecAt(UpdatedLog(r), n))
  {
    hide UpdateRecord;
    var log := UpdatedLog(r);
    assert RecAt(log, n) == if n in log then log[n] else EMPTY_RECORD;
  }

  lemma MyReportIsTrue(g: Group, msgs: set<Message>, id: int, r: Replica, w: View, vc: VC, n: Seqno)
    requires r.SlotsWellFormed() && r.id == id && IsMyViewChange(r, w, vc) && n > vc.ls
    requires Histories(g, msgs, id, w, r.lastStable, UpdatedLog(r))
    ensures TrueReport(g, msgs, vc, n)
  {
    hide TrueHistory, Replay, ReportsRecord, UpdatedLog, ReportsLog;
    ReportsAll(r, w, vc, n);
    assert HasHistory(g, msgs, id, w, n, RecAt(UpdatedLog(r), n));
    var events: seq<Event> :| TrueHistory(g, msgs, id, w, n, events) && Replay(events) == RecAt(UpdatedLog(r), n);
  }

  lemma LeaveViewChanges(g: Group, msgs: set<Message>, id: int, r: Replica, w: View, vc: VC)
    requires r.SlotsWellFormed() && r.id == id && IsMyViewChange(r, w, vc) && w > r.v
    requires Histories(g, msgs, id, w, r.lastStable, UpdatedLog(r)) && SentViewChanges(g, msgs, id, r.v)
    ensures SentViewChanges(g, msgs + {ViewChange(vc)}, id, w)
  {
    hide TrueReport, Histories, UpdatedLog, ReportsLog;
    var msgs' := msgs + {ViewChange(vc)};
    forall vc', n | ViewChange(vc') in msgs' && vc'.id == id && n > vc'.ls ensures TrueReport(g, msgs', vc', n) {
      if vc' == vc {
        MyReportIsTrue(g, msgs, id, r, w, vc, n);
      }
      TrueReportGrows(g, msgs, msgs', vc', n);
    }
  }

  lemma LeaveLog(g: Group, msgs: set<Message>, id: int, r: Replica, w: View)
    requires r.SlotsWellFormed() && Core(g, id, r) && w > r.v
    ensures Core(g, id, ChangeView(r, w)) && LogInv(g, msgs, id, ChangeView(r, w))
  {
    hide UpdateRecord, CertOK, PPOK, CommitCertOK;
  }

  lemma LeaveSent(g: Group, msgs: set<Message>, id: int, r: Replica, w: View)
    requires r.SlotsWellFormed() && SentInv(g, msgs, id, r) && w > r.v
    ensures SentInv(g, msgs, id, ChangeView(r, w))
  {
    hide OneVote, UpdatedLog, PPAt, CompleteAt, PreparedSomething;
  }

  lemma LeaveKeeps(g: Group, msgs: set<Message>, id: int, r: Replica, w: View, vc: VC)
    requires g.Valid() && g.Correct(id) && r.SlotsWellFormed() && ReplicaInv(g, msgs, id, r)
    requires w > r.v && IsMyViewChange(r, w, vc)
    ensures ReplicaInv(g, msgs + {ViewChange(vc)}, id, ChangeView(r, w))
  {
    hide Core, LogInv, SentInv, Histories, SentViewChanges, SentNewViews, AllowedVotes, UpdatedLog, ReportsLog, Ckpt;
    var msgs', r' := msgs + {ViewChange(vc)}, ChangeView(r, w);
    InvCore(g, msgs, id, r);
    LeaveHistories(g, msgs, id, r, w);
    LeaveViewChanges(g, msgs, id, r, w, vc);
    LeaveLog(g, msgs, id, r, w);
    LogGrows(g, msgs, msgs', id, r');
    LeaveSent(g, msgs, id, r, w);
    SentGrows(g, msgs, msgs', id, r');
    HistoriesGrow(g, msgs, msgs', id, w, r.lastStable, UpdatedLog(r));
    ViewGrows(g, msgs, msgs', id, r);
  }
}
