/**
 * What the two loose guards of a backup cost: runs of four replicas, of which
 * only replica 0 is faulty, in which two correct replicas commit different
 * digests at one sequence number.  In each the backups enter view 4, whose
 * primary is replica 0 again, on a new view that the rules refuse.
 */
module Disagreement {
  import opened Wrappers
  import opened Types
  import opened Quorums
  import opened OldRequestState
  import opened ViewChangeState
  import opened NewViewRules
  import opened NewViewCounters
  import opened NewViewCheck
  import opened ReplicaState
  import opened Protocol
  import opened Agreement
  import opened CodeRuns
  import opened RunSteps

  const G := Group(1, {0})

  /** The digest of checkpoint 0, and that of checkpoint 128. */
  const C0: Digest := 9
  const C128: Digest := 10

  /** Replica i as it starts, with checkpoint 0. */
  function Begins(i: int): Replica {
    InitReplica(1, i).(held := map[0 := C0])
  }

  /** Replica i has left view 0 for view 4. */
  ghost predicate Waits(r: Replica, i: int) {
    && r.f == 1 && r.id == i && r.v == 4 && !r.installed && r.plog == map[] && r.clog == map[]
    && r.lastStable == 0 && r.lowBound == 0 && r.SlotsWellFormed()
  }

  /** Replicas 1 and 3 take checkpoint 0. */
  lemma Opening(w: Way) returns (tr: Trace, s: System)
    ensures Four(G, s) && Reaches(G, tr, w, s)
    ensures s.reps[1] == Begins(1) && s.reps[2] == InitReplica(1, 2) && s.reps[3] == Begins(3)
  {
    hide Reaches;
    tr, s := Start(1, G, w);
    tr, s := Go(G, tr, w, s, Checkpoint(1, 0, C0));
    tr, s := Go(G, tr, w, s, Checkpoint(3, 0, C0));
  }

  lemma BeginsReady(r: Replica, i: int, n: Seqno)
    requires r == Begins(i) || r == InitReplica(1, i)
    requires 0 < n <= MAX_OUT
    ensures Listens(r, i, 0, n) && n !in r.plog && n !in r.clog
  {
  }

  // ------------------------------------------------------------------
  // The recount by views
  // ------------------------------------------------------------------

  const VC0 := VC(4, 0, 0, [C0], [Record(0, 0, 7, true)])
  const VC1 := VC(4, 1, 0, [C0], [Record(-1, 0, 7, false)])
  const VC3 := VC(4, 3, 0, [C0], [Record(0, 0, 8, true)])

  /** The new view picks 7 for number 1, on the word of replica 0 that it prepared in view 0. */
  const RECOUNTED := NV(4, map[0 := VC0, 1 := VC1, 3 := VC3], 0, 2, map[0 := 0, 1 := 0])

  lemma RecountedAccepted()
    ensures WellFormedNV(1, RECOUNTED) && BackupAccepts(1, RECOUNTED) && PickedDigest(RECOUNTED, 1) == 7
    ensures !PickUnopposed(1, RECOUNTED, 1)
  {
    var vcs := RECOUNTED.vcs;
    assert EndingBelow(vcs, 2) == {0, 1, 3};
    assert Holders(vcs, 0, C0) == {0, 1, 3} && StableUpTo(vcs, 0) == {0, 1, 3};
    assert ProofSet(vcs, 1, 0, 7) == {0, 1};
    assert ViewsNotAbove(vcs, 1, 0) == {0, 1, 3};
    assert Lower(vcs, 1, 0, 7) == {0, 1};
  }

  /** Replica 1 prepared 7 in view 0 without completing it. */
  lemma Leaves1(r: Replica)
    requires OnlySlot(Begins(1), r, 1) && Listens(r, 1, 0, 1) && Holds(r, 1, 1, 7)
    ensures IsMyViewChange(r, 4, VC1) && Waits(ChangeView(r, 4), 1)
  {
  }

  /** Replica 3 completed 8. */
  lemma Leaves3(r: Replica)
    requires OnlySlot(Begins(3), r, 1) && Listens(r, 3, 0, 1) && HoldsPrepared(r, 3, 1, 8)
    ensures IsMyViewChange(r, 4, VC3) && Waits(ChangeView(r, 4), 3)
  {
  }

  /** A backup that installs the new view prepares 7. */
  lemma Installs(r: Replica, i: int)
    requires Waits(r, i) && (i == 1 || i == 3)
    ensures var (r', out) := ProcessNewView(r, RECOUNTED, 0, true);
            Listens(r', i, 4, 1) && Holds(r', i, 1, 7) && out == {Prepare(i, 4, 1, 7)}
  {
  }

  /** Replica 0 proposes 7 to replica 1 and 8 to the others: 2 commits 8, and 1 and 3 leave the view. */
  lemma TwoProposals(w: Way) returns (tr: Trace, s: System)
    ensures Four(G, s) && Reaches(G, tr, w, s)
    ensures s.reps[2].SlotsWellFormed() && Committed(s.reps[2], 1) == Some(8)
    ensures Waits(s.reps[1], 1) && Waits(s.reps[3], 3)
    ensures ViewChange(VC1) in s.msgs && ViewChange(VC3) in s.msgs
  {
    hide Reaches, InitReplica, Begins, Listens, Holds, HoldsPrepared, OnlySlot, Committed, IsMyViewChange, ChangeView, Waits;
    tr, s := Opening(w);
    BeginsReady(s.reps[1], 1, 1);
    BeginsReady(s.reps[2], 2, 1);
    BeginsReady(s.reps[3], 3, 1);
    tr, s := GoForge(G, tr, w, s, PrePrepare(0, 1, 7));
    tr, s := GoForge(G, tr, w, s, PrePrepare(0, 1, 8));
    tr, s := GoAccept(G, tr, w, s, 1, 0, 1, 7);
    tr, s := GoAccept(G, tr, w, s, 2, 0, 1, 8);
    var was := s.reps[3];
    tr, s := GoAccept(G, tr, w, s, 3, 0, 1, 8);
    var accepted := s.reps[3];
    tr, s := Round(G, tr, w, s, 2, 3, 0, 1, 8);
    SlotAgain(was, accepted, s.reps[3], 1);
    tr, s := GoLeave1(tr, w, s);
    tr, s := GoLeave3(tr, w, s);
  }

  lemma GoLeave1(tr: Trace, w: Way, s: System) returns (tr': Trace, s': System)
    requires Four(G, s) && Reaches(G, tr, w, s)
    requires var r := s.reps[1]; OnlySlot(Begins(1), r, 1) && Listens(r, 1, 0, 1) && Holds(r, 1, 1, 7)
    ensures Reaches(G, tr', w, s') && OnlyMoved(s, s', 1) && Waits(s'.reps[1], 1) && ViewChange(VC1) in s'.msgs
  {
    hide Reaches, IsMyViewChange, ChangeView, Waits, Holds, OnlySlot;
    Leaves1(s.reps[1]);
    tr', s' := Go(G, tr, w, s, MoveToView(1, 4, VC1));
  }

  lemma GoLeave3(tr: Trace, w: Way, s: System) returns (tr': Trace, s': System)
    requires Four(G, s) && Reaches(G, tr, w, s)
    requires var r := s.reps[3]; OnlySlot(Begins(3), r, 1) && Listens(r, 3, 0, 1) && HoldsPrepared(r, 3, 1, 8)
    ensures Reaches(G, tr', w, s') && OnlyMoved(s, s', 3) && Waits(s'.reps[3], 3) && ViewChange(VC3) in s'.msgs
  {
    hide Reaches, IsMyViewChange, ChangeView, Waits, HoldsPrepared, OnlySlot;
    Leaves3(s.reps[3]);
    tr', s' := Go(G, tr, w, s, MoveToView(3, 4, VC3));
  }

  lemma GoInstall(tr: Trace, s: System, i: int) returns (tr': Trace, s': System)
    requires Four(G, s) && Reaches(G, tr, Installing, s) && (i == 1 || i == 3) && Waits(s.reps[i], i)
    requires Received(s.msgs, RECOUNTED) && NewView(RECOUNTED) in s.msgs
    ensures Reaches(G, tr', Installing, s') && OnlyMoved(s, s', i) && Prepare(i, 4, 1, 7) in s'.msgs
    ensures Listens(s'.reps[i], i, 4, 1) && Holds(s'.reps[i], i, 1, 7)
  {
    hide Reaches, ProcessNewView, Holds, Listens, WellFormedNV, BackupAccepts, Received;
    Installs(s.reps[i], i);
    RecountedAccepted();
    tr', s' := Go(G, tr, Installing, s, Install(i, RECOUNTED, 0, true));
  }

  /**
   * Agreement fails if backups recount by views: in this run replicas 1 and 2
   * end with 7 and 8 committed at number 1.  No range is skipped in it, so by
   * CodeRunIsRun it is the install that breaks the rule.
   */
  lemma RecountDisagrees() returns (states: seq<System>, actions: seq<Action>)
    ensures G.Valid() && IsCodeRun(G, states, actions) && G.Correct(1) && G.Correct(2)
    ensures CommittedIn(states, |actions|, 1, 1, 7) && CommittedIn(states, |actions|, 2, 1, 8)
    ensures forall k :: 0 <= k < |actions| ==> !actions[k].Trim?
  {
    hide InitReplica, Listens, Holds, HoldsPrepared, OnlySlot, Committed, Waits, IsCodeRun;
    var tr, s := TwoProposals(Installing);
    tr, s := GoForge(G, tr, Installing, s, ViewChange(VC0));
    tr, s := GoForge(G, tr, Installing, s, NewView(RECOUNTED));
    assert Received(s.msgs, RECOUNTED);
    tr, s := GoInstall(tr, s, 1);
    tr, s := GoInstall(tr, s, 3);
    tr, s := Round(G, tr, Installing, s, 1, 3, 4, 1, 7);
    Ends(tr, Installing, s);
    return tr.states, tr.actions;
  }

  lemma Ends(tr: Trace, w: Way, s: System)
    requires Reaches(G, tr, w, s)
    ensures IsCodeRun(G, tr.states, tr.actions) && |tr.states| == |tr.actions| + 1 && tr.states[|tr.actions|] == s
    ensures forall k :: 0 <= k < |tr.actions| ==> Fits(tr.actions[k], w)
    ensures G.Valid()
  {
    hide CodeNext, Init;
  }

  // ------------------------------------------------------------------
  // The unguarded skip
  // ------------------------------------------------------------------

  const N: Seqno := 129

  const LATE0 := VC(4, 0, 0, [C0], [])
  const LATE1 := VC(4, 1, 0, [C0, C128], [])
  const LATE3 := VC(4, 3, 0, [C0, C128], LateRecords())

  /** What replica 3 reports: 8 prepared at 129. */
  function LateRecords(): (recs: seq<Record>)
    ensures |recs| == N && forall k :: 0 <= k < N ==> recs[k] == if k == N - 1 then Record(0, 0, 8, true) else EMPTY_RECORD
  {
    seq(N, k => if k == N - 1 then Record(0, 0, 8, true) else EMPTY_RECORD)
  }

  /** The new view ends before number 1, although a correct view-change refers to 129: its range is rejected. */
  const CUT := NV(4, map[0 := LATE0, 1 := LATE1, 3 := LATE3], 0, 1, map[0 := 0])

  lemma CutRejected()
    ensures WellFormedNV(1, CUT) && !RangeSelected(1, CUT.vcs, CUT.max) && forall ls :: EntersOnStable(1, CUT, ls)
  {
    var vcs := CUT.vcs;
    assert EndingBelow(vcs, 1) == {0, 1};
    assert Holders(vcs, 0, C0) == {0, 1, 3} && StableUpTo(vcs, 0) == {0, 1, 3};
  }

  /** Replica i has taken checkpoint 128 too. */
  function Later(i: int): Replica {
    InitReplica(1, i).(held := map[0 := C0, 128 := C128])
  }

  lemma LeavesLate1()
    ensures Later(1).SlotsWellFormed() && IsMyViewChange(Later(1), 4, LATE1) && Waits(ChangeView(Later(1), 4), 1)
  {
  }

  lemma LeavesLate3(r: Replica)
    requires OnlySlot(Later(3), r, N) && Listens(r, 3, 0, N) && HoldsPrepared(r, 3, N, 8)
    ensures IsMyViewChange(r, 4, LATE3) && Waits(ChangeView(r, 4), 3)
  {
  }

  /** Once 128 is stable the replica skips the new view, and then takes what is proposed for 129. */
  lemma Skips(r: Replica, i: int)
    requires Waits(r, i) && (i == 1 || i == 3)
    ensures var r1 := MarkStable(r, 128);
            && r1.f == 1 && r1.id == i && r1.v == 4 && !r1.installed && r1.lastStable == 128 && r1.SlotsWellFormed()
            && var r2 := TrimNewView(r1, true); Listens(r2, i, 4, N) && N !in r2.plog && N !in r2.clog
  {
  }

  /** A quorum took checkpoint 128. */
  ghost predicate Taken(msgs: set<Message>) {
    Checkpointed(0, 128, C128) in msgs && Checkpointed(1, 128, C128) in msgs && Checkpointed(3, 128, C128) in msgs
  }

  lemma TakenIsStable(msgs: set<Message>)
    requires Taken(msgs)
    ensures |Takers(1, msgs, 128, C128)| >= 2 * 1 + 1
  {
    SubsetSize({0, 1, 3}, Takers(1, msgs, 128, C128));
  }

  /** Replica 2 commits 8 at 129, and 1 and 3, which took checkpoint 128, leave the view. */
  lemma OneProposal(w: Way) returns (tr: Trace, s: System)
    ensures Four(G, s) && Reaches(G, tr, w, s)
    ensures s.reps[2].SlotsWellFormed() && Committed(s.reps[2], N) == Some(8)
    ensures Waits(s.reps[1], 1) && Waits(s.reps[3], 3)
    ensures ViewChange(LATE1) in s.msgs && ViewChange(LATE3) in s.msgs && Taken(s.msgs)
  {
    hide Reaches, InitReplica, Listens, Holds, HoldsPrepared, OnlySlot, Committed, IsMyViewChange, ChangeView, Waits;
    tr, s := Opening128(w);
    LaterReady(s.reps[2], 2);
    LaterReady(s.reps[3], 3);
    tr, s := GoForge(G, tr, w, s, PrePrepare(0, N, 8));
    tr, s := GoAccept(G, tr, w, s, 2, 0, N, 8);
    var was := s.reps[3];
    tr, s := GoAccept(G, tr, w, s, 3, 0, N, 8);
    var accepted := s.reps[3];
    tr, s := Round(G, tr, w, s, 2, 3, 0, N, 8);
    SlotAgain(was, accepted, s.reps[3], N);
    tr, s := GoLate1(tr, w, s);
    tr, s := GoLate3(tr, w, s);
  }

  lemma LaterReady(r: Replica, i: int)
    requires r == Later(i) || r == InitReplica(1, i)
    ensures Listens(r, i, 0, N) && N !in r.plog && N !in r.clog
  {
  }

  lemma LaterIs(i: int)
    ensures TakeCheckpoint(Begins(i), 128, C128) == (Later(i), {Checkpointed(i, 128, C128)})
    ensures Begins(i).SlotsWellFormed()
  {
  }

  lemma Opening128(w: Way) returns (tr: Trace, s: System)
    ensures Four(G, s) && Reaches(G, tr, w, s) && Taken(s.msgs)
    ensures s.reps[1] == Later(1) && s.reps[2] == InitReplica(1, 2) && s.reps[3] == Later(3)
  {
    hide Reaches, Begins, Later, InitReplica, TakeCheckpoint;
    LaterIs(1);
    LaterIs(3);
    tr, s := Opening(w);
    tr, s := Go(G, tr, w, s, Checkpoint(1, 128, C128));
    tr, s := Go(G, tr, w, s, Checkpoint(3, 128, C128));
    tr, s := GoForge(G, tr, w, s, Checkpointed(0, 128, C128));
  }

  lemma GoLate1(tr: Trace, w: Way, s: System) returns (tr': Trace, s': System)
    requires Four(G, s) && Reaches(G, tr, w, s) && s.reps[1] == Later(1)
    ensures Reaches(G, tr', w, s') && OnlyMoved(s, s', 1) && Waits(s'.reps[1], 1) && ViewChange(LATE1) in s'.msgs
  {
    hide Reaches, IsMyViewChange, ChangeView, Waits;
    LeavesLate1();
    tr', s' := Go(G, tr, w, s, MoveToView(1, 4, LATE1));
  }

  lemma GoLate3(tr: Trace, w: Way, s: System) returns (tr': Trace, s': System)
    requires Four(G, s) && Reaches(G, tr, w, s)
    requires var r := s.reps[3]; OnlySlot(Later(3), r, N) && Listens(r, 3, 0, N) && HoldsPrepared(r, 3, N, 8)
    ensures Reaches(G, tr', w, s') && OnlyMoved(s, s', 3) && Waits(s'.reps[3], 3) && ViewChange(LATE3) in s'.msgs
  {
    hide Reaches, IsMyViewChange, ChangeView, Waits, HoldsPrepared, OnlySlot;
    LeavesLate3(s.reps[3]);
    tr', s' := Go(G, tr, w, s, MoveToView(3, 4, LATE3));
  }

  /** Replica i waits for view 4, checkpoint 128 being stable. */
  ghost predicate Behind(r: Replica, i: int) {
    && r.f == 1 && r.id == i && r.v == 4 && !r.installed && r.lastStable == 128 && r.SlotsWellFormed()
    && var r' := TrimNewView(r, true); Listens(r', i, 4, N) && N !in r'.plog && N !in r'.clog
  }

  lemma GoStable(tr: Trace, s: System, i: int) returns (tr': Trace, s': System)
    requires Four(G, s) && Reaches(G, tr, Trimming, s) && (i == 1 || i == 3) && Waits(s.reps[i], i) && Taken(s.msgs)
    ensures Reaches(G, tr', Trimming, s') && OnlyMoved(s, s', i) && s'.msgs == s.msgs && Behind(s'.reps[i], i)
  {
    hide Reaches, MarkStable, TrimNewView, Listens, Takers, Taken;
    Skips(s.reps[i], i);
    TakenIsStable(s.msgs);
    tr', s' := Go(G, tr, Trimming, s, Stabilise(i, 128));
    assert s'.msgs == s.msgs;
  }

  /** Checkpoint 128 becomes stable at replica i, which enters the view on the strength of it. */
  lemma GoSkip(tr: Trace, s: System, i: int) returns (tr': Trace, s': System)
    requires Four(G, s) && Reaches(G, tr, Trimming, s) && (i == 1 || i == 3) && Waits(s.reps[i], i)
    requires Received(s.msgs, CUT) && NewView(CUT) in s.msgs && Taken(s.msgs)
    ensures Reaches(G, tr', Trimming, s') && OnlyMoved(s, s', i)
    ensures Listens(s'.reps[i], i, 4, N) && N !in s'.reps[i].plog && N !in s'.reps[i].clog
  {
    hide Reaches, TrimNewView, Listens, WellFormedNV, EntersOnStable, Received, Taken, Waits;
    CutRejected();
    var s1;
    tr', s1 := GoStable(tr, s, i);
    tr', s' := Go(G, tr', Trimming, s1, Trim(i, CUT, true));
  }

  lemma BothSkip() returns (tr: Trace, s: System)
    ensures Four(G, s) && Reaches(G, tr, Trimming, s)
    ensures s.reps[2].SlotsWellFormed() && Committed(s.reps[2], N) == Some(8)
    ensures Listens(s.reps[1], 1, 4, N) && N !in s.reps[1].plog && N !in s.reps[1].clog
    ensures Listens(s.reps[3], 3, 4, N) && N !in s.reps[3].plog && N !in s.reps[3].clog
  {
    hide Reaches, Listens, Committed, Waits, Taken;
    tr, s := OneProposal(Trimming);
    var was := s.msgs;
    tr, s := GoForge(G, tr, Trimming, s, ViewChange(LATE0));
    tr, s := GoForge(G, tr, Trimming, s, NewView(CUT));
    assert Received(s.msgs, CUT);
    TakenStays(was, s.msgs);
    tr, s := GoSkip(tr, s, 1);
    TakenStays(was, s.msgs);
    tr, s := GoSkip(tr, s, 3);
  }

  lemma TakenStays(msgs: set<Message>, msgs': set<Message>)
    requires Taken(msgs) && msgs <= msgs'
    ensures Taken(msgs')
  {
  }

  /**
   * Agreement fails too if backups skip a range that was rejected: replicas 1
   * and 2 end with 7 and 8 committed at number 129, and nothing is installed.
   * The 128 batches before, which make the view-changes longer, are left out.
   */
  lemma SkipDisagrees() returns (states: seq<System>, actions: seq<Action>)
    ensures G.Valid() && IsCodeRun(G, states, actions) && G.Correct(1) && G.Correct(2)
    ensures CommittedIn(states, |actions|, 1, N, 7) && CommittedIn(states, |actions|, 2, N, 8)
    ensures forall k :: 0 <= k < |actions| ==> !actions[k].Install?
  {
    hide InitReplica, Listens, Holds, HoldsPrepared, OnlySlot, Committed, Waits, IsCodeRun;
    var tr, s := BothSkip();
    tr, s := GoForge(G, tr, Trimming, s, PrePrepare(4, N, 7));
    tr, s := GoAccept(G, tr, Trimming, s, 1, 4, N, 7);
    tr, s := GoAccept(G, tr, Trimming, s, 3, 4, N, 7);
    tr, s := Round(G, tr, Trimming, s, 1, 3, 4, N, 7);
    Ends(tr, Trimming, s);
    return tr.states, tr.actions;
  }
}
