/**
 * A run in which a request commits although one replica is faulty: what module Agreement says is about runs that exist.
 */
module ExampleRun {
  import opened Wrappers
  import opened Types
  import opened CertificateState
  import PC = PreparedCertState
  import opened ReplicaState
  import opened Protocol
  import opened Agreement
  import opened CodeRuns
  import opened RunSteps

  const D: Digest := 7

  /** The primary proposes, and prepares from replicas 1 and 3 make its certificate complete. */
  ghost predicate PrimaryCommits(r: Replica) {
    var (r1, out1) := SendPrePrepare(r, D);
    && r.SlotsWellFormed() && CanPropose(r) && r1.SlotsWellFormed() && out1 == {PrePrepare(0, 1, D)} && r.id == r1.id == 0
    && var (r2, out2) := HandlePrepare(r1, 1, 0, 1, D);
       && r2.SlotsWellFormed() && out2 == {} && r2.id == 0
       && var (r3, out3) := HandlePrepare(r2, 3, 0, 1, D);
          r3.SlotsWellFormed() && out3 == {Commit(0, 0, 1)}
  }

  lemma PrimarySteps()
    ensures PrimaryCommits(InitReplica(1, 0))
  {
  }

  /** Replica 1 accepts the pre-prepare, and messages of replicas 0 and 3 do the rest. */
  ghost predicate BackupPrepares(r: Replica) {
    && r.SlotsWellFormed() && r.id == 1
    && var (r1, out1) := HandlePrePrepare(r, 0, 1, D, true);
       && r1.SlotsWellFormed() && out1 == {Prepare(1, 0, 1, D)} && r1.id == 1
       && var (r2, out2) := HandlePrepare(r1, 3, 0, 1, D);
          r2.SlotsWellFormed() && out2 == {Commit(1, 0, 1)} && BackupCommits(r2)
  }

  ghost predicate BackupCommits(r: Replica)
    requires r.SlotsWellFormed()
  {
    var r1 := HandleCommit(r, 0, 0, 1);
    && r1.SlotsWellFormed() && r.id == r1.id == 1
    && var r2 := HandleCommit(r1, 3, 0, 1);
       r2.SlotsWellFormed() && Committed(r2, 1) == Some(D)
  }

  lemma BackupSteps()
    ensures BackupPrepares(InitReplica(1, 1))
  {
    hide BackupCommits;
    BackupTakesProposal();
    var r := HandlePrePrepare(InitReplica(1, 1), 0, 1, D, true).0;
    BackupCompletes(r);
    BackupEnds(HandlePrepare(r, 3, 0, 1, D).0);
  }

  ghost predicate Accepted(r: Replica) {
    && r.SlotsWellFormed() && r.f == 1 && r.id == 1 && r.v == 0 && r.lastStable == 0 && r.lowBound == 0
    && r.PSlot(1) == PC.PCert(Some(D), AddMine(EmptyCert(1, 1, 2), Msg(1, D, true, true)).0, false)
    && 1 !in r.clog
  }

  lemma BackupTakesProposal()
    ensures var (r, out) := HandlePrePrepare(InitReplica(1, 1), 0, 1, D, true);
            Accepted(r) && out == {Prepare(1, 0, 1, D)}
  {
  }

  lemma BackupCompletes(r: Replica)
    requires Accepted(r)
    ensures var (r', out) := HandlePrepare(r, 3, 0, 1, D);
            && r'.SlotsWellFormed() && out == {Commit(1, 0, 1)}
            && r'.f == 1 && r'.id == 1 && r'.v == 0 && r'.lastStable == 0 && r'.lowBound == 0
            && r'.PSlot(1).IsComplete() && r'.PSlot(1).pp == Some(D)
            && r'.CSlot(1) == AddMine(EmptyCert(1, 1, 3), Msg(1, (), true, true)).0
  {
  }

  lemma BackupEnds(r: Replica)
    requires r.SlotsWellFormed() && r.f == 1 && r.id == 1 && r.v == 0 && r.lastStable == 0 && r.lowBound == 0
    requires r.PSlot(1).IsComplete() && r.PSlot(1).pp == Some(D)
    requires r.CSlot(1) == AddMine(EmptyCert(1, 1, 3), Msg(1, (), true, true)).0
    ensures BackupCommits(r)
  {
  }

  /** Until the primary sent its commit. */
  lemma PrimaryRun(g: Group) returns (tr: Trace, s: System)
    requires g == Group(1, {3})
    ensures Reaches(g, tr, Plainly, s) && |s.reps| == 4
    ensures s.reps[1] == HandlePrePrepare(InitReplica(1, 1), 0, 1, D, true).0
    ensures s.msgs >= {Prepare(3, 0, 1, D), Commit(0, 0, 1)}
  {
    hide Reaches, InitReplica, SendPrePrepare, HandlePrePrepare, HandlePrepare, HandleCommit, Committed, CanPropose,
         BackupCommits;
    PrimarySteps();
    BackupSteps();
    tr, s := Start(1, g, Plainly);
    tr, s := Go(g, tr, Plainly, s, Propose(0, D));
    Backup(s.reps[1]);
    tr, s := Go(g, tr, Plainly, s, RecvPrePrepare(1, 0, 1, D, true));
    tr, s := Go(g, tr, Plainly, s, RecvPrepare(0, 1, 0, 1, D));
    tr, s := GoForge(g, tr, Plainly, s, Prepare(3, 0, 1, D));
    tr, s := Go(g, tr, Plainly, s, RecvPrepare(0, 3, 0, 1, D));
  }

  lemma Backup(r: Replica)
    requires r == InitReplica(1, 1)
    ensures r.id == 1 && r.f == 1
  {
  }

  /** Request D commits at replica 1 in a run of four replicas of which replica 3 is faulty. */
  lemma CommitHappens() returns (g: Group, states: seq<System>, actions: seq<Action>)
    ensures g.Valid() && g.faulty == {3} && IsRun(g, states, actions)
    ensures CommittedIn(states, |actions|, 1, 1, D)
  {
    hide InitReplica, SendPrePrepare, HandlePrePrepare, HandlePrepare, HandleCommit, Committed, CanPropose, Reaches, IsRun;
    PrimarySteps();
    BackupSteps();
    BackupTakesProposal();
    g := Group(1, {3});
    var tr, s := PrimaryRun(g);
    tr, s := Go(g, tr, Plainly, s, RecvPrepare(1, 3, 0, 1, D));
    tr, s := GoForge(g, tr, Plainly, s, Commit(3, 0, 1));
    tr, s := Go(g, tr, Plainly, s, RecvCommit(1, 0, 0, 1));
    tr, s := Go(g, tr, Plainly, s, RecvCommit(1, 3, 0, 1));
    PlainIsRun(g, tr, s);
    return g, tr.states, tr.actions;
  }

  /** Without installs and skips the guards of the code are those of the protocol. */
  lemma PlainIsRun(g: Group, tr: Trace, s: System)
    requires Reaches(g, tr, Plainly, s)
    ensures IsRun(g, tr.states, tr.actions) && |tr.states| == |tr.actions| + 1 && tr.states[|tr.actions|] == s
  {
    hide CodeNext, Init, IsRun;
    CodeRunIsRun(g, tr.states, tr.actions);
  }
}
