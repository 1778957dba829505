/**
 * Building runs of a group of four replicas, of which replica 0 is faulty,
 * step by step on the guards of the code.
 */
module RunSteps {
  import opened Wrappers
  import opened Types
  import opened CertificateState
  import PC = PreparedCertState
  import opened ReplicaState
  import opened Protocol
  import opened CodeRuns

  /** Which of the two steps whose guards are looser than the rule a run may take. */
  datatype Way = Plainly | Installing | Trimming

  predicate Fits(a: Action, w: Way) {
    (a.Install? ==> w == Installing) && (a.Trim? ==> w == Trimming)
  }

  datatype Trace = Trace(states: seq<System>, actions: seq<Action>)

  /** tr is a run that ends in state s. */
  ghost predicate Reaches(g: Group, tr: Trace, w: Way, s: System) {
    && IsCodeRun(g, tr.states, tr.actions) && tr.states[|tr.actions|] == s
    && forall k :: 0 <= k < |tr.actions| ==> Fits(tr.actions[k], w)
  }

  lemma Extend(g: Group, tr: Trace, w: Way, s: System, a: Action, s': System) returns (tr': Trace)
    requires Reaches(g, tr, w, s) && CodeNext(g, s, a, s') && Fits(a, w)
    ensures Reaches(g, tr', w, s')
  {
    hide CodeNext, Init, Fits;
    tr' := Trace(tr.states + [s'], tr.actions + [a]);
    forall k | 0 <= k < |tr'.actions| ensures CodeNext(g, tr'.states[k], tr'.actions[k], tr'.states[k + 1]) && Fits(tr'.actions[k], w) {
      if k < |tr.actions| {
        assert tr'.states[k] == tr.states[k] && tr'.states[k + 1] == tr.states[k + 1] && tr'.actions[k] == tr.actions[k];
        assert CodeNext(g, tr.states[k], tr.actions[k], tr.states[k + 1]);
      }
    }
  }

  ghost predicate CanStep(g: Group, s: System, a: Action) {
    && !a.Forge? && g.Correct(Actor(a)) && Actor(a) < |s.reps|
    && s.reps[Actor(a)].SlotsWellFormed() && CodeEnabled(s.msgs, s.reps[Actor(a)], a)
    && (a.Stabilise? ==> a.n > s.reps[Actor(a)].lastStable)
  }

  ghost function After(g: Group, s: System, a: Action): System
    requires CanStep(g, s, a)
  {
    var (r, out) := Effect(s.reps[Actor(a)], a);
    System(s.reps[Actor(a) := r], s.msgs + out)
  }

  lemma Go(g: Group, tr: Trace, w: Way, s: System, a: Action) returns (tr': Trace, s': System)
    requires Reaches(g, tr, w, s) && CanStep(g, s, a) && Fits(a, w)
    ensures s' == After(g, s, a) && Reaches(g, tr', w, s')
  {
    hide Reaches, Effect, CodeEnabled;
    s' := After(g, s, a);
    tr' := Extend(g, tr, w, s, a, s');
  }

  lemma GoForge(g: Group, tr: Trace, w: Way, s: System, m: Message) returns (tr': Trace, s': System)
    requires Reaches(g, tr, w, s) && Sender(g.f, m) in g.faulty
    ensures s' == s.(msgs := s.msgs + {m}) && Reaches(g, tr', w, s')
  {
    hide Reaches, Effect, CodeEnabled;
    s' := s.(msgs := s.msgs + {m});
    tr' := Extend(g, tr, w, s, Forge(m), s');
  }

  lemma Start(f: nat, g: Group, w: Way) returns (tr: Trace, s: System)
    requires g.f == f == 1
    ensures s.reps == [InitReplica(1, 0), InitReplica(1, 1), InitReplica(1, 2), InitReplica(1, 3)] && s.msgs == {}
    ensures Reaches(g, tr, w, s)
  {
    s := System([InitReplica(1, 0), InitReplica(1, 1), InitReplica(1, 2), InitReplica(1, 3)], {});
    tr := Trace([s], []);
  }

  // ------------------------------------------------------------------
  // One request at one replica
  // ------------------------------------------------------------------

  /** Replica i of four is in view v, and takes messages for n there. */
  ghost predicate Listens(r: Replica, i: int, v: View, n: Seqno) {
    && r.f == 1 && r.id == i && r.v == v && r.SlotsWellFormed()
    && r.HasNewView() && r.Accepts(v, n)
  }

  /** Only slot n of the logs may differ. */
  ghost predicate OnlySlot(r: Replica, r': Replica, n: Seqno) {
    && r' == r.(plog := r'.plog, clog := r'.clog)
    && forall k :: k != n ==> r'.PSlot(k) == r.PSlot(k) && r'.CSlot(k) == r.CSlot(k)
  }

  /** It holds a pre-prepare for d at n, and its own prepare only. */
  ghost predicate Holds(r: Replica, i: int, n: Seqno, d: Digest) {
    && r.PSlot(n) == PC.PCert(Some(d), AddMine(EmptyCert(1, i, 2), Msg(i, d, true, true)).0, false)
    && n !in r.clog
  }

  /** It holds d prepared at n, and its own commit only. */
  ghost predicate HoldsPrepared(r: Replica, i: int, n: Seqno, d: Digest)
    requires r.SlotsWellFormed()
  {
    && r.PSlot(n).IsComplete() && r.PSlot(n).pp == Some(d)
    && r.CSlot(n) == AddMine(EmptyCert(1, i, 3), Msg(i, (), true, true)).0
  }

  lemma AcceptStep(r: Replica, i: int, v: View, n: Seqno, d: Digest)
    requires Listens(r, i, v, n) && n !in r.plog && n !in r.clog
    ensures var (r', out) := HandlePrePrepare(r, v, n, d, true);
            && Listens(r', i, v, n) && OnlySlot(r, r', n) && Holds(r', i, n, d) && out == {Prepare(i, v, n, d)}
  {
  }

  lemma CompleteStep(r: Replica, i: int, v: View, n: Seqno, d: Digest, j: int)
    requires Listens(r, i, v, n) && Holds(r, i, n, d)
    requires 0 <= j < 4 && j != i && j != Primary(1, v)
    ensures var (r', out) := HandlePrepare(r, j, v, n, d);
            && Listens(r', i, v, n) && OnlySlot(r, r', n) && HoldsPrepared(r', i, n, d) && out == {Commit(i, v, n)}
  {
  }

  lemma CommitStep(r: Replica, i: int, v: View, n: Seqno, d: Digest, j: int, k: int)
    requires Listens(r, i, v, n) && HoldsPrepared(r, i, n, d)
    requires 0 <= j < 4 && 0 <= k < 4 && j != i && k != i && j != k
    ensures var r1 := HandleCommit(r, j, v, n);
            && Listens(r1, i, v, n)
            && var r2 := HandleCommit(r1, k, v, n);
               Listens(r2, i, v, n) && OnlySlot(r, r2, n) && Committed(r2, n) == Some(d)
  {
  }

  // ------------------------------------------------------------------
  // One request in the group
  // ------------------------------------------------------------------

  /** Only replica i moved, and no message was lost. */
  ghost predicate OnlyMoved(s: System, s': System, i: int) {
    && |s'.reps| == |s.reps| && 0 <= i < |s.reps|
    && s'.reps == s.reps[i := s'.reps[i]] && s.msgs <= s'.msgs
  }

  ghost predicate Four(g: Group, s: System) {
    g == Group(1, {0}) && |s.reps| == 4
  }

  /** Replica i accepts a pre-prepare. */
  lemma GoAccept(g: Group, tr: Trace, w: Way, s: System, i: int, v: View, n: Seqno, d: Digest) returns (tr': Trace, s': System)
    requires Four(g, s) && Reaches(g, tr, w, s) && 1 <= i < 4 && Primary(1, v) == 0
    requires Listens(s.reps[i], i, v, n) && n !in s.reps[i].plog && n !in s.reps[i].clog
    requires PrePrepare(v, n, d) in s.msgs && d != NULL_DIGEST
    ensures Reaches(g, tr', w, s') && OnlyMoved(s, s', i) && Prepare(i, v, n, d) in s'.msgs
    ensures Listens(s'.reps[i], i, v, n) && OnlySlot(s.reps[i], s'.reps[i], n) && Holds(s'.reps[i], i, n, d)
  {
    hide Reaches, HandlePrePrepare, Holds, OnlySlot;
    AcceptStep(s.reps[i], i, v, n, d);
    tr', s' := Go(g, tr, w, s, RecvPrePrepare(i, v, n, d, true));
  }

  /** Replica i gets the prepare of replica j. */
  lemma GoComplete(g: Group, tr: Trace, w: Way, s: System, i: int, j: int, v: View, n: Seqno, d: Digest)
    returns (tr': Trace, s': System)
    requires Four(g, s) && Reaches(g, tr, w, s) && 1 <= i < 4 && 1 <= j < 4 && i != j && Primary(1, v) == 0
    requires Listens(s.reps[i], i, v, n) && Holds(s.reps[i], i, n, d) && Prepare(j, v, n, d) in s.msgs
    ensures Reaches(g, tr', w, s') && OnlyMoved(s, s', i) && Commit(i, v, n) in s'.msgs
    ensures Listens(s'.reps[i], i, v, n) && OnlySlot(s.reps[i], s'.reps[i], n) && HoldsPrepared(s'.reps[i], i, n, d)
  {
    hide Reaches, HandlePrepare, Holds, OnlySlot, HoldsPrepared;
    CompleteStep(s.reps[i], i, v, n, d, j);
    tr', s' := Go(g, tr, w, s, RecvPrepare(i, j, v, n, d));
  }

  /** Replica i gets the commits of replica j and of replica 0. */
  lemma GoCommit(g: Group, tr: Trace, w: Way, s: System, i: int, j: int, v: View, n: Seqno, d: Digest)
    returns (tr': Trace, s': System)
    requires Four(g, s) && Reaches(g, tr, w, s) && 1 <= i < 4 && 1 <= j < 4 && i != j
    requires Listens(s.reps[i], i, v, n) && HoldsPrepared(s.reps[i], i, n, d) && Commit(j, v, n) in s.msgs
    ensures Reaches(g, tr', w, s') && OnlyMoved(s, s', i)
    ensures Listens(s'.reps[i], i, v, n) && OnlySlot(s.reps[i], s'.reps[i], n) && Committed(s'.reps[i], n) == Some(d)
  {
    hide Reaches, HandleCommit, HoldsPrepared, OnlySlot, Committed;
    CommitStep(s.reps[i], i, v, n, d, j, 0);
    var s1, s2;
    tr', s1 := GoForge(g, tr, w, s, Commit(0, v, n));
    tr', s2 := Go(g, tr', w, s1, RecvCommit(i, j, v, n));
    tr', s' := Go(g, tr', w, s2, RecvCommit(i, 0, v, n));
  }

  /** Replicas i and j hold d at n; then i commits it, and j holds it prepared. */
  lemma Round(g: Group, tr: Trace, w: Way, s: System, i: int, j: int, v: View, n: Seqno, d: Digest)
    returns (tr': Trace, s': System)
    requires Four(g, s) && Reaches(g, tr, w, s) && 1 <= i < 4 && 1 <= j < 4 && i != j && Primary(1, v) == 0
    requires Listens(s.reps[i], i, v, n) && Holds(s.reps[i], i, n, d) && Prepare(i, v, n, d) in s.msgs
    requires Listens(s.reps[j], j, v, n) && Holds(s.reps[j], j, n, d) && Prepare(j, v, n, d) in s.msgs
    ensures Four(g, s') && Reaches(g, tr', w, s') && s.msgs <= s'.msgs
    ensures s'.reps == s.reps[i := s'.reps[i]][j := s'.reps[j]]
    ensures OnlySlot(s.reps[i], s'.reps[i], n) && OnlySlot(s.reps[j], s'.reps[j], n)
    ensures s'.reps[i].SlotsWellFormed() && Committed(s'.reps[i], n) == Some(d)
    ensures Listens(s'.reps[j], j, v, n) && HoldsPrepared(s'.reps[j], j, n, d)
  {
    hide Reaches, Holds, HoldsPrepared, OnlySlot, Committed;
    var s1, s2;
    tr', s1 := GoComplete(g, tr, w, s, i, j, v, n, d);
    tr', s2 := GoComplete(g, tr', w, s1, j, i, v, n, d);
    tr', s' := GoCommit(g, tr', w, s2, i, j, v, n, d);
    SlotAgain(s.reps[i], s1.reps[i], s'.reps[i], n);
  }

  lemma SlotAgain(r: Replica, r1: Replica, r2: Replica, n: Seqno)
    requires OnlySlot(r, r1, n) && OnlySlot(r1, r2, n)
    ensures OnlySlot(r, r2, n)
  {
  }
}
