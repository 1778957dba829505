/**
 * The replica group as a state machine: n = 3f + 1 replicas of which those in
 * "faulty" may send anything under their own name, and the set of all
 * messages sent so far.  A correct replica takes one handler step at a time.
 */
module Protocol {
  import opened Types
  import opened Quorums
  import opened ViewChangeState
  import opened ReplicaState

  datatype Group = Group(f: nat, faulty: set<int>)
  {
    ghost predicate Valid() {
      f >= 1 && faulty <= Replicas(f) && |faulty| <= f
    }

    predicate Correct(id: int) {
      0 <= id < 3 * f + 1 && id !in faulty
    }
  }

  datatype System = System(reps: seq<Replica>, msgs: set<Message>)

  ghost predicate Init(g: Group, s: System) {
    && |s.reps| == 3 * g.f + 1
    && (forall i :: 0 <= i < |s.reps| ==> s.reps[i] == InitReplica(g.f, i))
    && s.msgs == {}
  }

  /** What a correct replica, or the faulty ones together, may do next. */
  datatype Action =
    | Forge(m: Message)
    | Propose(i: int, d: Digest)
    | RecvPrePrepare(i: int, view: View, n: Seqno, d: Digest, verified: bool)
    | RecvPrepare(i: int, id: int, view: View, n: Seqno, d: Digest)
    | RecvCommit(i: int, id: int, view: View, n: Seqno)
    | MoveToView(i: int, w: View, vc: VC)
    | Install(i: int, nv: NV, ms: Seqno, hasState: bool)
    | Trim(i: int, nv: NV, hasState: bool)
    | Stabilise(i: int, n: Seqno)
    | FetchState(i: int, c: Seqno)
    | Checkpoint(i: int, n: Seqno, d: Digest)

  /** The replica that takes the step; meaningless for Forge. */
  function Actor(a: Action): int {
    match a
    case Forge(_) => -1
    case Propose(i, _) => i
    case RecvPrePrepare(i, _, _, _, _) => i
    case RecvPrepare(i, _, _, _, _) => i
    case RecvCommit(i, _, _, _) => i
    case MoveToView(i, _, _) => i
    case Install(i, _, _, _) => i
    case Trim(i, _, _) => i
    case Stabilise(i, _) => i
    case FetchState(i, _) => i
    case Checkpoint(i, _, _) => i
  }

  /** Every view-change that nv refers to was sent by its author. */
  ghost predicate Received(msgs: set<Message>, nv: NV) {
    forall i :: i in nv.vcs ==> ViewChange(nv.vcs[i]) in msgs
  }

  /** When a correct replica in state r may take action a. */
  ghost predicate Enabled(msgs: set<Message>, r: Replica, a: Action)
    requires r.SlotsWellFormed()
  {
    match a
    case Forge(_) => false
    case Propose(_, d) => CanPropose(r) && d != NULL_DIGEST
    case RecvPrePrepare(_, view, n, d, _) =>
      // A replica does not accept its own messages back; digests are never null.
      PrePrepare(view, n, d) in msgs && d != NULL_DIGEST && Primary(r.f, view) != r.id
    case RecvPrepare(_, id, view, n, d) => Prepare(id, view, n, d) in msgs && id != r.id
    case RecvCommit(_, id, view, n) => Commit(id, view, n) in msgs && id != r.id
    case MoveToView(_, w, vc) => w > r.v && IsMyViewChange(r, w, vc)
    case Install(_, nv, ms, _) =>
      && nv.view == r.v && !r.installed
      && ValidNewView(r.f, nv) && Received(msgs, nv)
      && (Primary(r.f, r.v) != r.id ==> NewView(nv) in msgs)
      && ms <= nv.min
      && nv.max - 1 <= Max(r.lastStable, ms) + MAX_OUT
    case Trim(_, nv, _) =>
      && nv.view == r.v && !r.installed && Primary(r.f, r.v) != r.id
      && ValidRange(r.f, nv) && Received(msgs, nv) && NewView(nv) in msgs
      && nv.max <= r.lastStable
    case Stabilise(_, n) => n > r.lastStable
    case FetchState(_, _) => true
    case Checkpoint(_, _, d) => d != NULL_DIGEST
  }

  /** The state of the replica after the action and the messages it sends. */
  function Effect(r: Replica, a: Action): (Replica, set<Message>)
    requires r.SlotsWellFormed() && (a.Stabilise? ==> a.n > r.lastStable)
  {
    match a
    case Forge(_) => (r, {})
    case Propose(_, d) => SendPrePrepare(r, d)
    case RecvPrePrepare(_, view, n, d, verified) => HandlePrePrepare(r, view, n, d, verified)
    case RecvPrepare(_, id, view, n, d) => HandlePrepare(r, id, view, n, d)
    case RecvCommit(_, id, view, n) => (HandleCommit(r, id, view, n), {})
    case MoveToView(_, w, vc) => (ChangeView(r, w), {ViewChange(vc)})
    case Install(_, nv, ms, hasState) => ProcessNewView(r, nv, ms, hasState)
    case Trim(_, _, hasState) => (TrimNewView(r, hasState), {})
    case Stabilise(_, n) => (MarkStable(r, n), {})
    case FetchState(_, c) => (NewState(r, c), {})
    case Checkpoint(_, n, d) => TakeCheckpoint(r, n, d)
  }

  ghost predicate Next(g: Group, s: System, a: Action, s': System) {
    if a.Forge? then
      Sender(g.f, a.m) in g.faulty && s' == s.(msgs := s.msgs + {a.m})
    else
      var i := Actor(a);
      && g.Correct(i) && i < |s.reps|
      && s.reps[i].SlotsWellFormed()
      && Enabled(s.msgs, s.reps[i], a)
      && var (r, out) := Effect(s.reps[i], a);
         s' == System(s.reps[i := r], s.msgs + out)
  }

  /** A run: states and the actions between them. */
  ghost predicate IsRun(g: Group, states: seq<System>, actions: seq<Action>) {
    && |states| == |actions| + 1
    && Init(g, states[0])
    && forall k :: 0 <= k < |actions| ==> Next(g, states[k], actions[k], states[k + 1])
  }
}
