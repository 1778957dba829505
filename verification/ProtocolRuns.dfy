/** Every reachable state of the group satisfies the invariant. */
module ProtocolRuns {
  import opened Types
  import opened CertificateState
  import opened OldRequestState
  import opened ReplicaState
  import opened Protocol
  import opened ProtocolInvariant
  import opened ProtocolFrames
  import opened ProtocolSteps
  import opened ProtocolViewSteps
  import opened ProtocolViewChange

  lemma InitHistory(g: Group, id: int, n: Seqno)
    ensures HasHistory(g, {}, id, 0, n, EMPTY_RECORD)
  {
    assert TrueHistory(g, {}, id, 0, n, []);
    assert Replay([]) == EMPTY_RECORD;
  }

  lemma InitReplicaInv(g: Group, id: int)
    ensures ReplicaInv(g, {}, id, InitReplica(g.f, id))
  {
    hide HasHistory, CertOK, PPOK, CommitCertOK;
    var r := InitReplica(g.f, id);
    forall n | n > r.lastStable ensures HasHistory(g, {}, id, r.v, n, RecAt(r.oplog, n)) {
      InitHistory(g, id, n);
    }
  }

  lemma InitKeeps(g: Group, s: System)
    requires Init(g, s)
    ensures SystemInv(g, s)
  {
    hide ReplicaInv, InitReplica;
    forall i | g.Correct(i) ensures ReplicaInv(g, s.msgs, i, s.reps[i]) {
      InitReplicaInv(g, i);
    }
  }

  /** A correct replica speaks only for itself. */
  lemma SpeaksForItself(g: Group, r: Replica, a: Action, m: Message)
    requires r.SlotsWellFormed() && r.f == g.f && (a.Stabilise? ==> a.n > r.lastStable)
    requires (a.Propose? ==> CanPropose(r)) && (a.MoveToView? ==> a.vc.id == r.id)
    requires a.Install? ==> a.nv.view == r.v
    requires m in Effect(r, a).1
    ensures Sender(g.f, m) == r.id
  {
    hide AddMine, Add, PickedDigest, InstallSlot, UpdatedLog;
    if a.Install? {
      InstallMessagesAre(r, a.nv, Max(a.nv.min, r.lastStable), m);
    }
  }

  /** If the primary of a view announced nv and is correct, it stands behind every pick of nv. */
  lemma PicksAnnounced(g: Group, s: System, nv: NV)
    requires g.Valid() && SystemInv(g, s) && NewView(nv) in s.msgs
    ensures forall n :: nv.min < n < nv.max ==>
      Primary(g.f, nv.view) in g.faulty || PrePrepare(nv.view, n, PickedDigest(nv, n)) in s.msgs
  {
    hide ReplicaInv, PickedDigest;
    var p := Primary(g.f, nv.view);
    if g.Correct(p) {
      AnnouncedFacts(g, s.msgs, p, s.reps[p]);
    }
  }

  lemma AnnouncedFacts(g: Group, msgs: set<Message>, id: int, r: Replica)
    requires ReplicaInv(g, msgs, id, r)
    ensures SentNewViews(g.f, msgs, id)
  {
  }

  lemma TrimActionKeeps(g: Group, msgs: set<Message>, id: int, r: Replica, nv: NV, hasState: bool)
    requires g.Valid() && g.Correct(id) && r.SlotsWellFormed() && ReplicaInv(g, msgs, id, r)
    requires Enabled(msgs, r, Trim(id, nv, hasState))
    ensures ReplicaInv(g, msgs, id, TrimNewView(r, hasState))
  {
    hide ReplicaInv;
    InvCore(g, msgs, id, r);
    assert GoodNewView(g, msgs, r.v, nv);
    TrimKeeps(g, msgs, id, r, nv, hasState);
  }

  /** The replica that takes the step keeps its part. */
  lemma ActorKeeps(g: Group, s: System, a: Action)
    requires g.Valid() && SystemInv(g, s) && !a.Forge? && g.Correct(Actor(a))
    requires var r := s.reps[Actor(a)]; r.SlotsWellFormed() && Enabled(s.msgs, r, a)
    ensures var (r', out) := Effect(s.reps[Actor(a)], a); ReplicaInv(g, s.msgs + out, Actor(a), r')
  {
    hide ReplicaInv, CanPropose, IsMyViewChange, ValidNewView, ValidRange, PickedDigest, Received, HandlePrePrepare, HandlePrepare,
         HandleCommit, SendPrePrepare, ProcessNewView, MarkStable, NewState, TakeCheckpoint, ChangeView, TrimNewView;
    var i, r, msgs := Actor(a), s.reps[Actor(a)], s.msgs;
    assert ReplicaInv(g, msgs, i, r);
    InvCore(g, msgs, i, r);
    assert msgs + {} == msgs;
    match a
    case Propose(_, d) => ProposeKeeps(g, msgs, i, r, d);
    case RecvPrePrepare(_, view, n, d, verified) => HandlePrePrepareKeeps(g, msgs, i, r, view, n, d, verified);
    case RecvPrepare(_, id, view, n, d) => HandlePrepareKeeps(g, msgs, i, r, id, view, n, d);
    case RecvCommit(_, id, view, n) => HandleCommitKeeps(g, msgs, i, r, id, view, n);
    case MoveToView(_, w, vc) => LeaveKeeps(g, msgs, i, r, w, vc);
    case Install(_, nv, ms, hasState) =>
      if Primary(g.f, r.v) != i {
        PicksAnnounced(g, s, nv);
      }
      InstallKeeps(g, msgs, i, r, nv, ms, hasState);
    case Trim(_, nv, hasState) => TrimActionKeeps(g, msgs, i, r, nv, hasState);
    case Stabilise(_, n) => StableKeeps(g, msgs, i, r, n);
    case FetchState(_, c) => NewStateKeeps(g, msgs, i, r, c);
    case Checkpoint(_, n, d) => TakeCheckpointKeeps(g, msgs, i, r, n, d);
  }

  lemma OthersSilent(g: Group, s: System, a: Action, j: int)
    requires g.Valid() && SystemInv(g, s) && !a.Forge? && g.Correct(Actor(a)) && j != Actor(a)
    requires var r := s.reps[Actor(a)]; r.SlotsWellFormed() && Enabled(s.msgs, r, a)
    ensures Silent(g.f, s.msgs, s.msgs + Effect(s.reps[Actor(a)], a).1, j)
  {
    hide ReplicaInv, CanPropose, ValidNewView, ValidRange, Received, Effect, UpdatedLog;
    var i, r := Actor(a), s.reps[Actor(a)];
    assert ReplicaInv(g, s.msgs, i, r);
    InvCore(g, s.msgs, i, r);
    forall m | m in Effect(r, a).1 ensures Sender(g.f, m) != j {
      SpeaksForItself(g, r, a, m);
    }
  }

  lemma NextKeeps(g: Group, s: System, a: Action, s': System)
    requires g.Valid() && SystemInv(g, s) && Next(g, s, a, s')
    ensures SystemInv(g, s')
  {
    hide ReplicaInv, Effect, Enabled, Silent;
    if a.Forge? {
      forall j | g.Correct(j) ensures ReplicaInv(g, s'.msgs, j, s'.reps[j]) {
        ForgedSilent(g, s.msgs, a.m, j);
        SilentKeeps(g, s.msgs, s'.msgs, j, s.reps[j]);
      }
    } else {
      var i := Actor(a);
      ActorKeeps(g, s, a);
      forall j | g.Correct(j) ensures ReplicaInv(g, s'.msgs, j, s'.reps[j]) {
        if j != i {
          OthersSilent(g, s, a, j);
          SilentKeeps(g, s.msgs, s'.msgs, j, s.reps[j]);
        }
      }
    }
  }

  lemma ForgedSilent(g: Group, msgs: set<Message>, m: Message, j: int)
    requires g.Correct(j) && Sender(g.f, m) in g.faulty
    ensures Silent(g.f, msgs, msgs + {m}, j)
  {
  }

  /** In every run every state satisfies the invariant. */
  lemma {:induction false} RunKeeps(g: Group, states: seq<System>, actions: seq<Action>, k: nat)
    requires g.Valid() && IsRun(g, states, actions) && k < |states|
    ensures SystemInv(g, states[k])
    decreases k
  {
    hide Init, Next, SystemInv;
    if k == 0 {
      InitKeeps(g, states[0]);
    } else {
      RunKeeps(g, states, actions, k - 1);
      assert Next(g, states[k - 1], actions[k - 1], states[k - 1 + 1]);
      NextKeeps(g, states[k - 1], actions[k - 1], states[k]);
    }
  }

  /** Messages are never lost. */
  lemma {:induction false} MessagesGrow(g: Group, states: seq<System>, actions: seq<Action>, i: nat, j: nat)
    requires IsRun(g, states, actions) && i <= j < |states|
    ensures states[i].msgs <= states[j].msgs
    decreases j
  {
    hide Effect, Enabled;
    if i < j {
      MessagesGrow(g, states, actions, i, j - 1);
      assert Next(g, states[j - 1], actions[j - 1], states[j - 1 + 1]);
    }
  }
}
