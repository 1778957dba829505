/**
 * Runs whose backups enter a view on the guards that src/NV_info.cc tests,
 * not on the rules behind them: which of these are runs of module Protocol.
 */
module CodeRuns {
  import opened Types
  import opened Quorums
  import opened CertificateState
  import PC = PreparedCertState
  import opened ViewChangeState
  import opened NewViewRules
  import opened NewViewCounters
  import opened NewViewCheck
  import opened ReplicaState
  import opened Protocol
  import opened Agreement

  /** What is known of a new view before its contents are weighed. */
  ghost predicate WellFormedNV(f: nat, nv: NV) {
    && nv.view > 0
    && nv.min < nv.max <= nv.min + MAX_OUT + 1
    && forall i :: i in nv.vcs ==> nv.vcs[i].view == nv.view && nv.vcs[i].id == i && Verified(nv.vcs[i], 3 * f + 1)
  }

  /** The replicas that sent checkpoint n with digest d. */
  ghost function Takers(f: nat, msgs: set<Message>, n: Seqno, d: Digest): set<int> {
    set id | id in Replicas(f) && Checkpointed(id, n, d) in msgs
  }

  /**
   * When the code lets a correct replica in state r take action a.  The primary
   * installs what it selected itself; a backup installs what passes its
   * recount, or skips a range that its stable checkpoint makes it think is
   * behind it; a checkpoint is stable once a quorum took it.  That the range
   * fits the window is not a guard that is tested: installing asserts it, so a
   * replica stops where it does not hold.
   */
  ghost predicate CodeEnabled(msgs: set<Message>, r: Replica, a: Action)
    requires r.SlotsWellFormed()
  {
    match a
    case Install(_, nv, ms, _) =>
      && nv.view == r.v && !r.installed && Received(msgs, nv)
      && (if Primary(r.f, r.v) == r.id then ValidNewView(r.f, nv)
          else WellFormedNV(r.f, nv) && BackupAccepts(r.f, nv) && NewView(nv) in msgs)
      && IsKnownStable(r.f, nv.vcs, nv.min, ms) && RangeFits(r.f, nv, r.lastStable)
    case Trim(_, nv, _) =>
      && nv.view == r.v && !r.installed && Primary(r.f, r.v) != r.id
      && WellFormedNV(r.f, nv) && Received(msgs, nv) && NewView(nv) in msgs
      && r.lastStable > 0 && EntersOnStable(r.f, nv, r.lastStable)
    case Stabilise(_, n) => n > r.lastStable && exists d :: |Takers(r.f, msgs, n, d)| >= 2 * r.f + 1
    case _ => Enabled(msgs, r, a)
  }

  ghost predicate CodeNext(g: Group, s: System, a: Action, s': System) {
    if a.Forge? then
      Sender(g.f, a.m) in g.faulty && s' == s.(msgs := s.msgs + {a.m})
    else
      var i := Actor(a);
      && g.Correct(i) && i < |s.reps|
      && s.reps[i].SlotsWellFormed()
      && CodeEnabled(s.msgs, s.reps[i], a)
      && var (r, out) := Effect(s.reps[i], a);
         s' == System(s.reps[i := r], s.msgs + out)
  }

  ghost predicate IsCodeRun(g: Group, states: seq<System>, actions: seq<Action>) {
    && |states| == |actions| + 1
    && Init(g, states[0])
    && forall k :: 0 <= k < |actions| ==> CodeNext(g, states[k], actions[k], states[k + 1])
  }

  /** Enough view-changes stay not above the request picked for n when digests are compared at equal views. */
  ghost predicate PickUnopposed(f: nat, nv: NV, n: Seqno) {
    && n in nv.picked && nv.picked[n] in nv.vcs
    && var vc := nv.vcs[nv.picked[n]];
       vc.ls < n && |Lower(nv.vcs, n, Req(vc, n).0, Req(vc, n).1)| >= 2 * f + 1
  }

  /** The install or trim meets the rule: digests compared at equal views, and no range skipped that was rejected. */
  ghost predicate MeetsRule(g: Group, s: System, a: Action) {
    match a
    case Install(i, nv, _, _) => Primary(g.f, nv.view) == i || forall n :: nv.min < n < nv.max ==> PickUnopposed(g.f, nv, n)
    case Trim(_, nv, _) => RangeSelected(g.f, nv.vcs, nv.max)
    case _ => true
  }

  /** What the backup accepts is a valid new view exactly if every pick also stands when digests are compared. */
  lemma AcceptedIsValid(f: nat, nv: NV)
    requires WellFormedNV(f, nv) && BackupAccepts(f, nv)
    ensures ValidNewView(f, nv) <==> forall n :: nv.min < n < nv.max ==> PickUnopposed(f, nv, n)
  {
    hide ValidStart, RangeSelected, Req, ReqSelected, Lower, Vouchers;
    forall n | nv.min < n < nv.max ensures ValidPick(f, nv, n) <==> PickUnopposed(f, nv, n) {
      assert BackupPick(f, nv, n);
      RecountedPick(f, nv, n);
    }
  }

  lemma RecountedPick(f: nat, nv: NV, n: Seqno)
    requires BackupPick(f, nv, n)
    ensures ValidPick(f, nv, n) <==> PickUnopposed(f, nv, n)
  {
    hide Req, Lower, Vouchers, ProofSet, ViewsNotAbove;
    var vc := nv.vcs[nv.picked[n]];
    ProofsAreVouchers(nv.vcs, n, Req(vc, n).0, Req(vc, n).1);
  }

  ghost predicate Named(g: Group, s: System) {
    forall i :: 0 <= i < |s.reps| ==> s.reps[i].f == g.f && s.reps[i].id == i && s.reps[i].lastStable >= 0
  }

  /** A step on the code's guards is one of the protocol exactly if it meets the rule. */
  lemma StepIsStep(g: Group, s: System, a: Action, s': System)
    requires CodeNext(g, s, a, s') && Named(g, s)
    ensures Next(g, s, a, s') <==> MeetsRule(g, s, a)
  {
    hide Effect, ValidStart, RangeSelected, ValidPick, PickUnopposed, BackupPick, Received, Takers, IsMyViewChange, Verified, IsKnownStable,
         RangeFits;
    if a.Install? {
      WindowFits(g.f, a.nv, s.reps[a.i].lastStable, a.ms);
    }
    if a.Install? && Primary(g.f, a.nv.view) != a.i {
      AcceptedIsValid(g.f, a.nv);
    }
  }

  /** r' is the same replica as r, with a window that did not move down. */
  predicate SameReplica(r: Replica, r': Replica) {
    r'.f == r.f && r'.id == r.id && r'.lastStable >= r.lastStable
  }

  lemma SendNames(r: Replica, n: Seqno)
    requires r.SlotsWellFormed()
    ensures SameReplica(r, SendPrepare(r, n).0) && SendPrepare(r, n).0.SlotsWellFormed()
    ensures SameReplica(r, CommitIfComplete(r, n).0)
  {
  }

  lemma PrePrepareNames(r: Replica, view: View, n: Seqno, d: Digest, verified: bool)
    requires r.SlotsWellFormed()
    ensures SameReplica(r, HandlePrePrepare(r, view, n, d, verified).0)
  {
    hide SendPrepare, CommitIfComplete;
    if r.Accepts(view, n) && r.HasNewView() {
      var r0 := r.(plog := r.plog[n := PC.AddPrePrepare(r.PSlot(n), d, verified, true).0]);
      SendNames(r0, n);
      SendNames(SendPrepare(r0, n).0, n);
    }
  }

  lemma PrepareNames(r: Replica, id: int, view: View, n: Seqno, d: Digest)
    requires r.SlotsWellFormed()
    ensures SameReplica(r, HandlePrepare(r, id, view, n, d).0)
  {
    hide CommitIfComplete;
    SendNames(r.(plog := r.plog[n := PC.AddPrepare(r.PSlot(n), Msg(id, d, true, true)).0]), n);
  }

  lemma NewViewNames(r: Replica, nv: NV, ms: Seqno, hasState: bool)
    requires r.SlotsWellFormed()
    ensures SameReplica(r, ProcessNewView(r, nv, ms, hasState).0)
  {
    hide Installed, Above, InstallMessages;
  }

  lemma NamesStay(r: Replica, a: Action)
    requires r.SlotsWellFormed() && (a.Stabilise? ==> a.n > r.lastStable)
    ensures SameReplica(r, Effect(r, a).0)
  {
    hide UpdatedLog, Above, HandlePrePrepare, HandlePrepare, ProcessNewView;
    match a
    case RecvPrePrepare(_, view, n, d, verified) => PrePrepareNames(r, view, n, d, verified);
    case RecvPrepare(_, id, view, n, d) => PrepareNames(r, id, view, n, d);
    case Install(_, nv, ms, hasState) => NewViewNames(r, nv, ms, hasState);
    case _ =>
  }

  lemma {:induction false} RunIsNamed(g: Group, states: seq<System>, actions: seq<Action>, k: nat)
    requires IsCodeRun(g, states, actions) && k < |states|
    ensures Named(g, states[k])
  {
    hide Effect, CodeEnabled;
    if k > 0 {
      RunIsNamed(g, states, actions, k - 1);
      var s, a := states[k - 1], actions[k - 1];
      assert CodeNext(g, s, a, states[k - 1 + 1]);
      if !a.Forge? {
        CodeStabilises(s.msgs, s.reps[Actor(a)], a);
        NamesStay(s.reps[Actor(a)], a);
      }
    }
  }

  lemma CodeStabilises(msgs: set<Message>, r: Replica, a: Action)
    requires r.SlotsWellFormed() && CodeEnabled(msgs, r, a)
    ensures a.Stabilise? ==> a.n > r.lastStable
  {
  }

  /** A run on the code's guards is one of the protocol exactly if its installs and trims meet the rule. */
  lemma CodeRunIsRun(g: Group, states: seq<System>, actions: seq<Action>)
    requires IsCodeRun(g, states, actions)
    ensures IsRun(g, states, actions) <==> forall k :: 0 <= k < |actions| ==> MeetsRule(g, states[k], actions[k])
  {
    hide Next, CodeNext, Init, MeetsRule;
    forall k | 0 <= k < |actions|
      ensures Next(g, states[k], actions[k], states[k + 1]) <==> MeetsRule(g, states[k], actions[k])
    {
      RunIsNamed(g, states, actions, k);
      assert CodeNext(g, states[k], actions[k], states[k + 1]);
      StepIsStep(g, states[k], actions[k], states[k + 1]);
    }
    if IsRun(g, states, actions) {
      forall k | 0 <= k < |actions| ensures MeetsRule(g, states[k], actions[k]) {
        assert Next(g, states[k], actions[k], states[k + 1]);
      }
    }
  }

  /** Agreement in such runs: correct replicas commit the same digests if every install and trim meets the rule. */
  lemma CodeAgreement(g: Group, states: seq<System>, actions: seq<Action>,
                      k: nat, i: int, d: Digest, l: nat, j: int, d': Digest, n: Seqno)
    requires g.Valid() && IsCodeRun(g, states, actions) && g.Correct(i) && g.Correct(j)
    requires forall k :: 0 <= k < |actions| ==> MeetsRule(g, states[k], actions[k])
    requires CommittedIn(states, k, i, n, d) && CommittedIn(states, l, j, n, d')
    ensures d == d'
  {
    hide IsRun, IsCodeRun, MeetsRule, CommittedIn;
    CodeRunIsRun(g, states, actions);
    Agreement.Agreement(g, states, actions, k, i, d, l, j, d', n);
  }
}
