/** The new view of the primary, from the view-changes it weighs to the step that installs it. */
module NewViewInstall {
  import opened Types
  import opened ViewChangeState
  import opened NewViewRules
  import opened NewViewCounters
  import opened NewViewTallies
  import opened NewViewInfo
  import opened NewViewCheck
  import opened ReplicaState
  import opened Protocol

  lemma StartIsStable(f: nat, nv: NV)
    requires ValidNewView(f, nv)
    ensures 0 <= nv.min < nv.max <= nv.min + MAX_OUT + 1 && |StableUpTo(nv.vcs, nv.min)| >= 2 * f + 1
    ensures forall i :: i in nv.vcs ==> 0 <= i < 3 * f + 1 && nv.vcs[i].id == i && WellFormedVC(f, nv.vcs[i])
  {
    hide ValidPick, RangeSelected, Ckpt;
    assert ValidRange(f, nv) && ValidStart(f, nv);
    var i := nv.picked[nv.min];
    assert i in nv.vcs && nv.vcs[i].ls == nv.min;
  }

  lemma PrimaryMayInstall(msgs: set<Message>, r: Replica, nv: NV, ms: Seqno, hasState: bool)
    requires r.SlotsWellFormed() && nv.view == r.v && !r.installed && Primary(r.f, r.v) == r.id
    requires ValidNewView(r.f, nv) && (forall i :: i in nv.vcs ==> ViewChange(nv.vcs[i]) in msgs) && ms <= nv.min
    ensures nv.max - 1 <= Max(r.lastStable, ms) + MAX_OUT <==> Enabled(msgs, r, Install(r.id, nv, ms, hasState))
  {
    hide ValidNewView;
  }

  /**
   * The primary weighs one more view-change.  If that completes the new view,
   * the message made is one that the primary's install step takes, with what
   * the view-changes show to be stable, if its range fits the window.
   */
  method WeighForInstall(info: NVInfo, vc: VC, tmax: Seqno, ghost msgs: set<Message>, ghost r: Replica, ghost hasState: bool)
    returns (ms: Seqno)
    requires info.Valid() && info.Prompt() && info.Made() && Highest(info.f, info.ckpts, info.chosen) && Ascending(info.ckpts)
    requires !info.isComplete && WellFormedVC(info.f, vc) && vc.view == info.v && vc.id !in info.vcs
    requires forall i :: i in info.vcs ==> info.vcs[i].ls + MAX_OUT < tmax
    requires vc.ls + MAX_OUT < tmax
    requires (forall i :: i in info.vcs ==> ViewChange(info.vcs[i]) in msgs) && ViewChange(vc) in msgs
    requires r.SlotsWellFormed() && r.lastStable >= 0 && r.f == info.f && r.v == info.v && !r.installed && Primary(r.f, r.v) == r.id
    modifies info
    ensures info.isComplete ==>
              info.made.Some?
              && var nv := info.made.value;
                 && IsKnownStable(info.f, nv.vcs, nv.min, ms)
                 && (RangeFits(info.f, nv, r.lastStable) <==> Enabled(msgs, r, Install(r.id, nv, ms, hasState)))
  {
    hide ValidNewView, VCsOK, CkptsOK, TableOK, CompOK, Done, RangeOK, Highest, CkptsWeighed, Settled, RowsWeighed,
         PicksOnly, StableUpTo, Enabled, RangeFits, IsKnownStable;
    assert tmax > 0 by {
      assert vc.ls >= 0;
    }
    info.Summarize(vc);
    ms := 0;
    if info.isComplete {
      var nv := info.made.value;
      StartIsStable(info.f, nv);
      ms := KnownStable(info.f, nv.vcs, nv.min, tmax);
      WindowFits(info.f, nv, r.lastStable, ms);
      PrimaryMayInstall(msgs, r, nv, ms, hasState);
    }
  }
}
