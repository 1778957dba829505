/**
 * What the handlers of a replica come to: when it prepares and commits, and
 * when it takes part in a view.
 */
module Handlers {
  import opened Wrappers
  import opened Types
  import opened CertificateState
  import PC = PreparedCertState
  import opened ReplicaState

  /** The pre-prepare is for a number of the window and of this view, and its slot takes it. */
  predicate TakesPrePrepare(r: Replica, view: View, n: Seqno, d: Digest, verified: bool) {
    r.Accepts(view, n) && r.HasNewView() && PC.AddPrePrepare(r.PSlot(n), d, verified, true).1
  }

  lemma PrepareSent(r: Replica, n: Seqno)
    requires r.SlotsWellFormed() && r.PSlot(n).pp.Some?
    ensures var (r', out) := SendPrepare(r, n);
            && r'.SlotsWellFormed() && r'.PSlot(n).pp == r.PSlot(n).pp && r'.id == r.id && r'.v == r.v
            && out == (if r.PSlot(n).pc.mine.None? then {Prepare(r.id, r.v, n, r.PSlot(n).pp.value)} else {})
            && forall k :: r'.CSlot(k) == r.CSlot(k) && (k != n ==> r'.PSlot(k) == r.PSlot(k))
  {
    hide AddMine;
  }

  lemma CommitSent(r: Replica, n: Seqno)
    requires r.SlotsWellFormed()
    ensures var (r', out) := CommitIfComplete(r, n);
            && r'.SlotsWellFormed() && out == (if r.PSlot(n).IsComplete() then {Commit(r.id, r.v, n)} else {})
            && forall k :: r'.PSlot(k) == r.PSlot(k) && (k != n ==> r'.CSlot(k) == r.CSlot(k))
  {
    hide AddMine;
  }

  /**
   * A pre-prepare that is taken is prepared, once, and a request that is
   * prepared then, as its prepares had come already, is committed.
   */
  lemma PrePrepareTaken(r: Replica, view: View, n: Seqno, d: Digest, verified: bool)
    requires r.SlotsWellFormed() && TakesPrePrepare(r, view, n, d, verified)
    ensures var (r', out) := HandlePrePrepare(r, view, n, d, verified);
            && r'.SlotsWellFormed() && r'.PSlot(n).pp == Some(d)
            && (Prepare(r.id, r.v, n, d) in out <==> r.PSlot(n).pc.mine.None?)
            && (Commit(r.id, r.v, n) in out <==> r'.PSlot(n).IsComplete())
            && (Prepared(r', n) == Some(d) <==> Commit(r.id, r.v, n) in out)
            && out <= {Prepare(r.id, r.v, n, d), Commit(r.id, r.v, n)}
            && (forall k :: k != n ==> r'.PSlot(k) == r.PSlot(k) && r'.CSlot(k) == r.CSlot(k))
  {
    hide SendPrepare, CommitIfComplete;
    var r0 := r.(plog := r.plog[n := PC.AddPrePrepare(r.PSlot(n), d, verified, true).0]);
    PrepareSent(r0, n);
    CommitSent(SendPrepare(r0, n).0, n);
  }

  /** Any other pre-prepare changes nothing and is not answered. */
  lemma PrePrepareRefused(r: Replica, view: View, n: Seqno, d: Digest, verified: bool)
    requires r.SlotsWellFormed() && !TakesPrePrepare(r, view, n, d, verified)
    ensures HandlePrePrepare(r, view, n, d, verified) == (r, {})
  {
  }

  /** The prepare that makes a request prepared is answered with a commit. */
  lemma PrepareTaken(r: Replica, id: int, view: View, n: Seqno, d: Digest)
    requires r.SlotsWellFormed() && r.Accepts(view, n) && r.HasNewView() && Primary(r.f, r.v) != id
    ensures var (r', out) := HandlePrepare(r, id, view, n, d);
            && r'.SlotsWellFormed() && r'.PSlot(n) == PC.AddPrepare(r.PSlot(n), Msg(id, d, true, true)).0
            && (Prepared(r', n).Some? && Prepared(r, n).None? ==> out == {Commit(r.id, r.v, n)})
            && (out != {} ==> out == {Commit(r.id, r.v, n)} && Prepared(r', n).Some?)
  {
    hide Add, CommitIfComplete;
    CommitSent(r.(plog := r.plog[n := PC.AddPrepare(r.PSlot(n), Msg(id, d, true, true)).0]), n);
    if !PC.AddPrepare(r.PSlot(n), Msg(id, d, true, true)).1 {
      RefusedCompletesNothing(r.PSlot(n).pc, Msg(id, d, true, true));
    }
  }

  /** A message that is not counted makes nothing correct. */
  lemma RefusedCompletesNothing<V>(s: CertState<V>, m: Msg<V>)
    requires s.WellFormed() && !Add(s, m).1
    ensures Add(s, m).0.complete == s.complete
    ensures Add(s, m).0.CValue() == None || (Add(s, m).0.CValue() == s.CValue() && Add(s, m).0.NumCorrect() == s.NumCorrect())
  {
  }

  /** A replica takes part in a new view once it installed it and has the state that it starts from. */
  lemma InstalledTakesPart(r: Replica, nv: NV, ms: Seqno, hasState: bool)
    requires r.SlotsWellFormed() && r.v > 0
    ensures var r' := ProcessNewView(r, nv, ms, hasState).0;
            r'.v == r.v && r'.installed && (r'.HasNewView() <==> hasState)
  {
  }

  /** Leaving a view, it takes part in none. */
  lemma LeavingTakesNoPart(r: Replica, w: View)
    requires r.SlotsWellFormed() && w > 0
    ensures !ChangeView(r, w).HasNewView()
  {
  }

  /** Fetched state that reaches the start of the view that is installed lets it take part, and no other does. */
  lemma FetchedTakesPart(r: Replica, c: Seqno)
    requires r.v > 0
    ensures NewState(r, c).HasNewView() <==> r.HasNewView() || (r.installed && c >= r.lowBound)
    ensures NewState(r, c) == r.(hasState := NewState(r, c).hasState, seqno := NewState(r, c).seqno)
    ensures NewState(r, c).seqno >= c && NewState(r, c).seqno >= r.seqno
    ensures NewState(r, c).seqno == c || NewState(r, c).seqno == r.seqno
  {
  }

  /** Skipping a range is installing a new view that starts and ends at the stable checkpoint. */
  lemma SkippingIsInstallingNone(r: Replica, nv: NV, hasState: bool)
    requires r.SlotsWellFormed() && nv.min == nv.max == r.lastStable
    ensures ProcessNewView(r, nv, r.lastStable, hasState).0 == TrimNewView(r, hasState)
  {
    hide InstallSlot, PickedDigest;
    assert Installed(Begun(r, nv, r.lastStable), nv, r.lastStable) == r.plog;
  }

  /** After a new view every number of its range has the request that was picked, and the next to propose is past the range. */
  lemma InstalledHasPicks(r: Replica, nv: NV, ms: Seqno, hasState: bool, n: Seqno)
    requires r.SlotsWellFormed() && Max(nv.min, r.lastStable) < n < nv.max && ms <= nv.min
    ensures var r' := ProcessNewView(r, nv, ms, hasState).0;
            r'.PSlot(n).pp == Some(PickedDigest(nv, n)) && r'.seqno >= nv.max - 1
            && r'.lowBound >= nv.min && r'.lastStable == Max(r.lastStable, ms)
  {
    hide AddMine, PickedDigest;
  }
}
