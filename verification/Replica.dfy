/**
 * The replica in place: the handlers of src/Replica.cc that change the agreement state, with their loops over the
 * window, against the functions of ReplicaState.
 */
module Replicas {
  import opened Types
  import opened CertificateState
  import PC = PreparedCertState
  import opened OldRequestState
  import opened ViewChangeState
  import opened ViewChanges
  import RS = ReplicaState

  /** The logs have well-formed entries, for the window only; what is reported as prepared has a view. */
  ghost predicate GoodState(r: RS.Replica) {
    && r.v >= 0 && r.lastStable >= 0 && r.lastStable % CHECKPOINT_INTERVAL == 0 && r.SlotsWellFormed()
    && (forall n :: n in r.plog ==> r.InWindow(n))
    && (forall n :: n in r.clog ==> r.InWindow(n))
    && (forall n :: n in r.oplog ==> r.InWindow(n) && (r.oplog[n].prepared ==> r.oplog[n].v >= 0))
    && (forall n :: n in r.held ==> r.held[n] != NULL_DIGEST)
  }

  /** The records of the window up to n are done, and so are their slots. */
  ghost predicate LeftUpTo(r: RS.Replica, r': RS.Replica, n: Seqno)
    requires r.SlotsWellFormed()
  {
    && r' == r.(plog := r'.plog, clog := r'.clog, oplog := r'.oplog)
    && (forall k :: k in r'.plog <==> k in r.plog && k >= n)
    && (forall k :: k in r'.plog ==> r'.plog[k] == r.plog[k])
    && (forall k :: k in r'.clog ==> k in r.clog && k >= n && r'.clog[k] == r.clog[k])
    && (forall k :: k in r'.oplog <==> (r.InWindow(k) && k < n) || (k in r.oplog && k >= n))
    && (forall k :: k in r'.oplog && k >= n ==> r'.oplog[k] == r.oplog[k])
    && (forall k :: k in r'.oplog && k < n ==> r'.oplog[k] == RS.UpdateRecord(r.Rec(k), r.PSlot(k), r.v))
  }

  lemma LeftSlot(r: RS.Replica, r': RS.Replica, n: Seqno)
    requires GoodState(r) && LeftUpTo(r, r', n) && r.InWindow(n)
    ensures r'.SlotsWellFormed() && r'.PSlot(n) == r.PSlot(n) && r'.Rec(n) == r.Rec(n)
    ensures LeftUpTo(r, r'.(oplog := r'.oplog[n := RS.UpdateRecord(r.Rec(n), r.PSlot(n), r.v)],
                            plog := r'.plog - {n}, clog := r'.clog - {n}), n + 1)
  {
    hide RS.UpdateRecord;
  }

  lemma LeftIs(r: RS.Replica, r': RS.Replica, n: Seqno)
    requires r.SlotsWellFormed() && LeftUpTo(r, r', n)
    ensures r' == r.(plog := r'.plog, clog := r'.clog, oplog := r'.oplog)
  {
  }

  lemma LeftNone(r: RS.Replica)
    requires GoodState(r)
    ensures LeftUpTo(r, r, r.lastStable + 1)
  {
    hide RS.UpdateRecord;
  }

  lemma LeftAll(r: RS.Replica, r': RS.Replica)
    requires GoodState(r) && LeftUpTo(r, r', r.lastStable + MAX_OUT + 1)
    ensures r'.plog == map[] && r'.clog == map[] && r'.oplog == RS.UpdatedLog(r)
  {
    hide RS.UpdateRecord;
    forall k ensures k !in r'.plog && k !in r'.clog {
    }
    assert forall k :: k in r'.oplog <==> k in RS.UpdatedLog(r);
    assert forall k :: k in r'.oplog ==> r'.oplog[k] == RS.UpdatedLog(r)[k];
  }

  /** Slots from low on to n are as installed. */
  ghost predicate InstalledUpTo(r: RS.Replica, nv: RS.NV, low: Seqno, n: Seqno, plog: map<Seqno, PC.PCert>)
    requires r.SlotsWellFormed()
  {
    && (forall k :: k in plog <==> k in r.plog || low < k < n)
    && (forall k :: k in plog ==>
          plog[k] == if low < k < n then RS.InstallSlot(r, k, RS.PickedDigest(nv, k)) else r.plog[k])
  }

  lemma InstalledAll(r: RS.Replica, nv: RS.NV, low: Seqno, n: Seqno, plog: map<Seqno, PC.PCert>)
    requires r.SlotsWellFormed() && InstalledUpTo(r, nv, low, n, plog) && (n == nv.max || (nv.max <= low + 1 && n == low + 1))
    ensures plog == RS.Installed(r, nv, low)
  {
    hide RS.InstallSlot, RS.PickedDigest;
    var all := RS.Installed(r, nv, low);
    assert forall k :: k in plog <==> k in all;
    assert forall k :: k in plog ==> plog[k] == all[k];
  }

  lemma InstalledNone(r: RS.Replica, nv: RS.NV, low: Seqno)
    requires GoodState(r)
    ensures r.SlotsWellFormed() && InstalledUpTo(r, nv, low, low + 1, r.plog) && r.(plog := r.plog) == r
  {
  }

  lemma InstalledNext(r: RS.Replica, nv: RS.NV, low: Seqno, n: Seqno, plog: map<Seqno, PC.PCert>)
    requires r.SlotsWellFormed() && InstalledUpTo(r, nv, low, n, plog) && GoodState(r.(plog := plog)) && r.InWindow(n)
    requires low < n
    ensures var r' := r.(plog := plog);
            && r'.SlotsWellFormed()
            && var pc := RS.InstallSlot(r', n, RS.PickedDigest(nv, n));
               InstalledUpTo(r, nv, low, n + 1, plog[n := pc]) && GoodState(r.(plog := plog[n := pc]))
  {
    hide RS.PickedDigest, AddMine;
  }

  lemma GoodIgnores(r: RS.Replica, r': RS.Replica)
    requires GoodState(r)
    requires r' == r.(seqno := r'.seqno, lowBound := r'.lowBound, installed := r'.installed, hasState := r'.hasState)
    ensures r.SlotsWellFormed() && GoodState(r')
  {
  }

  lemma BegunFacts(r: RS.Replica, nv: RS.NV, ms: Seqno)
    requires GoodState(r)
    ensures r.SlotsWellFormed() && RS.Begun(r, nv, ms).lastStable == Max(r.lastStable, ms)
    ensures RS.Begun(r, nv, ms).v == r.v
  {
    hide RS.Replica.SlotsWellFormed;
  }

  lemma StableGood(r: RS.Replica, n: Seqno)
    requires GoodState(r) && n > r.lastStable && n % CHECKPOINT_INTERVAL == 0
    ensures r.SlotsWellFormed() && GoodState(RS.MarkStable(r, n))
  {
    WellFormedAfter(r, n);
  }

  lemma WellFormedAfter(r: RS.Replica, n: Seqno)
    requires r.SlotsWellFormed() && n > r.lastStable
    ensures var r' := RS.MarkStable(r, n);
            && r'.SlotsWellFormed()
            && (forall k :: k in r'.plog ==> k in r.plog && k > n)
            && (forall k :: k in r'.clog ==> k in r.clog && k > n)
            && (forall k :: k in r'.oplog ==> k in r.oplog && k > n && r'.oplog[k] == r.oplog[k])
            && (forall k :: k in r'.held ==> k in r.held && r'.held[k] == r.held[k])
  {
  }

  lemma ChangedGood(r: RS.Replica, w: View)
    requires GoodState(r) && w > r.v
    ensures GoodState(RS.ChangeView(r, w))
  {
  }

  class Replica {
    const f: nat
    const id: int
    var v: View
    var installed: bool
    var hasState: bool
    var seqno: Seqno
    var lastStable: Seqno
    var lowBound: Seqno
    var plog: map<Seqno, PC.PCert>
    var clog: map<Seqno, CertState<()>>
    var oplog: map<Seqno, Record>
    var held: map<Seqno, Digest>

    function State(): RS.Replica
      reads this
    {
      RS.Replica(f, id, v, installed, hasState, seqno, lastStable, lowBound, plog, clog, oplog, held)
    }

    ghost predicate Valid()
      reads this
    {
      GoodState(State())
    }

    predicate InWindow(n: Seqno)
      reads this
    {
      lastStable < n <= lastStable + MAX_OUT
    }

    predicate HasNewView()
      reads this
    {
      v == 0 || (hasState && installed)
    }

    constructor (f: nat, id: int)
      ensures Valid() && State() == RS.InitReplica(f, id)
    {
      this.f, this.id := f, id;
      v, installed, hasState, seqno, lastStable, lowBound := 0, false, false, 0, 0, 0;
      plog, clog, oplog, held := map[], map[], map[], map[];
    }

    /** The slot of n in plog; a slot without an entry is empty. */
    function PSlot(n: Seqno): (p: PC.PCert)
      requires Valid()
      reads this
      ensures p.WellFormed() && p == State().PSlot(n)
    {
      if n in plog then plog[n] else PC.EmptyPCert(f, id)
    }

    function CSlot(n: Seqno): (c: CertState<()>)
      requires Valid()
      reads this
      ensures c.WellFormed() && c == State().CSlot(n)
    {
      if n in clog then clog[n] else EmptyCert(f, id, 2 * f + 1)
    }

    method SendCommit(n: Seqno) returns (sent: set<RS.Message>)
      requires Valid() && InWindow(n)
      modifies this`clog
      ensures Valid() && (State(), sent) == RS.SendCommit(old(State()), n)
    {
      hide AddMine;
      sent := {RS.Commit(id, v, n)};
      var (cs, added) := AddMine(CSlot(n), Msg(id, (), true, true));
      clog := clog[n := cs];
    }

    method SendPrepare(n: Seqno) returns (sent: set<RS.Message>)
      requires Valid() && InWindow(n)
      modifies this`plog
      ensures Valid() && (State(), sent) == RS.SendPrepare(old(State()), n)
    {
      hide AddMine;
      sent := {};
      var pc := PSlot(n);
      if pc.pc.mine.None? && pc.pp.Some? {
        var d := pc.pp.value;
        sent := {RS.Prepare(id, v, n, d)};
        plog := plog[n := PC.AddMyPrepare(pc, Msg(id, d, true, true)).0];
      }
    }

    method CommitIfComplete(n: Seqno) returns (sent: set<RS.Message>)
      requires Valid() && InWindow(n)
      modifies this`clog
      ensures Valid() && (State(), sent) == RS.CommitIfComplete(old(State()), n)
    {
      if PSlot(n).IsComplete() {
        sent := SendCommit(n);
      } else {
        sent := {};
      }
    }

    method HandlePrePrepare(view: View, n: Seqno, d: Digest, verified: bool) returns (sent: set<RS.Message>)
      requires Valid()
      modifies this`plog, this`clog
      ensures Valid() && (State(), sent) == RS.HandlePrePrepare(old(State()), view, n, d, verified)
    {
      hide AddMine, RS.SendPrepare, RS.CommitIfComplete;
      sent := {};
      if InWindow(n) && view == v && n > lowBound && HasNewView() {
        var (pc, added) := PC.AddPrePrepare(PSlot(n), d, verified, true);
        if added {
          plog := plog[n := pc];
          sent := SendPrepare(n);
          var commits := CommitIfComplete(n);
          sent := sent + commits;
        }
      }
    }

    method HandlePrepare(from: int, view: View, n: Seqno, d: Digest) returns (sent: set<RS.Message>)
      requires Valid()
      modifies this`plog, this`clog
      ensures Valid() && (State(), sent) == RS.HandlePrepare(old(State()), from, view, n, d)
    {
      hide AddMine, Add, RS.CommitIfComplete;
      sent := {};
      if InWindow(n) && view == v && n > lowBound && RS.Primary(f, v) != from && HasNewView() {
        var (pc, added) := PC.AddPrepare(PSlot(n), Msg(from, d, true, true));
        plog := plog[n := pc];
        if added {
          sent := CommitIfComplete(n);
        }
      }
    }

    method HandleCommit(from: int, view: View, n: Seqno)
      requires Valid()
      modifies this`clog
      ensures Valid() && State() == RS.HandleCommit(old(State()), from, view, n)
    {
      hide Add;
      if InWindow(n) && view == v && n > lowBound {
        clog := clog[n := Add(CSlot(n), Msg(from, (), true, true)).0];
      }
    }

    /** Proposes a batch with digest d if the window and the view let it. */
    method SendPrePrepare(d: Digest) returns (sent: set<RS.Message>)
      requires Valid() && RS.Primary(f, v) == id
      modifies this`seqno, this`plog
      ensures Valid()
      ensures if RS.CanPropose(old(State())) then (State(), sent) == RS.SendPrePrepare(old(State()), d)
              else State() == old(State()) && sent == {}
    {
      sent := {};
      if InWindow(seqno + 1) && HasNewView() {
        seqno := seqno + 1;
        sent := {RS.PrePrepare(v, seqno, d)};
        plog := plog[seqno := PC.AddMyPrePrepare(PSlot(seqno), d)];
      }
    }

    /** Puts what happened at n in this view into its record and empties its slots. */
    method LeaveSlot(n: Seqno, ghost r: RS.Replica)
      requires GoodState(r) && LeftUpTo(r, State(), n) && InWindow(n)
      modifies this`plog, this`clog, this`oplog
      ensures LeftUpTo(r, State(), n + 1)
    {
      hide AddComplete, AddIncomplete, LeftUpTo;
      LeftIs(r, State(), n);
      LeftSlot(r, State(), n);
      var pc := if n in plog then plog[n] else PC.EmptyPCert(f, id);
      var rec := if n in oplog then oplog[n] else EMPTY_RECORD;
      if pc.IsComplete() {
        rec := AddComplete(rec, v, pc.pp.value);
      } else if pc.pc.mine.Some? {
        rec := AddIncomplete(rec, v, pc.pc.mine.value.val);
      } else if pc.MyPrePrepare().Some? {
        rec := AddIncomplete(rec, v, pc.MyPrePrepare().value);
      }
      oplog := oplog[n := rec];
      plog := plog - {n};
      clog := clog - {n};
    }

    /** Leaves the view for view w: summarises every slot of the window in its record, empties it, and reports. */
    method SendViewChange(w: View, lastExecuted: Seqno) returns (vc: ViewChange)
      requires Valid() && w > v && lastExecuted <= lastStable + MAX_OUT
      modifies this
      ensures Valid() && State() == RS.ChangeView(old(State()), w)
      ensures vc.Valid() && RS.IsMyViewChange(old(State()), w, vc.State())
    {
      hide AddComplete, AddIncomplete, ReportsCkpts, ReportsLog, LeftUpTo, RS.UpdateRecord;
      ghost var r := State();
      LeftNone(r);
      for n := lastStable + 1 to lastStable + MAX_OUT + 1
        invariant LeftUpTo(r, State(), n) && State() == r.(plog := plog, clog := clog, oplog := oplog)
      {
        LeaveSlot(n, r);
        LeftIs(r, State(), n + 1);
      }
      LeftAll(r, State());
      v, installed := w, false;
      ChangedGood(r, w);
      PreparedHaveViews(r);
      vc := BuildViewChange(v, id, lastStable, lastExecuted, held, oplog);
      BuiltIsMine(r, w, vc.State(), lastExecuted);
    }

    /** Sets the window and bounds for the requests of nv; ms is known to be stable. */
    method BeginView(nv: RS.NV, ms: Seqno) returns (low: Seqno)
      requires Valid() && ms % CHECKPOINT_INTERVAL == 0
      modifies this
      ensures Valid() && low == Max(nv.min, old(lastStable)) && old(State()).SlotsWellFormed()
      ensures State() == RS.Begun(old(State()), nv, ms)
    {
      hide GoodState, RS.Above, RS.Replica.SlotsWellFormed;
      ghost var r := State();
      GoodIgnores(r, r);
      seqno := nv.max - 1;
      low := Max(nv.min, lastStable);
      lowBound := low;
      GoodIgnores(r, State());
      if ms > lastStable {
        MarkStable(ms);
      }
    }

    /** Enters view v with what nv picked; ms is known to be stable, executed says that min was executed. */
    method ProcessNewView(nv: RS.NV, ms: Seqno, executed: bool) returns (sent: set<RS.Message>)
      requires Valid() && ms % CHECKPOINT_INTERVAL == 0
      requires nv.max - 1 <= Max(lastStable, ms) + MAX_OUT && ms <= nv.min
      modifies this
      ensures Valid() && (State(), sent) == RS.ProcessNewView(old(State()), nv, ms, executed)
    {
      hide RS.PickedDigest, RS.Installed, GoodState, RS.Above, RS.Replica.SlotsWellFormed, RS.Announced, RS.Prepares, RS.Begun;
      BegunFacts(State(), nv, ms);
      var low := BeginView(nv, ms);
      var prepares := InstallSlots(nv, low);
      sent := if RS.Primary(f, v) == id then RS.Announced(v, nv) else prepares;
      ghost var r1 := State();
      installed, hasState := true, executed;
      GoodIgnores(r1, State());
    }

    /** The requests that nv picked above low are logged, and a backup prepares them. */
    method InstallSlots(nv: RS.NV, low: Seqno) returns (sent: set<RS.Message>)
      requires Valid() && low >= lastStable && nv.max - 1 <= lastStable + MAX_OUT
      modifies this
      ensures Valid() && old(State()).SlotsWellFormed()
      ensures State() == old(State()).(plog := RS.Installed(old(State()), nv, low))
      ensures sent == if RS.Primary(f, v) == id then {} else RS.Prepares(id, v, nv, low, nv.max)
    {
      hide AddMine, RS.PickedDigest, GoodState, InstalledUpTo, RS.InstallSlot, RS.Installed, RS.Replica.SlotsWellFormed;
      ghost var r := State();
      InstalledNone(r, nv, low);
      sent := {};
      var n := low + 1;
      while n < nv.max
        invariant low < n && (n <= nv.max || n == low + 1)
        invariant State() == r.(plog := plog) && GoodState(r.(plog := plog))
        invariant r.SlotsWellFormed() && InstalledUpTo(r, nv, low, n, plog)
        invariant sent == if RS.Primary(f, v) == id then {} else RS.Prepares(id, v, nv, low, n)
      {
        InstalledNext(r, nv, low, n, plog);
        var d := RS.PickedDigest(nv, n);
        var pc := InstallIn(n, d);
        if RS.Primary(f, v) != id {
          sent := sent + {RS.Prepare(id, v, n, d)};
        }
        plog := plog[n := pc];
        n := n + 1;
      }
      InstalledAll(r, nv, low, n, plog);
    }

    /** What slot n becomes when the request picked for it is logged. */
    method InstallIn(n: Seqno, d: Digest) returns (pc: PC.PCert)
      requires Valid()
      ensures State().SlotsWellFormed() && pc == RS.InstallSlot(State(), n, d)
    {
      hide AddMine;
      pc := PSlot(n);
      if RS.Primary(f, v) == id {
        pc := PC.AddMyPrePrepare(pc, d);
      } else {
        pc := PC.AddMyPrepare(pc, Msg(id, d, true, true)).0;
        pc := PC.AddOld(pc, d);
      }
    }

    method MarkStable(n: Seqno)
      requires Valid() && n > lastStable && n % CHECKPOINT_INTERVAL == 0
      modifies this
      ensures Valid() && State() == RS.MarkStable(old(State()), n)
    {
      hide GoodState, RS.Replica.SlotsWellFormed, RS.Above;
      ghost var r := State();
      StableGood(r, n);
      lastStable := n;
      lowBound := Max(lowBound, n);
      seqno := Max(seqno, n);
      plog := RS.Above(plog, n);
      clog := RS.Above(clog, n);
      oplog := RS.Above(oplog, n);
      held := RS.Above(held, n - 1);
    }

    /** Checkpoint c was fetched. */
    method NewState(c: Seqno)
      requires Valid()
      modifies this`hasState, this`seqno
      ensures Valid() && State() == RS.NewState(old(State()), c)
    {
      if installed && c >= lowBound {
        hasState := true;
      }
      if c > seqno {
        seqno := c;
      }
    }

    method TakeCheckpoint(n: Seqno, d: Digest) returns (sent: set<RS.Message>)
      requires Valid() && d != NULL_DIGEST
      modifies this`held
      ensures Valid() && (State(), sent) == RS.TakeCheckpoint(old(State()), n, d)
    {
      held := held[n := d];
      sent := {RS.Checkpointed(id, n, d)};
    }
  }

  lemma PreparedHaveViews(r: RS.Replica)
    requires r.SlotsWellFormed() && r.v >= 0
    requires forall n :: n in r.oplog && r.oplog[n].prepared ==> r.oplog[n].v >= 0
    ensures forall n :: n in RS.UpdatedLog(r) && RS.UpdatedLog(r)[n].prepared ==> RS.UpdatedLog(r)[n].v >= 0
  {
  }
}
