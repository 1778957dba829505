/** The in-place form of a view-change message: View_change of src/View_change.h and src/View_change.cc. */
module ViewChanges {
  import opened Wrappers
  import opened Types
  import opened OldRequestState
  import opened ViewChangeState
  import opened ReplicaState

  /** Req_info. */
  datatype ReqInfo = ReqInfo(lv: View, v: View, d: Digest)

  function Reported(infos: seq<ReqInfo>, marks: seq<bool>): (r: seq<Record>)
    requires |infos| == |marks|
    ensures |r| == |infos|
    ensures forall i :: 0 <= i < |r| ==> r[i] == Record(infos[i].lv, infos[i].v, infos[i].d, marks[i])
  {
    seq(|infos|, i requires 0 <= i < |infos| => Record(infos[i].lv, infos[i].v, infos[i].d, marks[i]))
  }

  /** Entry i is now rec, prepared if it was; the entries skipped are null requests. */
  ghost predicate RequestAdded(was: seq<Record>, now: seq<Record>, i: nat, rec: Record) {
    && |now| == (if i >= |was| then i + 1 else |was|)
    && now[i] == rec.(prepared := rec.prepared || (i < |was| && was[i].prepared))
    && (forall k :: 0 <= k < |was| && k != i ==> now[k] == was[k])
    && (forall k :: |was| <= k < i ==> now[k].v == -1 && now[k].lv == -1 && !now[k].prepared)
  }

  /** The digests with d at index i; null for those skipped. */
  function CkptAdded(ckpts: seq<Digest>, i: nat, d: Digest): (r: seq<Digest>)
    ensures |r| == (if i >= |ckpts| then i + 1 else |ckpts|)
    ensures forall k :: 0 <= k < |r| ==> r[k] == if k == i then d else if k < |ckpts| then ckpts[k] else NULL_DIGEST
  {
    if i < |ckpts| then ckpts[i := d] else ckpts + seq(i - |ckpts|, _ => NULL_DIGEST) + [d]
  }

  /** Adding checkpoint n changes what is said about n and about nothing else. */
  lemma CkptAddedAt(vc: VC, n: Seqno, d: Digest, k: Seqno)
    requires n % CHECKPOINT_INTERVAL == 0 && vc.ls % CHECKPOINT_INTERVAL == 0 && vc.ls <= n && d != NULL_DIGEST
    ensures var vc' := vc.(ckpts := CkptAdded(vc.ckpts, (n - vc.ls) / CHECKPOINT_INTERVAL, d));
            Ckpt(vc', k) == if k == n then Some(d) else Ckpt(vc, k)
  {
  }

  class ViewChange {
    const view: View
    const id: int
    const ls: Seqno
    const ckpts: array<Digest>
    const reqInfo: array<ReqInfo>
    const prepared: array<bool>    // the bitmap
    var nCkpts: nat
    var nReqs: nat

    ghost predicate Valid()
      reads this, ckpts, reqInfo, prepared
    {
      && ckpts.Length == MAX_OUT / CHECKPOINT_INTERVAL + 1 && reqInfo.Length == MAX_OUT && prepared.Length == MAX_OUT
      && nCkpts <= ckpts.Length && nReqs <= MAX_OUT
      && (forall i :: nCkpts <= i < ckpts.Length ==> ckpts[i] == NULL_DIGEST)
      && (forall i :: nReqs <= i < MAX_OUT ==> !prepared[i])
    }

    ghost function State(): (vc: VC)
      requires Valid()
      reads this, ckpts, reqInfo, prepared
    {
      VC(view, id, ls, ckpts[..nCkpts], Reported(reqInfo[..nReqs], prepared[..nReqs]))
    }

    constructor (v: View, ls: Seqno, id: int)
      ensures Valid() && fresh(ckpts) && fresh(reqInfo) && fresh(prepared)
      ensures State() == VC(v, id, ls, [], [])
    {
      this.view, this.ls, this.id := v, ls, id;
      ckpts := new Digest[MAX_OUT / CHECKPOINT_INTERVAL + 1](_ => NULL_DIGEST);
      reqInfo := new ReqInfo[MAX_OUT](_ => ReqInfo(0, 0, NULL_DIGEST));
      prepared := new bool[MAX_OUT](_ => false);
      nCkpts, nReqs := 0, 0;
    }

    method AddCheckpoint(n: Seqno, d: Digest)
      requires Valid() && n % CHECKPOINT_INTERVAL == 0 && ls <= n <= ls + MAX_OUT
      modifies this`nCkpts, ckpts
      ensures Valid()
      ensures State() ==
        old(State()).(ckpts := CkptAdded(old(State()).ckpts, (n - ls) / CHECKPOINT_INTERVAL, d))
    {
      var index := (n - ls) / CHECKPOINT_INTERVAL;
      ckpts[index] := d;
      if index >= nCkpts {
        nCkpts := index + 1;
      }
      assert ckpts[..nCkpts] == CkptAdded(old(ckpts[..nCkpts]), index, d);
    }

    /** What is said about request n; holes below it become null requests. */
    method AddRequest(n: Seqno, v: View, lv: View, d: Digest, isPrepared: bool)
      requires Valid() && ls < n <= ls + MAX_OUT
      modifies this`nReqs, reqInfo, prepared
      ensures Valid() && State().ckpts == old(State()).ckpts
      ensures RequestAdded(old(State()).reqs, State().reqs, n - ls - 1, Record(lv, v, d, isPrepared))
    {
      var index := n - ls - 1;
      if isPrepared {
        prepared[index] := true;
      }
      reqInfo[index] := ReqInfo(lv, v, d);
      if index >= nReqs {
        for i := nReqs to index
          invariant forall k :: nReqs <= k < i ==> reqInfo[k].v == -1 && reqInfo[k].lv == -1
          invariant forall k :: 0 <= k < nReqs ==> reqInfo[k] == old(reqInfo[k])
          invariant reqInfo[index] == ReqInfo(lv, v, d)
          modifies reqInfo
        {
          reqInfo[i] := reqInfo[i].(v := -1, lv := -1);
        }
        nReqs := index + 1;
      }
    }

    method Ckpt(n: Seqno) returns (d: Option<Digest>)
      requires Valid()
      ensures d == ViewChangeState.Ckpt(State(), n)
    {
      if n % CHECKPOINT_INTERVAL != 0 || ls > n {
        return None;
      }
      var index := (n - ls) / CHECKPOINT_INTERVAL;
      if index >= nCkpts || ckpts[index] == NULL_DIGEST {
        return None;
      }
      return Some(ckpts[index]);
    }

    method Proofs(n: Seqno) returns (r: Option<Record>)
      requires Valid()
      ensures r == ViewChangeState.Proofs(State(), n)
    {
      var index := n - ls - 1;
      if index < 0 || index >= nReqs || reqInfo[index].v < 0 {
        return None;
      }
      return Some(Record(reqInfo[index].lv, reqInfo[index].v, reqInfo[index].d, prepared[index]));
    }

    method Req(n: Seqno) returns (v: View, d: Digest)
      requires Valid() && n > ls
      ensures (v, d) == ViewChangeState.Req(State(), n)
    {
      var index := n - ls - 1;
      if index >= nReqs || !prepared[index] {
        return -1, NULL_DIGEST;
      }
      return reqInfo[index].v, reqInfo[index].d;
    }

    method MaxSeqno() returns (n: Seqno)
      requires Valid()
      ensures n == ViewChangeState.MaxSeqno(State())
    {
      n := ls + nReqs;
    }

    method LastCkpt() returns (c: Option<(Seqno, Digest)>)
      requires Valid()
      ensures c == ViewChangeState.LastCkpt(State())
    {
      if nCkpts > 0 {
        return Some((ls + (nCkpts - 1) * CHECKPOINT_INTERVAL, ckpts[nCkpts - 1]));
      }
      return None;
    }
  }

  /** The requests reported so far are those of the log up to n. */
  ghost predicate ReportsUpTo(vc: VC, log: map<Seqno, Record>, n: Seqno) {
    && |vc.reqs| <= MAX_OUT
    && MaxSeqno(vc) <= n
    && (forall k :: vc.ls < k <= n ==> ReportsRecord(vc, k, if k in log then log[k] else EMPTY_RECORD))
    && (|vc.reqs| > 0 ==> MaxSeqno(vc) in log && log[MaxSeqno(vc)].v >= 0)
  }

  /** Adding the record of n + 1 extends what is reported by one. */
  lemma ReportsNext(vc: VC, vc': VC, log: map<Seqno, Record>, n: Seqno)
    requires ReportsUpTo(vc, log, n) && vc.ls <= n < vc.ls + MAX_OUT && vc'.ls == vc.ls
    requires n + 1 in log && log[n + 1].v >= 0
    requires RequestAdded(vc.reqs, vc'.reqs, n - vc.ls, log[n + 1])
    ensures ReportsUpTo(vc', log, n + 1)
  {
    var was, now := vc.reqs, vc'.reqs;
    forall k | vc.ls < k <= n + 1
      ensures ReportsRecord(vc', k, if k in log then log[k] else EMPTY_RECORD)
    {
      if k <= n {
        assert ReportsRecord(vc, k, if k in log then log[k] else EMPTY_RECORD);
        var i := k - vc.ls - 1;
        assert i < |was| ==> now[i] == was[i];
      }
    }
  }

  /** A null request is not added. */
  lemma ReportsSkip(vc: VC, log: map<Seqno, Record>, n: Seqno)
    requires ReportsUpTo(vc, log, n) && vc.ls <= n
    requires n + 1 in log ==> log[n + 1].v < 0 && !log[n + 1].prepared
    ensures ReportsUpTo(vc, log, n + 1)
  {
  }

  /** A message that says nothing yet. */
  lemma ReportsNothing(vc: VC, log: map<Seqno, Record>)
    requires vc.reqs == []
    ensures ReportsUpTo(vc, log, vc.ls)
  {
  }

  /** The checkpoints reported are those held from the stable one up to, but not including, n. */
  ghost predicate ReportsCkpts(vc: VC, held: map<Seqno, Digest>, n: Seqno) {
    forall k :: Ckpt(vc, k) ==
      (if vc.ls <= k < n && k % CHECKPOINT_INTERVAL == 0 && k in held then Some(held[k]) else None)
  }

  /** No other multiple of the interval between a checkpoint and the next. */
  lemma NoneBetween(i: Seqno, last: Seqno, ls: Seqno)
    requires i % CHECKPOINT_INTERVAL == 0 && last < i && (i == ls || i <= last + CHECKPOINT_INTERVAL)
    ensures forall k :: last + 1 <= k < i ==> k % CHECKPOINT_INTERVAL != 0 || k < ls
  {
  }

  method AddCheckpoints(vc: ViewChange, lastExecuted: Seqno, held: map<Seqno, Digest>)
    requires vc.Valid() && vc.ls % CHECKPOINT_INTERVAL == 0 && lastExecuted <= vc.ls + MAX_OUT && vc.nCkpts == 0
    requires forall n :: n in held ==> held[n] != NULL_DIGEST
    modifies vc`nCkpts, vc.ckpts
    ensures vc.Valid() && vc.State() == old(vc.State()).(ckpts := vc.State().ckpts)
    ensures ReportsCkpts(vc.State(), held, lastExecuted + 1)
  {
    hide Ckpt, ReportsCkpts, Reported, CkptAdded;
    var i := vc.ls;
    NoCkpts(vc.State(), held);
    while i <= lastExecuted
      invariant i % CHECKPOINT_INTERVAL == 0 && vc.ls <= i
      invariant i == vc.ls || i <= lastExecuted + CHECKPOINT_INTERVAL
      invariant vc.Valid() && vc.State() == old(vc.State()).(ckpts := vc.State().ckpts)
      invariant ReportsCkpts(vc.State(), held, i)
      decreases lastExecuted - i
      modifies vc`nCkpts, vc.ckpts
    {
      ghost var was := vc.State();
      if i in held {
        vc.AddCheckpoint(i, held[i]);
        CkptStep(was, vc.State(), held, i);
      } else {
        CkptSkip(was, held, i);
      }
      i := i + CHECKPOINT_INTERVAL;
    }
    NoneBetween(i, lastExecuted, vc.ls);
    CkptsDone(vc.State(), held, i, lastExecuted + 1);
  }

  lemma NoCkpts(vc: VC, held: map<Seqno, Digest>)
    requires vc.ckpts == []
    ensures ReportsCkpts(vc, held, vc.ls)
  {
  }

  method AddRequests(vc: ViewChange, log: map<Seqno, Record>)
    requires vc.Valid() && vc.nReqs == 0
    requires forall n :: n in log && log[n].prepared ==> log[n].v >= 0
    modifies vc`nReqs, vc.reqInfo, vc.prepared
    ensures vc.Valid() && vc.State() == old(vc.State()).(reqs := vc.State().reqs)
    ensures ReportsLog(vc.State(), log)
  {
    hide ReportsUpTo, Reported, RequestAdded;
    ReportsNothing(vc.State(), log);
    for n := vc.ls + 1 to vc.ls + MAX_OUT + 1
      invariant vc.Valid() && vc.State() == old(vc.State()).(reqs := vc.State().reqs)
      invariant ReportsUpTo(vc.State(), log, n - 1)
      modifies vc`nReqs, vc.reqInfo, vc.prepared
    {
      ghost var was := vc.State();
      if n in log && log[n].v >= 0 {
        vc.AddRequest(n, log[n].v, log[n].lv, log[n].d, log[n].prepared);
        ReportsNext(was, vc.State(), log, n - 1);
      } else {
        ReportsSkip(was, log, n - 1);
      }
    }
    ReportsUpToAll(vc.State(), log);
  }

  lemma ReportsUpToAll(vc: VC, log: map<Seqno, Record>)
    requires ReportsUpTo(vc, log, vc.ls + MAX_OUT)
    ensures ReportsLog(vc, log)
  {
  }

  /**
   * View_info::view_change: reports the checkpoints held up to the last
   * executed batch and every record of the window that is not null.
   */
  method BuildViewChange(v: View, id: int, ls: Seqno, lastExecuted: Seqno,
                         held: map<Seqno, Digest>, log: map<Seqno, Record>) returns (vc: ViewChange)
    requires ls % CHECKPOINT_INTERVAL == 0 && lastExecuted <= ls + MAX_OUT
    requires forall n :: n in held ==> held[n] != NULL_DIGEST
    requires forall n :: n in log && log[n].prepared ==> log[n].v >= 0
    ensures fresh(vc) && vc.Valid()
    ensures vc.State().view == v && vc.State().id == id && vc.State().ls == ls
    ensures ReportsLog(vc.State(), log)
    ensures ReportsCkpts(vc.State(), held, lastExecuted + 1)
  {
    hide ReportsLog, ReportsCkpts, Reported;
    vc := new ViewChange(v, ls, id);
    AddCheckpoints(vc, lastExecuted, held);
    ghost var s := vc.State();
    AddRequests(vc, log);
    CkptsIgnoreReqs(s, vc.State(), held, lastExecuted + 1);
  }

  lemma CkptsIgnoreReqs(vc: VC, vc': VC, held: map<Seqno, Digest>, n: Seqno)
    requires ReportsCkpts(vc, held, n) && vc'.ls == vc.ls && vc'.ckpts == vc.ckpts
    ensures ReportsCkpts(vc', held, n)
  {
    forall k ensures Ckpt(vc', k) == Ckpt(vc, k) {
    }
  }

  lemma CkptStep(vc: VC, vc': VC, held: map<Seqno, Digest>, n: Seqno)
    requires n % CHECKPOINT_INTERVAL == 0 && vc.ls % CHECKPOINT_INTERVAL == 0 && vc.ls <= n
    requires n in held && held[n] != NULL_DIGEST && ReportsCkpts(vc, held, n)
    requires vc' == vc.(ckpts := CkptAdded(vc.ckpts, (n - vc.ls) / CHECKPOINT_INTERVAL, held[n]))
    ensures ReportsCkpts(vc', held, n + CHECKPOINT_INTERVAL)
  {
    hide Ckpt, CkptAdded;
    forall k ensures Ckpt(vc', k) == if k == n then Some(held[n]) else Ckpt(vc, k) {
      CkptAddedAt(vc, n, held[n], k);
    }
    CkptsDone(vc', held, n + 1, n + CHECKPOINT_INTERVAL);
  }

  lemma CkptSkip(vc: VC, held: map<Seqno, Digest>, n: Seqno)
    requires n % CHECKPOINT_INTERVAL == 0 && n !in held && ReportsCkpts(vc, held, n)
    ensures ReportsCkpts(vc, held, n + CHECKPOINT_INTERVAL)
  {
    hide Ckpt;
  }

  /** Only multiples of the interval matter. */
  lemma CkptsDone(vc: VC, held: map<Seqno, Digest>, n: Seqno, n': Seqno)
    requires ReportsCkpts(vc, held, n)
    requires forall k :: (n <= k < n' || n' <= k < n) ==> k % CHECKPOINT_INTERVAL != 0 || k < vc.ls
    ensures ReportsCkpts(vc, held, n')
  {
    hide Ckpt;
  }

  /** What View_info::view_change builds is a message that the protocol lets the replica send on leaving its view. */
  lemma BuiltIsMine(r: Replica, w: View, vc: VC, lastExecuted: Seqno)
    requires r.SlotsWellFormed() && vc.view == w && vc.id == r.id && vc.ls == r.lastStable
    requires ReportsLog(vc, UpdatedLog(r)) && ReportsCkpts(vc, r.held, lastExecuted + 1)
    ensures IsMyViewChange(r, w, vc)
  {
    hide ReportsLog, UpdatedLog, Ckpt;
    forall n | Ckpt(vc, n).Some? ensures n in r.held && r.held[n] == Ckpt(vc, n).value {
    }
  }
}
