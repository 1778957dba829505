/**
 * Tentative execution, commitment and rollback (src/Replica.cc) over the checkpointed state store: in runs without
 * state transfer the memory is always the fold of execution over the log of batches executed so far.
 */
module Executions {
  import opened Types
  import opened StateHistory
  import opened DigestTree
  import opened StateStore
  import opened ExecutionLog

  /** The memory, and that of every retained checkpoint, is what the log of batches up to then computes. */
  ghost predicate Folded(svc: Service, init: seq<Cell>, log: seq<Batch>, mem: seq<Cell>, hist: seq<Snap<Cell>>) {
    && IsMemory(svc, init) && WellBehaved(svc, |init|) && ValidLog(svc, log)
    && mem == RunLog(svc, init, log, |log|).mem
    && forall k :: 0 <= k < |hist| ==> FoldedAt(svc, init, log, hist[k])
  }

  ghost predicate FoldedAt(svc: Service, init: seq<Cell>, log: seq<Batch>, s: Snap<Cell>)
    requires IsMemory(svc, init) && WellBehaved(svc, |init|) && ValidLog(svc, log)
  {
    0 <= s.n <= |log| && s.mem == RunLog(svc, init, log, s.n).mem
  }

  /** The same batches up to the snapshot give the same snapshot. */
  lemma FoldedAlike(svc: Service, init: seq<Cell>, log: seq<Batch>, log': seq<Batch>, s: Snap<Cell>)
    requires IsMemory(svc, init) && WellBehaved(svc, |init|) && ValidLog(svc, log) && ValidLog(svc, log')
    requires FoldedAt(svc, init, log, s) && s.n <= |log'| && log'[..s.n] == log[..s.n]
    ensures FoldedAt(svc, init, log', s)
  {
    hide WellBehaved, IsMemory, ValidLog, RunLog;
    RunsAlike(svc, init, log, log', s.n);
  }

  lemma FoldedHas(svc: Service, init: seq<Cell>, log: seq<Batch>, mem: seq<Cell>, hist: seq<Snap<Cell>>, k: nat)
    requires Folded(svc, init, log, mem, hist) && k < |hist|
    ensures FoldedAt(svc, init, log, hist[k])
  {
    hide WellBehaved, IsMemory, ValidLog, RunLog, FoldedAt;
  }

  lemma BatchAppended(svc: Service, log: seq<Batch>, b: Batch)
    requires ValidLog(svc, log) && ValidBatch(svc, b)
    ensures ValidLog(svc, log + [b]) && (log + [b])[..|log|] == log[..|log|]
    ensures forall k :: 0 <= k <= |log| ==> (log + [b])[..k] == log[..k]
  {
    hide ValidBatch;
  }

  /** Another batch changes nothing that was taken before. */
  lemma FoldedNext(svc: Service, init: seq<Cell>, log: seq<Batch>, mem: seq<Cell>, hist: seq<Snap<Cell>>, b: Batch)
    requires Folded(svc, init, log, mem, hist) && ValidBatch(svc, b)
    ensures IsMemory(svc, init) && WellBehaved(svc, |init|) && ValidLog(svc, log)
    ensures mem == RunLog(svc, init, log, |log|).mem
    ensures IsMemory(svc, mem) && |mem| == |init|
    ensures Folded(svc, init, log + [b],
                   RunBatch(svc, RunLog(svc, init, log, |log|), |log| + 1, b, |b.requests|).mem, hist)
  {
    hide WellBehaved, RunBatch, IsMemory, ValidBatch, ValidLog, FoldedAt;
    var log' := log + [b];
    BatchAppended(svc, log, b);
    RunsAlike(svc, init, log, log', |log|);
    forall k | 0 <= k < |hist| ensures FoldedAt(svc, init, log', hist[k]) {
      FoldedHas(svc, init, log, mem, hist, k);
      SnapWithin(svc, init, log, hist[k]);
      FoldedAlike(svc, init, log, log', hist[k]);
    }
  }

  lemma SnapWithin(svc: Service, init: seq<Cell>, log: seq<Batch>, s: Snap<Cell>)
    requires IsMemory(svc, init) && WellBehaved(svc, |init|) && ValidLog(svc, log)
    requires FoldedAt(svc, init, log, s)
    ensures 0 <= s.n <= |log|
  {
    hide WellBehaved, IsMemory, ValidLog, RunLog;
  }

  /** A snapshot taken now is what the whole log computes. */
  lemma FoldedSnap(svc: Service, init: seq<Cell>, log: seq<Batch>, mem: seq<Cell>, hist: seq<Snap<Cell>>, s: Snap<Cell>)
    requires Folded(svc, init, log, mem, hist) && s.mem == mem && s.n == |log|
    ensures Folded(svc, init, log, mem, hist + [s])
  {
    hide WellBehaved, IsMemory, ValidLog, RunLog;
  }

  /** Fewer snapshots are still snapshots. */
  lemma FoldedSuffix(svc: Service, init: seq<Cell>, log: seq<Batch>, mem: seq<Cell>, hist: seq<Snap<Cell>>, k: nat)
    requires Folded(svc, init, log, mem, hist) && k <= |hist|
    ensures Folded(svc, init, log, mem, hist[k..])
  {
    hide WellBehaved, IsMemory, ValidLog, RunLog, FoldedAt;
  }

  /** Going back to the last checkpoint cuts the log to it. */
  lemma FoldedCut(svc: Service, init: seq<Cell>, log: seq<Batch>, mem: seq<Cell>, hist: seq<Snap<Cell>>)
    requires Folded(svc, init, log, mem, hist) && |hist| >= 1
    requires forall k :: 0 <= k < |hist| ==> hist[k].n <= hist[|hist| - 1].n
    ensures 0 <= hist[|hist| - 1].n <= |log|
    ensures Folded(svc, init, log[..hist[|hist| - 1].n], hist[|hist| - 1].mem, hist)
  {
    hide WellBehaved, RunBatch, IsMemory, ValidBatch, RunLog;
    var last := hist[|hist| - 1];
    FoldedHas(svc, init, log, mem, hist, |hist| - 1);
    var log' := log[..last.n];
    assert ValidLog(svc, log');
    forall k | 0 <= k < |hist| ensures FoldedAt(svc, init, log', hist[k]) {
      FoldedHas(svc, init, log, mem, hist, k);
      assert log'[..hist[k].n] == log[..hist[k].n];
      FoldedAlike(svc, init, log, log', hist[k]);
    }
  }

  lemma LastIsLatest(hist: seq<Snap<Cell>>, nb: nat, k: nat)
    requires Ordered(hist, nb) && k < |hist|
    ensures hist[k].n <= hist[|hist| - 1].n
  {
  }

  /** Nothing but batches up to the stable checkpoint left the log. */
  ghost predicate Retained(was: map<Seqno, Batch>, now: map<Seqno, Batch>, stable: Seqno) {
    && (forall n :: n in now <==> n in was && n > stable)
    && (forall n :: n in now ==> now[n] == was[n])
  }

  /** The batches after lo up to hi were prepared in this view and committed, and they are the ones that were executed. */
  ghost predicate ExecutedAs(lo: Seqno, hi: Seqno, view: View, prepared: map<Seqno, Batch>, committed: set<Seqno>,
                             log: seq<Batch>) {
    0 <= lo <= hi <= |log|
    && forall n :: lo < n <= hi ==> n in committed && n in prepared && prepared[n].view == view && log[n - 1] == prepared[n]
  }

  lemma ExecutedMore(lo: Seqno, hi: Seqno, view: View, was: map<Seqno, Batch>, now: map<Seqno, Batch>, stable: Seqno,
                     committed: set<Seqno>, log: seq<Batch>, log': seq<Batch>)
    requires ExecutedAs(lo, hi, view, was, committed, log) && log <= log' && Retained(was, now, stable)
    requires ExecutedAs(hi, hi + 1, view, now, committed, log')
    ensures ExecutedAs(lo, hi + 1, view, was, committed, log')
  {
  }

  lemma ExecutedNone(lo: Seqno, view: View, prepared: map<Seqno, Batch>, committed: set<Seqno>, log: seq<Batch>)
    requires 0 <= lo <= |log|
    ensures ExecutedAs(lo, lo, view, prepared, committed, log)
  {
  }

  lemma RetainedIn(was: map<Seqno, Batch>, now: map<Seqno, Batch>, stable: Seqno, n: Seqno)
    requires Retained(was, now, stable) && n in now
    ensures n in was
  {
  }

  lemma RetainedMore(was: map<Seqno, Batch>, mid: map<Seqno, Batch>, now: map<Seqno, Batch>, s: Seqno, t: Seqno)
    requires Retained(was, mid, s) && Retained(mid, now, t) && s <= t
    ensures Retained(was, now, t)
  {
  }

  /** The last checkpoint at or before n. */
  function LastCheckpoint(n: Seqno): (c: Seqno)
    requires n >= 0
    ensures 0 <= c <= n && c % CHECKPOINT_INTERVAL == 0 && n < c + CHECKPOINT_INTERVAL
    ensures forall m :: m <= n && m % CHECKPOINT_INTERVAL == 0 ==> m <= c
  {
    n - n % CHECKPOINT_INTERVAL
  }

  lemma NextCheckpoint(n: Seqno)
    requires n >= 0
    ensures LastCheckpoint(n + 1) == if (n + 1) % CHECKPOINT_INTERVAL == 0 then n + 1 else LastCheckpoint(n)
  {
  }

  lemma EffectWithin(svc: Service, mem: seq<Cell>, r: Request, choices: int)
    requires WellBehaved(svc, |mem|)
    ensures WritesWithin(svc.exec(mem, r, choices).writes, svc.principals, |mem|)
  {
  }

  /** Every batch up to "executed" committed as it is in the log, or a rollback kept it with its checkpoint. */
  ghost predicate Accounted(log: seq<Batch>, executed: Seqno, commits: map<Seqno, Batch>, kept: set<Seqno>) {
    && executed <= |log|
    && (forall n :: n in kept ==> 0 < n <= executed && n % CHECKPOINT_INTERVAL == 0)
    && forall n :: 0 < n <= executed && n !in kept ==> n in commits && commits[n] == log[n - 1]
  }

  lemma AccountedMore(log: seq<Batch>, log': seq<Batch>, executed: Seqno, commits: map<Seqno, Batch>, kept: set<Seqno>)
    requires Accounted(log, executed, commits, kept) && log <= log'
    ensures Accounted(log', executed, commits, kept)
  {
  }

  lemma AccountedCommit(log: seq<Batch>, executed: Seqno, commits: map<Seqno, Batch>, kept: set<Seqno>)
    requires Accounted(log, executed, commits, kept) && 0 <= executed < |log|
    ensures Accounted(log, executed + 1, commits[executed + 1 := log[executed]], kept)
  {
  }

  /** What is kept when the log is cut to rc. */
  ghost function KeptAfter(kept: set<Seqno>, executed: Seqno, rc: Seqno): set<Seqno> {
    (set n | n in kept && n <= rc) + if rc > executed then {rc} else {}
  }

  lemma NoneCut(log: seq<Batch>, executed: Seqno, commits: map<Seqno, Batch>, kept: set<Seqno>)
    requires Accounted(log, executed, commits, kept)
    ensures KeptAfter(kept, executed, executed) == kept
  {
  }

  lemma AccountedCut(log: seq<Batch>, executed: Seqno, commits: map<Seqno, Batch>, kept: set<Seqno>, rc: Seqno)
    requires Accounted(log, executed, commits, kept) && 0 <= rc <= |log| && 0 <= executed && rc <= executed + 1
    requires rc % CHECKPOINT_INTERVAL == 0
    ensures Accounted(log[..rc], rc, commits, KeptAfter(kept, executed, rc))
  {
  }

  predicate IsCertified(n: Seqno, from: Seqno, to: Seqno, certified: set<Seqno>) {
    from < n <= to && n in certified && n % CHECKPOINT_INTERVAL == 0
  }

  /** The stable checkpoint is the last certified one of the batches after "from" up to "to", if there is one. */
  ghost predicate StableAs(was: Seqno, now: Seqno, from: Seqno, to: Seqno, certified: set<Seqno>) {
    && (now == was || (now > was && IsCertified(now, from, to, certified)))
    && forall n :: IsCertified(n, from, to, certified) ==> n <= now
  }

  lemma StableMore(was: Seqno, mid: Seqno, now: Seqno, from: Seqno, to: Seqno, certified: set<Seqno>)
    requires StableAs(was, mid, from, to, certified) && StableAs(mid, now, to, to + 1, certified) && from <= to
    ensures StableAs(was, now, from, to + 1, certified)
  {
    var next := to + 1;
    forall n | IsCertified(n, from, next, certified) ensures n <= now {
      assert IsCertified(n, from, to, certified) || IsCertified(n, to, next, certified);
    }
  }

  class Executor {
    const svc: Service
    const state: State<Cell>
    var view: View
    var hasNewView: bool
    var lastExecuted: Seqno
    var lastTentative: Seqno
    var lastStable: Seqno
    var prepared: map<Seqno, Batch>  // the pre-prepares of the complete certificates in plog
    var committed: set<Seqno>        // the complete certificates in clog
    ghost const init: seq<Cell>
    ghost var log: seq<Batch>        // what was executed and not rolled back
    ghost var commits: map<Seqno, Batch>  // what committed here, the last time it did
    ghost var kept: set<Seqno>       // batches of the log that a rollback kept although they had not committed

    ghost predicate Valid()
      reads this, state, state.mem
    {
      && state.Valid() && Folded(svc, init, log, state.mem[..], state.hist)
      && 0 <= lastStable <= lastExecuted <= lastTentative <= lastExecuted + 1 && |log| == lastTentative
      && lastExecuted <= lastStable + MAX_OUT && lastTentative <= lastStable + MAX_OUT
      && state.lc == LastCheckpoint(lastTentative) && state.head == lastStable
      && (forall n :: n in prepared ==> lastStable < n <= lastStable + MAX_OUT && ValidBatch(svc, prepared[n]))
      && (lastTentative > lastExecuted ==> hasNewView && PreparedNow(lastTentative) && prepared[lastTentative] == log[lastExecuted])
      && Accounted(log, lastExecuted, commits, kept)
    }

    /** Batch n is prepared in this view. */
    predicate PreparedNow(n: Seqno)
      reads this
    {
      n in prepared && prepared[n].view == view
    }

    constructor (svc: Service, state: State<Cell>)
      requires state.Valid() && state.lc == 0 && state.head == 0 && |state.hist| == 1 && state.hist[0].mem == state.mem[..]
      requires IsMemory(svc, state.mem[..]) && WellBehaved(svc, state.mem.Length)
      ensures Valid() && this.svc == svc && this.state == state && init == state.mem[..] && log == []
      ensures lastExecuted == 0 && lastStable == 0 && commits == map[] && kept == {}
    {
      this.svc, this.state := svc, state;
      view, hasNewView := 0, true;
      lastExecuted, lastTentative, lastStable := 0, 0, 0;
      prepared, committed := map[], {};
      init, log := state.mem[..], [];
      commits, kept := map[], {};
    }

    /** Copies the block before it changes, if it was not yet. */
    method Modify(i: nat, c: Cell)
      requires state.Valid() && i < state.mem.Length
      modifies state`clog, state`cowb, state.mem
      ensures state.Valid() && state.hist == old(state.hist) && state.mem[..] == old(state.mem[..])[i := c]
    {
      hide Past, Copied, HashesInto, Accounted;
      if i !in state.cowb {
        state.CowSingle(i);
      }
      state.Write(i, c);
    }

    method RunWrites(writes: seq<(nat, Cell)>)
      requires state.Valid() && WritesWithin(writes, svc.principals, state.mem.Length)
      modifies state`clog, state`cowb, state.mem
      ensures state.Valid() && state.hist == old(state.hist)
      ensures state.mem[..] == Written(old(state.mem[..]), writes, |writes|, svc.principals)
    {
      hide Past, Copied, HashesInto, Accounted;
      ghost var was := state.mem[..];
      for k := 0 to |writes|
        invariant state.Valid() && state.hist == old(state.hist)
        invariant state.mem[..] == Written(was, writes, k, svc.principals)
      {
        Modify(writes[k].0, writes[k].1);
      }
    }

    /** One request of batch n: nothing if a request at least as new was executed for the client. */
    method Execute(n: Seqno, r: Request, choices: int, ghost ran: seq<Request>)
      requires state.Valid() && IsMemory(svc, state.mem[..]) && WellBehaved(svc, state.mem.Length) && r.cid < svc.principals
      modifies state`clog, state`cowb, state.mem
      ensures state.Valid() && state.hist == old(state.hist)
      ensures state.mem[..] == RunRequest(svc, Outcome(old(state.mem[..]), ran), n, r, choices).mem
      ensures Steps(svc, old(state.mem[..]), state.mem[..], n, r, choices)
    {
      hide Steps, WellBehaved, Past, Copied, HashesInto, Accounted, Written;
      RequestSteps(svc, Outcome(state.mem[..], ran), n, r, choices);
      var rec := state.mem[r.cid];
      if rec.rid >= r.rid {
        return;
      }
      Modify(r.cid, Record(rec.rid, -1, rec.result));
      if r.cid < svc.replicas && r.recovery {
        if r.size != SEQNO_SIZE {
          return;
        }
        Modify(r.cid, Record(r.rid, SEQNO_SIZE, n));
      } else {
        var e := svc.exec(state.mem[..], r, choices);
        EffectWithin(svc, state.mem[..], r, choices);
        RunWrites(e.writes);
        Modify(r.cid, Record(r.rid, e.size, e.result));
      }
    }

    method ExecuteBatch(n: Seqno, b: Batch, ghost o: Outcome)
      requires state.Valid() && IsMemory(svc, state.mem[..]) && WellBehaved(svc, state.mem.Length) && ValidBatch(svc, b)
      requires o.mem == state.mem[..]
      modifies state`clog, state`cowb, state.mem
      ensures state.Valid() && state.hist == old(state.hist)
      ensures state.mem[..] == RunBatch(svc, o, n, b, |b.requests|).mem
      ensures BatchSteps(svc, old(state.mem[..]), state.mem[..], n, b)
    {
      hide Steps, BatchSteps, WellBehaved, RunRequest, IsMemory, Past, Copied, HashesInto, Accounted;
      BatchIsSteps(svc, o, n, b);
      for k := 0 to |b.requests|
        invariant state.Valid() && state.hist == old(state.hist)
        invariant state.mem[..] == RunBatch(svc, o, n, b, k).mem
      {
        ghost var now := RunBatch(svc, o, n, b, k);
        assert now == Outcome(state.mem[..], now.ran);
        Execute(n, b.requests[k], b.choices, now.ran);
      }
    }

    /** The next batch may be executed before it commits. */
    predicate MayExecute()
      reads this
    {
      lastTentative < lastExecuted + 1 && lastExecuted < lastStable + MAX_OUT && hasNewView && PreparedNow(lastExecuted + 1)
    }

    method ExecutePrepared()
      requires Valid()
      modifies this`lastTentative, this`log, state, state.mem
      ensures Valid()
      ensures if old(MayExecute()) then lastTentative == lastExecuted + 1 && log == old(log) + [prepared[lastTentative]]
              else lastTentative == old(lastTentative) && log == old(log) && state.mem[..] == old(state.mem[..])
      ensures old(MayExecute()) ==> BatchSteps(svc, old(state.mem[..]), state.mem[..], lastTentative, prepared[lastTentative])
    {
      hide BatchSteps, Folded, WellBehaved, IsMemory, ValidBatch, ValidLog, RunLog, RunBatch, Past, Copied, HashesInto, Accounted;
      if lastTentative < lastExecuted + 1 && lastExecuted < lastStable + MAX_OUT && hasNewView {
        var n := lastExecuted + 1;
        if n in prepared && prepared[n].view == view {
          var b := prepared[n];
          lastTentative := n;
          NextCheckpoint(lastExecuted);
          FoldedNext(svc, init, log, state.mem[..], state.hist, b);
          ghost var o := RunLog(svc, init, log, |log|);
          ExecuteBatch(n, b, o);
          AccountedMore(log, log + [b], lastExecuted, commits, kept);
          log := log + [b];
          if n % CHECKPOINT_INTERVAL == 0 {
            ghost var hist := state.hist;
            state.Checkpoint(n);
            FoldedSnap(svc, init, log, state.mem[..], hist, Snap(n, state.mem[..], state.tree));
          }
        }
      }
    }

    /** A checkpoint that this replica has taken becomes stable. */
    method MarkStable(n: Seqno)
      requires Valid() && lastStable < n <= lastExecuted && n % CHECKPOINT_INTERVAL == 0
      modifies this`lastStable, this`prepared, state
      ensures Valid() && lastStable == n && state.lc == old(state.lc)
      ensures prepared == map k | k in old(prepared) && k > n :: old(prepared)[k]
    {
      hide Folded, WellBehaved, IsMemory, ValidBatch, ValidLog, RunLog, RunBatch, Past, Copied, HashesInto, Accounted, FirstAt;
      lastStable := n;
      prepared := map k | k in prepared && k > n :: prepared[k];
      FoldedSuffix(svc, init, log, state.mem[..], state.hist, FirstAt(state.hist, n));
      state.Truncate(n);
    }

    /** Executes the next batch, unless it was, and counts it as committed. */
    method CommitOne()
      requires Valid() && hasNewView && lastExecuted < lastStable + MAX_OUT && PreparedNow(lastExecuted + 1)
      modifies this`lastExecuted, this`lastTentative, this`log, this`commits, state, state.mem
      ensures Valid() && lastTentative == lastExecuted == old(lastExecuted) + 1
      ensures |log| == lastExecuted > 0 && lastExecuted in prepared
      ensures old(log) <= log && log[lastExecuted - 1] == prepared[lastExecuted]
      ensures commits == old(commits)[lastExecuted := log[lastExecuted - 1]]
    {
      hide Folded, Past, Copied, HashesInto, Accounted, ValidBatch, LastCheckpoint;
      ExecutePrepared();
      AccountedCommit(log, lastExecuted, commits, kept);
      lastExecuted := lastExecuted + 1;
      commits := commits[lastExecuted := log[lastExecuted - 1]];
    }

    method CommitNext(certified: set<Seqno>)
      requires Valid() && hasNewView && lastExecuted < lastStable + MAX_OUT
      requires lastExecuted + 1 in committed && PreparedNow(lastExecuted + 1)
      modifies this, state, state.mem
      ensures Valid() && view == old(view) && hasNewView && committed == old(committed)
      ensures lastExecuted == old(lastExecuted) + 1 && old(log) <= log
      ensures ExecutedAs(old(lastExecuted), lastExecuted, view, old(prepared), committed, log)
      ensures Retained(old(prepared), prepared, lastStable) && StableAs(old(lastStable), lastStable, old(lastExecuted), lastExecuted, certified)
      ensures old(lastExecuted) < old(lastStable) + MAX_OUT
      ensures kept == old(kept) && commits == old(commits)[lastExecuted := log[lastExecuted - 1]]
    {
      hide Folded, Past, Copied, HashesInto, Accounted, ValidBatch, LastCheckpoint;
      CommitOne();
      if lastExecuted % CHECKPOINT_INTERVAL == 0 && lastExecuted in certified && lastExecuted > lastStable {
        MarkStable(lastExecuted);
      }
    }

    /** The batches after "from" committed as well, as they are in the log. */
    ghost predicate CommitsAre(was: map<Seqno, Batch>, from: Seqno)
      reads this
    {
      && from >= 0 && (forall n :: n in commits <==> n in was || from < n <= lastExecuted)
      && forall n :: n in commits ==>
           if from < n <= lastExecuted then n <= |log| && commits[n] == log[n - 1] else commits[n] == was[n]
    }

    lemma BoundsHold()
      requires Valid()
      ensures 0 <= lastExecuted <= |log| && Retained(prepared, prepared, lastStable)
      ensures forall n :: n in prepared ==> n <= lastStable + MAX_OUT
    {
      hide Folded, Past, Copied, HashesInto, Accounted, ValidBatch;
    }

    /**
     * Commits what can be committed, in order.  The checkpoint of every batch in "certified" becomes stable as soon as
     * this replica takes it.
     */
    method ExecuteCommitted(certified: set<Seqno>)
      requires Valid()
      modifies this, state, state.mem
      ensures Valid() && view == old(view) && hasNewView == old(hasNewView) && committed == old(committed)
      ensures old(log) <= log
      ensures ExecutedAs(old(lastExecuted), lastExecuted, view, old(prepared), committed, log)
      ensures hasNewView && lastExecuted < lastStable + MAX_OUT ==>
                !(lastExecuted + 1 in committed && PreparedNow(lastExecuted + 1))
      ensures Retained(old(prepared), prepared, lastStable) && StableAs(old(lastStable), lastStable, old(lastExecuted), lastExecuted, certified)
      ensures kept == old(kept) && CommitsAre(old(commits), old(lastExecuted))
    {
      hide Valid, Retained, ExecutedAs;
      BoundsHold();
      assert ExecutedAs(lastExecuted, lastExecuted, view, prepared, committed, log) by {
        ExecutedNone(lastExecuted, view, prepared, committed, log);
      }
      if !hasNewView {
        return;
      }
      ghost var was, stable := prepared, lastStable;
      while lastExecuted < lastStable + MAX_OUT && lastExecuted + 1 in committed && PreparedNow(lastExecuted + 1)
        invariant Valid() && view == old(view) && hasNewView && committed == old(committed) && old(log) <= log
        invariant ExecutedAs(old(lastExecuted), lastExecuted, view, was, committed, log)
        invariant Retained(was, prepared, lastStable) && StableAs(stable, lastStable, old(lastExecuted), lastExecuted, certified)
        invariant forall n :: n in was ==> n <= stable + MAX_OUT
        invariant kept == old(kept) && CommitsAre(old(commits), old(lastExecuted))
        decreases stable + MAX_OUT - lastExecuted
      {
        ghost var le, ls, mid, before := lastExecuted, lastStable, prepared, log;
        RetainedIn(was, prepared, lastStable, lastExecuted + 1);
        CommitNext(certified);
        StableMore(stable, ls, lastStable, old(lastExecuted), le, certified);
        ExecutedMore(old(lastExecuted), le, view, was, mid, ls, committed, before, log);
        RetainedMore(was, mid, prepared, ls, lastStable);
      }
    }

    /** The tentative batch goes back to the last checkpoint, together with what committed after it. */
    method GoBack()
      requires Valid() && lastTentative > lastExecuted
      modifies this`lastExecuted, this`lastTentative, this`log, this`kept, state, state.mem
      ensures Valid() && lastTentative == lastExecuted == LastCheckpoint(old(lastTentative)) <= |old(log)|
      ensures log == old(log)[..lastExecuted] && kept == KeptAfter(old(kept), old(lastExecuted), lastExecuted)
    {
      hide Folded, WellBehaved, IsMemory, ValidBatch, ValidLog, RunLog, RunBatch, Past, Copied, HashesInto, Accounted;
      LastIs(svc, init, log, state);
      FoldedCut(svc, init, log, state.mem[..], state.hist);
      var rc := state.Rollback();
      AccountedCut(log, lastExecuted, commits, kept, rc);
      kept := KeptAfter(kept, lastExecuted, rc);
      lastExecuted, lastTentative := rc, rc;
      log := log[..rc];
    }

    /** Leaves the view.  What was executed and not committed goes back to the last checkpoint. */
    method SendViewChange()
      requires Valid()
      modifies this, state, state.mem
      ensures Valid() && view == old(view) + 1 && !hasNewView && prepared == map[] && committed == {}
      ensures 0 <= lastTentative == lastExecuted <= |old(log)| && old(lastTentative) >= 0
      ensures log == old(log)[..lastExecuted] && lastStable == old(lastStable)
      ensures lastExecuted == if old(lastTentative > lastExecuted) then LastCheckpoint(old(lastTentative))
                              else old(lastExecuted)
      ensures lastExecuted > old(lastExecuted) <==>
                old(lastTentative > lastExecuted && lastTentative % CHECKPOINT_INTERVAL == 0)
      ensures commits == old(commits)
      ensures kept == KeptAfter(old(kept), old(lastExecuted), lastExecuted)
    {
      hide Folded, WellBehaved, IsMemory, ValidBatch, ValidLog, RunLog, RunBatch, Past, Copied, HashesInto, Accounted;
      NoneCut(log, lastExecuted, commits, kept);
      if lastTentative > lastExecuted {
        GoBack();
      }
      view, hasNewView := view + 1, false;
      prepared, committed := map[], {};
    }

    /** The new view begins. */
    method EnterView()
      requires Valid() && !hasNewView
      modifies this`hasNewView
      ensures Valid() && hasNewView
    {
      hide Folded, Past, Copied, HashesInto, Accounted, ValidBatch;
      hasNewView := true;
    }

    /** The certificate of batch n becomes complete; it does not change while it is in the log. */
    method Prepare(n: Seqno, b: Batch)
      requires Valid() && lastStable < n <= lastStable + MAX_OUT && n !in prepared && ValidBatch(svc, b)
      modifies this`prepared
      ensures Valid() && prepared == old(prepared)[n := b]
    {
      hide Folded, Past, Copied, HashesInto, Accounted, ValidBatch;
      prepared := prepared[n := b];
    }

    method Commit(n: Seqno)
      requires Valid()
      modifies this`committed
      ensures Valid() && committed == old(committed) + {n}
    {
      hide Folded, Past, Copied, HashesInto, Accounted, ValidBatch;
      committed := committed + {n};
    }
  }

  /** Each client's requests were executed in the order of their ids, none twice, and the memory has the last id of each. */
  lemma ExecutedOnce(e: Executor)
    requires e.Valid()
    ensures IsMemory(e.svc, e.init) && WellBehaved(e.svc, |e.init|) && ValidLog(e.svc, e.log)
    ensures Tracked(e.svc, e.init, Outcome(e.state.mem[..], RunLog(e.svc, e.init, e.log, |e.log|).ran))
  {
    hide WellBehaved, Past, Copied, HashesInto, ValidBatch, ValidLog, RunLog, Tracked, FoldedAt;
    IdsIncrease(e.svc, e.init, e.log, |e.log|);
    var o := RunLog(e.svc, e.init, e.log, |e.log|);
    assert o == Outcome(e.state.mem[..], o.ran);
  }

  /** Replicas that executed the same batches up to a checkpoint have the same state there. */
  lemma SameBatchesSameCheckpoint(a: Executor, b: Executor, j: nat, k: nat)
    requires a.Valid() && b.Valid() && a.svc == b.svc && a.init == b.init
    requires j < |a.state.hist| && k < |b.state.hist| && a.state.hist[j].n == b.state.hist[k].n
    ensures SameUpTo(a.log, b.log, a.state.hist[j].n) ==> a.state.hist[j].mem == b.state.hist[k].mem
  {
    hide WellBehaved, Past, Copied, HashesInto, ValidBatch, ValidLog, RunLog, Accounted, SameUpTo;
    FoldedHas(a.svc, a.init, a.log, a.state.mem[..], a.state.hist, j);
    FoldedHas(b.svc, b.init, b.log, b.state.mem[..], b.state.hist, k);
    SnapWithin(a.svc, a.init, a.log, a.state.hist[j]);
    if SameUpTo(a.log, b.log, a.state.hist[j].n) {
      RunsSame(a.svc, a.init, a.log, b.log, a.state.hist[j].n);
    }
  }

  // ------------------------------------------------------------------
  // What a kept batch costs
  // ------------------------------------------------------------------

  /** The numbers of the batches executed without having committed: those kept, and the tentative one. */
  ghost function Unsure(e: Executor): set<Seqno>
    reads e
  {
    e.kept + if e.lastTentative > e.lastExecuted then {e.lastTentative} else {}
  }

  /** Whatever committed at both replicas is the same, as agreement has it. */
  ghost predicate CommitsAgree(a: Executor, b: Executor)
    reads a, b
  {
    forall n :: n in a.commits && n in b.commits ==> Content(a.commits[n]) == Content(b.commits[n])
  }

  /** The batch that one of them executed without its having committed is the one that the other executed. */
  ghost predicate UnsureAgree(a: Executor, b: Executor, n: Seqno)
    requires n <= |a.log| && n <= |b.log|
    reads a, b
  {
    forall i :: 0 < i <= n && (i in Unsure(a) || i in Unsure(b)) ==> Content(a.log[i - 1]) == Content(b.log[i - 1])
  }

  /** Replicas that agree on what committed executed the same batches exactly if no unsure one was replaced at the other. */
  lemma SameIffNoneReplaced(a: Executor, b: Executor, n: Seqno)
    requires a.Valid() && b.Valid() && CommitsAgree(a, b) && 0 <= n <= |a.log| && n <= |b.log|
    ensures SameUpTo(a.log, b.log, n) <==> UnsureAgree(a, b, n)
  {
    hide Folded, Past, Copied, HashesInto, ValidBatch;
    if UnsureAgree(a, b, n) {
      forall i | 0 <= i < n ensures Content(a.log[i]) == Content(b.log[i]) {
        if i + 1 !in Unsure(a) && i + 1 !in Unsure(b) {
          assert i + 1 <= a.lastExecuted && i + 1 <= b.lastExecuted;
          assert a.commits[i + 1] == a.log[i + 1 - 1] && b.commits[i + 1] == b.log[i + 1 - 1];
        }
      }
    }
  }

  /**
   * Replica b committed a null request where a has an unsure batch, and none
   * before was replaced: their checkpoints there differ if a executed a request
   * of the batch, and malformed requests apart only then.
   */
  lemma ReplacedByNull(a: Executor, b: Executor, j: nat, k: nat)
    requires a.Valid() && b.Valid() && a.svc == b.svc && a.init == b.init && CommitsAgree(a, b)
    requires j < |a.state.hist| && k < |b.state.hist|
    requires 0 < a.state.hist[j].n == b.state.hist[k].n <= |a.log| && a.state.hist[j].n <= |b.log|
    requires UnsureAgree(a, b, a.state.hist[j].n - 1) && b.log[a.state.hist[j].n - 1].requests == []
    ensures IsMemory(a.svc, a.init) && WellBehaved(a.svc, |a.init|) && ValidLog(a.svc, a.log)
    ensures var n := a.state.hist[j].n;
            var ran := |RunLog(a.svc, a.init, a.log, n).ran| - |RunLog(a.svc, a.init, a.log, n - 1).ran|;
            && (ran > 0 ==> a.state.hist[j].mem != b.state.hist[k].mem)
            && (ran == 0 && NoneMalformed(a.svc, a.log[n - 1]) ==> a.state.hist[j].mem == b.state.hist[k].mem)
  {
    hide WellBehaved, Past, Copied, HashesInto, ValidBatch, RunLog, Accounted, SameUpTo, UnsureAgree, NoneMalformed, IsMemory;
    var n := a.state.hist[j].n;
    FoldedHas(a.svc, a.init, a.log, a.state.mem[..], a.state.hist, j);
    FoldedHas(b.svc, b.init, b.log, b.state.mem[..], b.state.hist, k);
    SameIffNoneReplaced(a, b, n - 1);
    NullDiffers(a.svc, a.init, a.log, b.log, n);
    BatchRises(a.svc, RunLog(a.svc, a.init, a.log, n - 1), n, a.log[n - 1], |a.log[n - 1].requests|);
  }

  lemma LastIs(svc: Service, init: seq<Cell>, log: seq<Batch>, state: State<Cell>)
    requires state.Valid()
    ensures |state.hist| >= 1 && state.hist[|state.hist| - 1].n == state.lc
    ensures forall k :: 0 <= k < |state.hist| ==> state.hist[k].n <= state.lc
  {
    hide Chain, Recorded, Copied, TreeOK, HashesInto, ShapedSnap;
  }

  /** The batches from 1 to n are prepared and committed, and nothing is executed. */
  ghost predicate Filled(e: Executor, b: Batch, n: Seqno)
    reads e
  {
    && e.hasNewView && e.lastTentative == e.lastExecuted == e.lastStable == 0 && e.commits == map[] && e.kept == {}
    && (forall k :: k in e.prepared <==> 0 < k <= n) && (forall k :: k in e.prepared ==> e.prepared[k] == b)
    && (forall k :: k in e.committed <==> 0 < k <= n)
  }

  method Fill(e: Executor, b: Batch, n: nat)
    requires e.Valid() && Filled(e, b, 0) && ValidBatch(e.svc, b) && n <= MAX_OUT
    modifies e`prepared, e`committed
    ensures e.Valid() && Filled(e, b, n)
  {
    hide Folded, Past, Copied, HashesInto, ValidBatch, Accounted;
    for k := 0 to n
      invariant e.Valid() && Filled(e, b, k)
    {
      e.Prepare(k + 1, b);
      e.Commit(k + 1);
    }
  }

  /** In a fresh replica n batches are prepared and commit, and nothing else is executed. */
  method CommitMany(e: Executor, b: Batch, n: nat)
    requires e.Valid() && Filled(e, b, 0) && ValidBatch(e.svc, b) && n <= MAX_OUT && b.view == e.view
    modifies e, e.state, e.state.mem
    ensures e.Valid() && e.view == old(e.view) && e.hasNewView && e.lastStable == 0 && e.kept == {}
    ensures e.lastExecuted == e.lastTentative == n && |e.log| == n && forall i :: 0 <= i < n ==> e.log[i] == b
    ensures (forall k :: k in e.commits <==> 0 < k <= n) && forall k :: k in e.commits ==> e.commits[k] == b
    ensures (forall k :: k in e.prepared <==> 0 < k <= n) && (forall k :: k in e.committed <==> 0 < k <= n)
  {
    hide Folded, Past, Copied, HashesInto, ValidBatch;
    Fill(e, b, n);
    e.ExecuteCommitted({});
    assert e.lastStable == 0;
    assert e.lastExecuted > 0 ==> e.lastExecuted in e.committed;
    assert e.lastExecuted < n <==> e.lastExecuted + 1 in e.committed;
    forall i | 0 <= i < n ensures e.log[i] == b {
      assert i + 1 in e.committed;
    }
  }

  /**
   * A batch that is rolled back although it took a checkpoint is kept: in a
   * fresh replica 127 batches commit and the next one is only prepared, but
   * after the view-change all 128 count as executed.  "committed" is what had
   * committed when the view was left.
   */
  method KeepsUncommitted(e: Executor, b: Batch, last: Batch) returns (committed: set<Seqno>)
    requires e.Valid() && Filled(e, b, 0) && ValidBatch(e.svc, b) && b.view == e.view
    requires ValidBatch(e.svc, last) && last.view == e.view
    modifies e, e.state, e.state.mem
    ensures e.Valid() && 128 !in committed && 128 !in e.commits && e.kept == {128}
    ensures e.lastExecuted == e.lastTentative == 128 && |e.log| == 128 && e.log[127] == last
    ensures forall i :: 0 <= i < 127 ==> e.log[i] == b
    ensures forall k :: k in e.commits ==> e.commits[k] == b
  {
    hide Folded, Past, Copied, HashesInto, ValidBatch, Accounted;
    CommitMany(e, b, 127);
    e.Prepare(128, last);
    e.ExecutePrepared();
    committed := e.committed;
    e.SendViewChange();
  }

  /**
   * What keeping costs: replica a keeps r at 128, which did not commit, and
   * replica b commits a null request there.  They agree on everything that
   * committed and their checkpoints 128 differ, whatever the service does.
   */
  method KeptDiffers(a: Executor, b: Executor, r: Request)
    requires a.Valid() && b.Valid() && a.svc == b.svc && a.init == b.init && a != b && a.state != b.state && a.state.mem != b.state.mem
    requires Filled(a, Batch(a.view, [], 0), 0) && Filled(b, Batch(b.view, [], 0), 0)
    requires r.cid < a.svc.principals && a.init[r.cid].Record? && a.init[r.cid].rid < r.rid && !Malformed(a.svc, r)
    modifies a, a.state, a.state.mem, b, b.state, b.state.mem
    ensures a.Valid() && b.Valid() && CommitsAgree(a, b) && a.kept == {128} && b.kept == {}
    ensures a.state.hist != [] && b.state.hist != []
    ensures var s, t := a.state.hist[|a.state.hist| - 1], b.state.hist[|b.state.hist| - 1];
            s.n == t.n == 128 && s.mem != t.mem
  {
    hide Folded, Past, Copied, HashesInto;
    var committed := KeepsUncommitted(a, Batch(a.view, [], 0), Batch(a.view, [r], 0));
    CommitMany(b, Batch(b.view, [], 0), 128);
    LastIs(a.svc, a.init, a.log, a.state);
    LastIs(b.svc, b.init, b.log, b.state);
    ReplacedByNull(a, b, |a.state.hist| - 1, |b.state.hist| - 1);
    FirstRuns(a.svc, a.init, a.log, 127, r);
  }
}
