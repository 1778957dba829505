/**
 * Executing batches of requests (src/Replica.cc, execute_prepared) as a fold over a log of batches. The memory of the
 * service holds the last reply to every principal (src/Rep_info.cc), so that it goes back with the rest on a rollback.
 */
module ExecutionLog {
  import opened Types

  datatype Request = Request(cid: nat, rid: int, command: int, size: nat, recovery: bool)

  /** What a pre-prepare message carries. */
  datatype Batch = Batch(view: View, requests: seq<Request>, choices: int)

  /** A block of memory: data of the service, or the last reply to a principal. */
  datatype Cell = Data(v: int) | Record(rid: int, size: int, result: int)

  /** What exec_command does: writes to the memory, and a reply. */
  datatype Reply = Reply(writes: seq<(nat, Cell)>, size: nat, result: int)

  /** The service, with the number of principals, of which the first are the replicas. */
  datatype Service = Service(principals: nat, replicas: nat, exec: (seq<Cell>, Request, int) -> Reply)

  const SEQNO_SIZE: nat := 8

  predicate IsMemory(svc: Service, mem: seq<Cell>) {
    svc.principals <= |mem| && forall c :: 0 <= c < svc.principals ==> mem[c].Record?
  }

  /** The service writes to its own part of the memory. */
  ghost predicate WellBehaved(svc: Service, nb: nat) {
    forall mem, r, choices :: |mem| == nb ==> WritesWithin(svc.exec(mem, r, choices).writes, svc.principals, nb)
  }

  predicate WritesWithin(writes: seq<(nat, Cell)>, lo: nat, hi: nat) {
    forall k :: 0 <= k < |writes| ==> lo <= writes[k].0 < hi
  }

  /** Requests come from principals: a pre-prepare with any other is not accepted. */
  predicate ValidBatch(svc: Service, b: Batch) {
    forall k :: 0 <= k < |b.requests| ==> b.requests[k].cid < svc.principals
  }

  ghost predicate ValidLog(svc: Service, log: seq<Batch>) {
    forall k :: 0 <= k < |log| ==> ValidBatch(svc, log[k])
  }

  /** The memory, and the requests that were executed rather than skipped, in order. */
  datatype Outcome = Outcome(mem: seq<Cell>, ran: seq<Request>)

  function Written(mem: seq<Cell>, writes: seq<(nat, Cell)>, k: nat, lo: nat): (mem': seq<Cell>)
    requires k <= |writes| && WritesWithin(writes, lo, |mem|)
    ensures |mem'| == |mem| && forall i :: 0 <= i < lo && i < |mem| ==> mem'[i] == mem[i]
  {
    if k == 0 then mem else Written(mem, writes, k - 1, lo)[writes[k - 1].0 := writes[k - 1].1]
  }

  /** A recovery request of a replica must carry a sequence number. */
  predicate Malformed(svc: Service, r: Request) {
    r.recovery && r.cid < svc.replicas && r.size != SEQNO_SIZE
  }

  function RunRequest(svc: Service, o: Outcome, n: Seqno, r: Request, choices: int): (o': Outcome)
    requires IsMemory(svc, o.mem) && WellBehaved(svc, |o.mem|) && r.cid < svc.principals
    ensures IsMemory(svc, o'.mem) && |o'.mem| == |o.mem|
    ensures forall c :: 0 <= c < svc.principals && c != r.cid ==> o'.mem[c] == o.mem[c]
  {
    var rec := o.mem[r.cid];
    if rec.rid >= r.rid then o
    else
      var mem := o.mem[r.cid := Record(rec.rid, -1, rec.result)];
      if Malformed(svc, r) then Outcome(mem, o.ran)
      else if r.recovery && r.cid < svc.replicas then
        Outcome(mem[r.cid := Record(r.rid, SEQNO_SIZE, n)], o.ran + [r])
      else
        var e := svc.exec(mem, r, choices);
        var after := Written(mem, e.writes, |e.writes|, svc.principals);
        Outcome(after[r.cid := Record(r.rid, e.size, e.result)], o.ran + [r])
  }

  /** The first k requests of batch n. */
  function RunBatch(svc: Service, o: Outcome, n: Seqno, b: Batch, k: nat): (o': Outcome)
    requires IsMemory(svc, o.mem) && WellBehaved(svc, |o.mem|) && ValidBatch(svc, b) && k <= |b.requests|
    ensures IsMemory(svc, o'.mem) && |o'.mem| == |o.mem|
  {
    if k == 0 then o else RunRequest(svc, RunBatch(svc, o, n, b, k - 1), n, b.requests[k - 1], b.choices)
  }

  /** The first k batches of the log, which are those with sequence numbers 1 to k. */
  function RunLog(svc: Service, init: seq<Cell>, log: seq<Batch>, k: nat): (o: Outcome)
    requires IsMemory(svc, init) && WellBehaved(svc, |init|) && ValidLog(svc, log) && k <= |log|
    ensures IsMemory(svc, o.mem) && |o.mem| == |init|
  {
    if k == 0 then Outcome(init, [])
    else RunBatch(svc, RunLog(svc, init, log, k - 1), k, log[k - 1], |log[k - 1].requests|)
  }

  /** What of a batch matters to execution: not the view it was proposed in. */
  function Content(b: Batch): Batch {
    b.(view := 0)
  }

  /** The first n batches are the same, though some may have been proposed again in later views. */
  ghost predicate SameUpTo(log: seq<Batch>, log': seq<Batch>, n: Seqno) {
    0 <= n <= |log| && n <= |log'| && forall i :: 0 <= i < n ==> Content(log[i]) == Content(log'[i])
  }

  lemma {:induction false} SameBatch(svc: Service, o: Outcome, n: Seqno, b: Batch, b': Batch, k: nat)
    requires IsMemory(svc, o.mem) && WellBehaved(svc, |o.mem|) && ValidBatch(svc, b) && ValidBatch(svc, b')
    requires Content(b) == Content(b') && k <= |b.requests|
    ensures RunBatch(svc, o, n, b, k) == RunBatch(svc, o, n, b', k)
  {
    hide WellBehaved, RunRequest, IsMemory, ValidBatch;
    if k > 0 {
      SameBatch(svc, o, n, b, b', k - 1);
      assert b.requests == Content(b).requests == b'.requests && b.choices == Content(b).choices == b'.choices;
    }
  }

  /** The contents of the first k batches decide what they compute. */
  lemma {:induction false} RunsSame(svc: Service, init: seq<Cell>, log: seq<Batch>, log': seq<Batch>, k: nat)
    requires IsMemory(svc, init) && WellBehaved(svc, |init|) && ValidLog(svc, log) && ValidLog(svc, log')
    requires SameUpTo(log, log', k)
    ensures RunLog(svc, init, log, k) == RunLog(svc, init, log', k)
  {
    hide WellBehaved, RunBatch, IsMemory, ValidBatch;
    if k > 0 {
      RunsSame(svc, init, log, log', k - 1);
      assert Content(log[k - 1]).requests == log[k - 1].requests && Content(log'[k - 1]).requests == log'[k - 1].requests;
      SameBatch(svc, RunLog(svc, init, log, k - 1), k, log[k - 1], log'[k - 1], |log[k - 1].requests|);
    }
  }

  /** Batches after the k-th do not matter to the first k. */
  lemma RunsAlike(svc: Service, init: seq<Cell>, log: seq<Batch>, log': seq<Batch>, k: nat)
    requires IsMemory(svc, init) && WellBehaved(svc, |init|) && ValidLog(svc, log) && ValidLog(svc, log')
    requires k <= |log| && k <= |log'| && log[..k] == log'[..k]
    ensures RunLog(svc, init, log, k) == RunLog(svc, init, log', k)
  {
    hide WellBehaved, IsMemory, ValidLog, RunLog;
    forall i | 0 <= i < k ensures log[i] == log'[i] {
      assert log[i] == log[..k][i] == log'[..k][i];
    }
    RunsSame(svc, init, log, log', k);
  }

  // ------------------------------------------------------------------
  // Every request is executed at most once, and each client's in order
  // ------------------------------------------------------------------

  ghost predicate Increasing(ran: seq<Request>) {
    forall i, j :: 0 <= i < j < |ran| && ran[i].cid == ran[j].cid ==> ran[i].rid < ran[j].rid
  }

  /** The record of a principal has the id of the last request executed for it. */
  ghost predicate IsLast(ran: seq<Request>, c: nat, first: int, rid: int) {
    && first <= rid
    && (forall i :: 0 <= i < |ran| && ran[i].cid == c ==> first < ran[i].rid <= rid)
    && (rid != first ==> exists i :: 0 <= i < |ran| && ran[i].cid == c && ran[i].rid == rid)
  }

  ghost predicate Tracked(svc: Service, init: seq<Cell>, o: Outcome) {
    && IsMemory(svc, init) && IsMemory(svc, o.mem) && |o.mem| == |init|
    && Increasing(o.ran)
    && (forall c :: 0 <= c < svc.principals ==> IsLast(o.ran, c, init[c].rid, o.mem[c].rid))
  }

  /** What executing a request does to the records, whatever else it writes. */
  lemma RequestFacts(svc: Service, o: Outcome, n: Seqno, r: Request, choices: int)
    requires IsMemory(svc, o.mem) && WellBehaved(svc, |o.mem|) && r.cid < svc.principals
    ensures var o' := RunRequest(svc, o, n, r, choices);
            var runs := o.mem[r.cid].rid < r.rid && !Malformed(svc, r);
            && IsMemory(svc, o'.mem) && |o'.mem| == |o.mem|
            && o'.ran == (if runs then o.ran + [r] else o.ran)
            && o'.mem[r.cid].rid == (if runs then r.rid else o.mem[r.cid].rid)
            && forall c :: 0 <= c < svc.principals && c != r.cid ==> o'.mem[c] == o.mem[c]
  {
    hide WellBehaved;
  }

  lemma LastRan(ran: seq<Request>, r: Request, first: int, rid: int)
    requires IsLast(ran, r.cid, first, rid) && rid < r.rid
    ensures IsLast(ran + [r], r.cid, first, r.rid)
  {
    assert (ran + [r])[|ran|] == r;
  }

  lemma LastElsewhere(ran: seq<Request>, r: Request, c: nat, first: int, rid: int)
    requires IsLast(ran, c, first, rid) && c != r.cid
    ensures IsLast(ran + [r], c, first, rid)
  {
    if rid != first {
      var i :| 0 <= i < |ran| && ran[i].cid == c && ran[i].rid == rid;
      assert (ran + [r])[i] == ran[i];
    }
  }

  /** A request is executed exactly when its id is above all those executed before it for the same client. */
  lemma RunWhenNewer(svc: Service, init: seq<Cell>, o: Outcome, n: Seqno, r: Request, choices: int)
    requires Tracked(svc, init, o) && WellBehaved(svc, |init|) && r.cid < svc.principals
    ensures Tracked(svc, init, RunRequest(svc, o, n, r, choices))
    ensures var newer := init[r.cid].rid < r.rid
                         && forall i :: 0 <= i < |o.ran| && o.ran[i].cid == r.cid ==> o.ran[i].rid < r.rid;
            RunRequest(svc, o, n, r, choices).ran == if newer && !Malformed(svc, r) then o.ran + [r] else o.ran
  {
    hide WellBehaved, RunRequest, Malformed;
    RequestFacts(svc, o, n, r, choices);
    var o' := RunRequest(svc, o, n, r, choices);
    assert IsLast(o.ran, r.cid, init[r.cid].rid, o.mem[r.cid].rid);
    forall c | 0 <= c < svc.principals ensures IsLast(o'.ran, c, init[c].rid, o'.mem[c].rid) {
      hide IsLast;
      if o'.ran != o.ran {
        if c == r.cid {
          LastRan(o.ran, r, init[c].rid, o.mem[c].rid);
        } else {
          LastElsewhere(o.ran, r, c, init[c].rid, o.mem[c].rid);
        }
      }
    }
  }

  lemma {:induction false} BatchTracked(svc: Service, init: seq<Cell>, o: Outcome, n: Seqno, b: Batch, k: nat)
    requires Tracked(svc, init, o) && WellBehaved(svc, |init|) && ValidBatch(svc, b) && k <= |b.requests|
    ensures Tracked(svc, init, RunBatch(svc, o, n, b, k))
  {
    hide WellBehaved, Increasing, IsLast, RunRequest, IsMemory;
    if k > 0 {
      BatchTracked(svc, init, o, n, b, k - 1);
      RunWhenNewer(svc, init, RunBatch(svc, o, n, b, k - 1), n, b.requests[k - 1], b.choices);
    }
  }

  /** Along the whole log, each client's requests are executed in the order of their ids and so none of them twice. */
  lemma {:induction false} IdsIncrease(svc: Service, init: seq<Cell>, log: seq<Batch>, k: nat)
    requires IsMemory(svc, init) && WellBehaved(svc, |init|) && ValidLog(svc, log) && k <= |log|
    ensures Tracked(svc, init, RunLog(svc, init, log, k)) && Increasing(RunLog(svc, init, log, k).ran)
    ensures forall i, j :: 0 <= i < j < |RunLog(svc, init, log, k).ran| ==>
              RunLog(svc, init, log, k).ran[i] != RunLog(svc, init, log, k).ran[j]
  {
    hide WellBehaved, RunBatch;
    if k > 0 {
      IdsIncrease(svc, init, log, k - 1);
      BatchTracked(svc, init, RunLog(svc, init, log, k - 1), k, log[k - 1], |log[k - 1].requests|);
    }
  }

  // ------------------------------------------------------------------
  // What a batch leaves in the memory
  // ------------------------------------------------------------------

  /** Ids in the records do not fall, and one of them rises if a request is executed. */
  ghost predicate Rises(svc: Service, o: Outcome, o': Outcome) {
    && IsMemory(svc, o.mem) && IsMemory(svc, o'.mem) && |o'.ran| >= |o.ran|
    && (forall c :: 0 <= c < svc.principals ==> o'.mem[c].rid >= o.mem[c].rid)
    && (|o'.ran| > |o.ran| ==> exists c :: 0 <= c < svc.principals && o'.mem[c].rid > o.mem[c].rid)
  }

  lemma {:induction false} BatchRises(svc: Service, o: Outcome, n: Seqno, b: Batch, k: nat)
    requires IsMemory(svc, o.mem) && WellBehaved(svc, |o.mem|) && ValidBatch(svc, b) && k <= |b.requests|
    ensures Rises(svc, o, RunBatch(svc, o, n, b, k))
  {
    hide WellBehaved, RunRequest, Malformed;
    if k > 0 {
      BatchRises(svc, o, n, b, k - 1);
      RequestFacts(svc, RunBatch(svc, o, n, b, k - 1), n, b.requests[k - 1], b.choices);
    }
  }

  ghost predicate NoneMalformed(svc: Service, b: Batch) {
    forall k :: 0 <= k < |b.requests| ==> !Malformed(svc, b.requests[k])
  }

  /** A batch of which nothing is executed changes nothing, malformed requests apart. */
  lemma {:induction false} BatchIdle(svc: Service, o: Outcome, n: Seqno, b: Batch, k: nat)
    requires IsMemory(svc, o.mem) && WellBehaved(svc, |o.mem|) && ValidBatch(svc, b) && k <= |b.requests|
    requires NoneMalformed(svc, b) && |RunBatch(svc, o, n, b, k).ran| == |o.ran|
    ensures RunBatch(svc, o, n, b, k) == o
  {
    hide WellBehaved, Malformed, Written;
    if k > 0 {
      BatchRises(svc, o, n, b, k - 1);
      RequestFacts(svc, RunBatch(svc, o, n, b, k - 1), n, b.requests[k - 1], b.choices);
      BatchIdle(svc, o, n, b, k - 1);
    }
  }

  /**
   * Of two logs that are the same before the n-th batch, one has a null request
   * there: the memories after it differ if the other one executes a request of
   * its batch, whatever the service does, and malformed requests apart only then.
   */
  lemma NullDiffers(svc: Service, init: seq<Cell>, log: seq<Batch>, log': seq<Batch>, n: nat)
    requires IsMemory(svc, init) && WellBehaved(svc, |init|) && ValidLog(svc, log) && ValidLog(svc, log')
    requires 0 < n <= |log| && n <= |log'| && SameUpTo(log, log', n - 1) && log'[n - 1].requests == []
    ensures |RunLog(svc, init, log, n).ran| > |RunLog(svc, init, log, n - 1).ran| ==>
              RunLog(svc, init, log, n).mem != RunLog(svc, init, log', n).mem
    ensures |RunLog(svc, init, log, n).ran| == |RunLog(svc, init, log, n - 1).ran| && NoneMalformed(svc, log[n - 1]) ==>
              RunLog(svc, init, log, n).mem == RunLog(svc, init, log', n).mem
  {
    hide WellBehaved, RunRequest, IsMemory, ValidBatch, NoneMalformed;
    RunsSame(svc, init, log, log', n - 1);
    var o, b := RunLog(svc, init, log, n - 1), log[n - 1];
    assert RunLog(svc, init, log', n) == o;
    BatchRises(svc, o, n, b, |b.requests|);
    if |RunLog(svc, init, log, n).ran| == |o.ran| && NoneMalformed(svc, b) {
      BatchIdle(svc, o, n, b, |b.requests|);
    }
  }

  /** Null requests change nothing. */
  lemma {:induction false} NullsIdle(svc: Service, init: seq<Cell>, log: seq<Batch>, k: nat)
    requires IsMemory(svc, init) && WellBehaved(svc, |init|) && ValidLog(svc, log) && k <= |log|
    requires forall i :: 0 <= i < k ==> log[i].requests == []
    ensures RunLog(svc, init, log, k) == Outcome(init, [])
  {
    hide WellBehaved, RunRequest, IsMemory, ValidBatch;
    if k > 0 {
      NullsIdle(svc, init, log, k - 1);
    }
  }

  /** After k null requests a new request is executed. */
  lemma FirstRuns(svc: Service, init: seq<Cell>, log: seq<Batch>, k: nat, r: Request)
    requires IsMemory(svc, init) && WellBehaved(svc, |init|) && ValidLog(svc, log) && k < |log|
    requires (forall i :: 0 <= i < k ==> log[i].requests == []) && log[k].requests == [r]
    requires r.cid < svc.principals && init[r.cid].rid < r.rid && !Malformed(svc, r)
    ensures RunLog(svc, init, log, k).ran == [] && RunLog(svc, init, log, k + 1).ran == [r]
  {
    hide WellBehaved, RunRequest;
    NullsIdle(svc, init, log, k);
    RequestFacts(svc, Outcome(init, []), k + 1, r, log[k].choices);
    assert RunBatch(svc, Outcome(init, []), k + 1, log[k], 0) == Outcome(init, []);
    assert RunBatch(svc, Outcome(init, []), k + 1, log[k], 1) == RunRequest(svc, Outcome(init, []), k + 1, r, log[k].choices);
  }

  // ------------------------------------------------------------------
  // What a request writes
  // ------------------------------------------------------------------

  /** Write k is the last one to block i. */
  ghost predicate LastWrite(writes: seq<(nat, Cell)>, k: int, i: int) {
    0 <= k < |writes| && writes[k].0 == i && forall j :: k < j < |writes| ==> writes[j].0 != i
  }

  /** Blocks from lo on hold what was written to them last, or what they held if nothing was. */
  ghost predicate HoldsWrites(writes: seq<(nat, Cell)>, before: seq<Cell>, after: seq<Cell>, lo: nat) {
    && |after| == |before|
    && (forall i, k :: lo <= i < |before| && LastWrite(writes, k, i) ==> after[i] == writes[k].1)
    && forall i :: lo <= i < |before| && (forall k :: 0 <= k < |writes| ==> writes[k].0 != i) ==> after[i] == before[i]
  }

  /**
   * What request r makes of the memory: nothing if it is not newer than the
   * last one of its client.  Otherwise the reply record is opened first.  A
   * recovery request is answered with n, or not at all if it is malformed; any
   * other is executed, its writes are done, and its reply is recorded.
   */
  ghost predicate Steps(svc: Service, mem: seq<Cell>, mem': seq<Cell>, n: Seqno, r: Request, choices: int) {
    && IsMemory(svc, mem) && r.cid < svc.principals && |mem'| == |mem|
    && var open := mem[r.cid := Record(mem[r.cid].rid, -1, mem[r.cid].result)];
       var e := svc.exec(open, r, choices);
       && (forall c :: 0 <= c < svc.principals && c != r.cid ==> mem'[c] == mem[c])
       && (if mem[r.cid].rid >= r.rid then mem' == mem
           else if Malformed(svc, r) then mem' == open
           else if r.recovery && r.cid < svc.replicas then
             mem'[r.cid] == Record(r.rid, SEQNO_SIZE, n) && forall i :: svc.principals <= i < |mem| ==> mem'[i] == mem[i]
           else mem'[r.cid] == Record(r.rid, e.size, e.result) && HoldsWrites(e.writes, mem, mem', svc.principals))
  }

  /** Block i is written last by one of the writes or by none. */
  lemma {:induction false} SomeLastWrite(writes: seq<(nat, Cell)>, i: nat) returns (k: int)
    ensures k == -1 ==> forall j :: 0 <= j < |writes| ==> writes[j].0 != i
    ensures k != -1 ==> k >= 0 && LastWrite(writes, k, i)
  {
    if writes == [] {
      k := -1;
    } else if writes[|writes| - 1].0 == i {
      k := |writes| - 1;
    } else {
      k := SomeLastWrite(writes[..|writes| - 1], i);
    }
  }

  /** So a request makes one thing of a memory and no other. */
  lemma StepsDecide(svc: Service, mem: seq<Cell>, a: seq<Cell>, b: seq<Cell>, n: Seqno, r: Request, choices: int)
    requires Steps(svc, mem, a, n, r, choices) && Steps(svc, mem, b, n, r, choices)
    ensures a == b
  {
    hide LastWrite, Malformed;
    var e := svc.exec(mem[r.cid := Record(mem[r.cid].rid, -1, mem[r.cid].result)], r, choices);
    forall i | 0 <= i < |mem| ensures a[i] == b[i] {
      if i >= svc.principals {
        var k := SomeLastWrite(e.writes, i);
      }
    }
  }

  lemma {:induction false} WrittenHolds(mem: seq<Cell>, writes: seq<(nat, Cell)>, k: nat, lo: nat)
    requires k <= |writes| && WritesWithin(writes, lo, |mem|)
    ensures HoldsWrites(writes[..k], mem, Written(mem, writes, k, lo), lo)
  {
    if k > 0 {
      WrittenHolds(mem, writes, k - 1, lo);
      var all, before := writes[..k], writes[..k - 1];
      assert all == before + [writes[k - 1]];
      var was, now := Written(mem, writes, k - 1, lo), Written(mem, writes, k, lo);
      forall i, j | lo <= i < |mem| && LastWrite(all, j, i) ensures now[i] == all[j].1 {
        if j < k - 1 {
          assert all[k - 1].0 != i;
          LastBefore(before, writes[k - 1], j, i);
        }
      }
      forall i | lo <= i < |mem| && (forall j :: 0 <= j < |all| ==> all[j].0 != i) ensures now[i] == mem[i] {
        assert all[k - 1].0 != i;
        forall j | 0 <= j < |before| ensures before[j].0 != i {
          assert all[j].0 != i;
        }
      }
    }
  }

  lemma LastBefore(before: seq<(nat, Cell)>, w: (nat, Cell), j: int, i: int)
    requires LastWrite(before + [w], j, i) && j < |before|
    ensures LastWrite(before, j, i)
  {
    forall t | j < t < |before| ensures before[t].0 != i {
      assert (before + [w])[t].0 != i;
    }
  }

  /** The fold does just that with every request. */
  lemma RequestSteps(svc: Service, o: Outcome, n: Seqno, r: Request, choices: int)
    requires IsMemory(svc, o.mem) && WellBehaved(svc, |o.mem|) && r.cid < svc.principals
    ensures Steps(svc, o.mem, RunRequest(svc, o, n, r, choices).mem, n, r, choices)
  {
    hide LastWrite, HoldsWrites, Malformed;
    var open := o.mem[r.cid := Record(o.mem[r.cid].rid, -1, o.mem[r.cid].result)];
    var e := svc.exec(open, r, choices);
    assert WritesWithin(e.writes, svc.principals, |open|);
    WrittenHolds(open, e.writes, |e.writes|, svc.principals);
    assert e.writes[..|e.writes|] == e.writes;
    RecordApart(e.writes, o.mem, open, Written(open, e.writes, |e.writes|, svc.principals), svc.principals, r.cid,
                Record(r.rid, e.size, e.result));
  }

  /** The reply record is not among the blocks that are written. */
  lemma RecordApart(writes: seq<(nat, Cell)>, mem: seq<Cell>, open: seq<Cell>, after: seq<Cell>, lo: nat, c: nat, rec: Cell)
    requires c < lo <= |mem| == |open| && HoldsWrites(writes, open, after, lo)
    requires forall i :: 0 <= i < |mem| && i != c ==> open[i] == mem[i]
    ensures HoldsWrites(writes, mem, after[c := rec], lo)
  {
    hide LastWrite;
  }

  /** Batch n takes the memory from mem to mem', request by request. */
  ghost predicate BatchSteps(svc: Service, mem: seq<Cell>, mem': seq<Cell>, n: Seqno, b: Batch) {
    exists mems: seq<seq<Cell>> :: Stages(svc, mems, n, b, |b.requests|) && mems[0] == mem && mems[|b.requests|] == mem'
  }

  /** The memories before and after each of the first k requests. */
  ghost predicate Stages(svc: Service, mems: seq<seq<Cell>>, n: Seqno, b: Batch, k: nat) {
    && |mems| == k + 1 && k <= |b.requests|
    && forall i :: 0 <= i < k ==> Steps(svc, mems[i], mems[i + 1], n, b.requests[i], b.choices)
  }

  lemma {:induction false} BatchStages(svc: Service, o: Outcome, n: Seqno, b: Batch, k: nat) returns (mems: seq<seq<Cell>>)
    requires IsMemory(svc, o.mem) && WellBehaved(svc, |o.mem|) && ValidBatch(svc, b) && k <= |b.requests|
    ensures Stages(svc, mems, n, b, k) && mems[0] == o.mem && mems[k] == RunBatch(svc, o, n, b, k).mem
  {
    hide WellBehaved, RunRequest, IsMemory, Steps;
    if k == 0 {
      mems := [o.mem];
    } else {
      var before := BatchStages(svc, o, n, b, k - 1);
      RequestSteps(svc, RunBatch(svc, o, n, b, k - 1), n, b.requests[k - 1], b.choices);
      mems := before + [RunBatch(svc, o, n, b, k).mem];
      forall i | 0 <= i < k ensures Steps(svc, mems[i], mems[i + 1], n, b.requests[i], b.choices) {
        if i < k - 1 {
          assert mems[i] == before[i] && mems[i + 1] == before[i + 1];
        }
      }
    }
  }

  lemma BatchIsSteps(svc: Service, o: Outcome, n: Seqno, b: Batch)
    requires IsMemory(svc, o.mem) && WellBehaved(svc, |o.mem|) && ValidBatch(svc, b)
    ensures BatchSteps(svc, o.mem, RunBatch(svc, o, n, b, |b.requests|).mem, n, b)
  {
    hide WellBehaved, RunBatch, IsMemory, Steps, Stages;
    var mems := BatchStages(svc, o, n, b, |b.requests|);
  }
}
