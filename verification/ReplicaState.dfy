/**
 * The agreement state of a replica and its handlers: src/Replica.cc.
 *
 * Each function is what one handler makes of the state of a replica and the
 * messages it sends.  Execution of requests, retransmission, timers and the
 * state store are not part of this state.
 */
module ReplicaState {
  import opened Wrappers
  import opened Types
  import opened CertificateState
  import PC = PreparedCertState
  import opened OldRequestState
  import opened ViewChangeState
  import opened NewViewRules

  /** What the primary of a view announces: the view-changes it chose and whose word it took for what. */
  datatype NV = NV(view: View, vcs: map<int, VC>, min: Seqno, max: Seqno, picked: map<Seqno, int>)

  datatype Message =
    | PrePrepare(view: View, n: Seqno, d: Digest)
    | Prepare(id: int, view: View, n: Seqno, d: Digest)
    | Commit(id: int, view: View, n: Seqno)
    | ViewChange(vc: VC)
    | NewView(nv: NV)
    | Checkpointed(id: int, n: Seqno, d: Digest)

  function Primary(f: nat, v: View): int {
    v % (3 * f + 1)
  }

  /** Messages are authenticated by their sender. */
  function Sender(f: nat, m: Message): int {
    match m
    case PrePrepare(v, _, _) => Primary(f, v)
    case Prepare(id, _, _, _) => id
    case Commit(id, _, _) => id
    case ViewChange(vc) => vc.id
    case NewView(nv) => Primary(f, nv.view)
    case Checkpointed(id, _, _) => id
  }

  datatype Replica = Replica(
    f: nat, id: int,
    v: View,
    installed: bool,            // complete new-view information for v: View_info::has_new_view(v)
    hasState: bool,             // has_nv_state
    seqno: Seqno,               // last sequence number assigned, if primary
    lastStable: Seqno,
    lowBound: Seqno,
    plog: map<Seqno, PC.PCert>, // a slot without an entry is empty
    clog: map<Seqno, CertState<()>>,
    oplog: map<Seqno, Record>,
    held: map<Seqno, Digest>)   // checkpoints held by the state store
  {
    predicate HasNewView() {
      v == 0 || (hasState && installed)
    }

    function PSlot(n: Seqno): PC.PCert {
      if n in plog then plog[n] else PC.EmptyPCert(f, id)
    }

    function CSlot(n: Seqno): CertState<()> {
      if n in clog then clog[n] else EmptyCert(f, id, 2 * f + 1)
    }

    function Rec(n: Seqno): Record {
      if n in oplog then oplog[n] else EMPTY_RECORD
    }

    predicate InWindow(n: Seqno) {
      lastStable < n <= lastStable + MAX_OUT
    }

    /** in_wv() and above low_bound. */
    predicate Accepts(view: View, n: Seqno) {
      InWindow(n) && view == v && n > lowBound
    }

    predicate SlotsWellFormed() {
      && (forall n :: n in plog ==> plog[n].WellFormed())
      && (forall n :: n in clog ==> clog[n].WellFormed())
    }
  }

  function InitReplica(f: nat, id: int): Replica {
    Replica(f, id, 0, false, false, 0, 0, 0, map[], map[], map[], map[])
  }

  /** prepared(n): the digest that prepared at n, if any. */
  function Prepared(r: Replica, n: Seqno): Option<Digest>
    requires r.SlotsWellFormed()
  {
    if r.PSlot(n).IsComplete() then r.PSlot(n).pp else None
  }

  /** committed(n): the digest that committed at n, if any. */
  function Committed(r: Replica, n: Seqno): Option<Digest>
    requires r.SlotsWellFormed()
  {
    if r.CSlot(n).IsComplete() then Prepared(r, n) else None
  }

  // ------------------------------------------------------------------
  // Normal operation
  // ------------------------------------------------------------------

  function SendCommit(r: Replica, n: Seqno): (Replica, set<Message>)
    requires r.SlotsWellFormed()
  {
    var (cs, added) := AddMine(r.CSlot(n), Msg(r.id, (), true, true));
    (r.(clog := r.clog[n := cs]), {Commit(r.id, r.v, n)})
  }

  /** Sends a prepare for the pre-prepare in slot n unless one was logged. */
  function SendPrepare(r: Replica, n: Seqno): (Replica, set<Message>)
    requires r.SlotsWellFormed()
  {
    var pc := r.PSlot(n);
    if pc.pc.mine.None? && pc.pp.Some? then
      var d := pc.pp.value;
      (r.(plog := r.plog[n := PC.AddMyPrepare(pc, Msg(r.id, d, true, true)).0]), {Prepare(r.id, r.v, n, d)})
    else (r, {})
  }

  /** Sends a commit if slot n is now complete. */
  function CommitIfComplete(r: Replica, n: Seqno): (Replica, set<Message>)
    requires r.SlotsWellFormed()
  {
    if r.PSlot(n).IsComplete() then SendCommit(r, n) else (r, {})
  }

  function HandlePrePrepare(r: Replica, view: View, n: Seqno, d: Digest, verified: bool): (Replica, set<Message>)
    requires r.SlotsWellFormed()
  {
    if !r.Accepts(view, n) || !r.HasNewView() then (r, {})
    else
      var (pc, added) := PC.AddPrePrepare(r.PSlot(n), d, verified, true);
      if !added then (r, {})
      else
        var (r1, out1) := SendPrepare(r.(plog := r.plog[n := pc]), n);
        var (r2, out2) := CommitIfComplete(r1, n);
        (r2, out1 + out2)
  }

  function HandlePrepare(r: Replica, id: int, view: View, n: Seqno, d: Digest): (Replica, set<Message>)
    requires r.SlotsWellFormed()
  {
    if !r.Accepts(view, n) || Primary(r.f, r.v) == id || !r.HasNewView() then (r, {})
    else
      var (pc, added) := PC.AddPrepare(r.PSlot(n), Msg(id, d, true, true));
      var r1 := r.(plog := r.plog[n := pc]);
      if added then CommitIfComplete(r1, n) else (r1, {})
  }

  function HandleCommit(r: Replica, id: int, view: View, n: Seqno): Replica
    requires r.SlotsWellFormed()
  {
    if !r.Accepts(view, n) then r
    else r.(clog := r.clog[n := Add(r.CSlot(n), Msg(id, (), true, true)).0])
  }

  /** The primary assigns the next sequence number to a batch with digest d. */
  predicate CanPropose(r: Replica) {
    Primary(r.f, r.v) == r.id && r.InWindow(r.seqno + 1) && r.HasNewView()
  }

  function SendPrePrepare(r: Replica, d: Digest): (Replica, set<Message>) {
    var n := r.seqno + 1;
    (r.(seqno := n, plog := r.plog[n := PC.AddMyPrePrepare(r.PSlot(n), d)]), {PrePrepare(r.v, n, d)})
  }

  // ------------------------------------------------------------------
  // View changes
  // ------------------------------------------------------------------

  /** What becomes of the record of a sequence number when its view is left. */
  function UpdateRecord(rec: Record, pc: PC.PCert, v: View): Record
    requires pc.WellFormed()
  {
    if pc.IsComplete() then AddComplete(rec, v, pc.pp.value)
    else if pc.pc.mine.Some? then AddIncomplete(rec, v, pc.pc.mine.value.val)
    else if pc.MyPrePrepare().Some? then AddIncomplete(rec, v, pc.MyPrePrepare().value)
    else rec
  }

  function UpdatedLog(r: Replica): map<Seqno, Record>
    requires r.SlotsWellFormed()
  {
    map n | r.lastStable < n <= r.lastStable + MAX_OUT :: UpdateRecord(r.Rec(n), r.PSlot(n), r.v)
  }

  /** vc is a message the replica may send on moving to view w. */
  ghost predicate IsMyViewChange(r: Replica, w: View, vc: VC)
    requires r.SlotsWellFormed()
  {
    && vc.view == w && vc.id == r.id && vc.ls == r.lastStable
    && ReportsLog(vc, UpdatedLog(r))
    && forall n :: Ckpt(vc, n).Some? ==> n in r.held && r.held[n] == Ckpt(vc, n).value
  }

  /** send_view_change: leaves the view for a later one and reports what happened. */
  function ChangeView(r: Replica, w: View): Replica
    requires r.SlotsWellFormed()
  {
    r.(v := w, installed := false, plog := map[], clog := map[], oplog := UpdatedLog(r))
  }

  /** The request picked for n: that of the view-change whose word was taken, or a null request. */
  function PickedDigest(nv: NV, n: Seqno): Digest {
    if n in nv.picked && nv.picked[n] in nv.vcs && nv.vcs[nv.picked[n]].ls < n then
      var (cv, cd) := Req(nv.vcs[nv.picked[n]], n);
      if cv >= 0 && cd != NULL_DIGEST then cd else NULL_REQUEST
    else NULL_REQUEST
  }

  /** The checkpoint nv starts from and its range follow the rules. */
  ghost predicate ValidRange(f: nat, nv: NV) {
    && nv.view > 0
    && nv.min < nv.max <= nv.min + MAX_OUT + 1
    && (forall i :: i in nv.vcs ==> nv.vcs[i].view == nv.view && nv.vcs[i].id == i && Verified(nv.vcs[i], 3 * f + 1))
    && ValidStart(f, nv)
    && RangeSelected(f, nv.vcs, nv.max)
  }

  /** So does the request picked for every number of the range. */
  ghost predicate ValidNewView(f: nat, nv: NV) {
    ValidRange(f, nv) && forall n :: nv.min < n < nv.max ==> ValidPick(f, nv, n)
  }

  ghost predicate ValidStart(f: nat, nv: NV) {
    && nv.min in nv.picked && nv.picked[nv.min] in nv.vcs
    && var vc := nv.vcs[nv.picked[nv.min]];
       && vc.ls == nv.min
       && Ckpt(vc, nv.min).Some?
       && CkptSelected(f, nv.vcs, nv.min, Ckpt(vc, nv.min).value)
  }

  ghost predicate ValidPick(f: nat, nv: NV, n: Seqno) {
    && n in nv.picked && nv.picked[n] in nv.vcs
    && var vc := nv.vcs[nv.picked[n]];
       vc.ls < n && ReqSelected(f, nv.vcs, n, Req(vc, n).0, Req(vc, n).1)
  }

  /** Slot n after the request picked for it is installed. */
  function InstallSlot(r: Replica, n: Seqno, d: Digest): PC.PCert
    requires r.SlotsWellFormed()
  {
    if Primary(r.f, r.v) == r.id then PC.AddMyPrePrepare(r.PSlot(n), d)
    else PC.AddOld(PC.AddMyPrepare(r.PSlot(n), Msg(r.id, d, true, true)).0, d)
  }

  /** plog with the requests that nv picked above low. */
  function Installed(r: Replica, nv: NV, low: Seqno): map<Seqno, PC.PCert>
    requires r.SlotsWellFormed()
  {
    r.plog + map n | low < n < nv.max :: InstallSlot(r, n, PickedDigest(nv, n))
  }

  /** The new-view message of the primary stands for a pre-prepare of every request it picked. */
  function Announced(v: View, nv: NV): set<Message> {
    (set n | nv.min < n < nv.max :: PrePrepare(v, n, PickedDigest(nv, n))) + {NewView(nv)}
  }

  /** The prepares of replica id for what nv picked from low on up to max. */
  function Prepares(id: int, v: View, nv: NV, low: Seqno, max: Seqno): set<Message> {
    set n | low < n < max :: Prepare(id, v, n, PickedDigest(nv, n))
  }

  function InstallMessages(r: Replica, nv: NV, low: Seqno): set<Message> {
    if Primary(r.f, r.v) == r.id then Announced(r.v, nv) else Prepares(r.id, r.v, nv, low, nv.max)
  }

  /** The window and bounds with which the requests of nv are installed; ms is known to be stable. */
  function Begun(r: Replica, nv: NV, ms: Seqno): (r': Replica)
    requires r.SlotsWellFormed()
    ensures r'.SlotsWellFormed()
  {
    var r0 := r.(seqno := nv.max - 1, lowBound := Max(nv.min, r.lastStable));
    if ms > r.lastStable then MarkStable(r0, ms) else r0
  }

  /** process_new_view, once nv is complete; hasState says whether min was executed. */
  function ProcessNewView(r: Replica, nv: NV, ms: Seqno, hasState: bool): (Replica, set<Message>)
    requires r.SlotsWellFormed()
  {
    var low, r1 := Max(nv.min, r.lastStable), Begun(r, nv, ms);
    (r1.(installed := true, hasState := hasState, plog := Installed(r1, nv, low)), InstallMessages(r, nv, low))
  }

  /**
   * NV_info::mark_stable: a backup whose stable checkpoint is past the range of
   * nv enters the view without waiting for the requests of the range.
   */
  function TrimNewView(r: Replica, hasState: bool): Replica {
    r.(seqno := r.lastStable - 1, lowBound := r.lastStable, installed := true, hasState := hasState)
  }

  // ------------------------------------------------------------------
  // Garbage collection and state transfer
  // ------------------------------------------------------------------

  function MarkStable(r: Replica, n: Seqno): (r': Replica)
    requires r.SlotsWellFormed() && n > r.lastStable
    ensures r'.SlotsWellFormed()
  {
    r.(lastStable := n,
       lowBound := Max(r.lowBound, n),
       seqno := Max(r.seqno, n),
       plog := Above(r.plog, n), clog := Above(r.clog, n), oplog := Above(r.oplog, n), held := Above(r.held, n - 1))
  }

  /** What truncation leaves of a log. */
  function Above<T>(log: map<Seqno, T>, n: Seqno): map<Seqno, T> {
    map k | k in log && k > n :: log[k]
  }

  /** Moving the window up to n forgets what is at or below n, and nothing above it. */
  lemma StableForgetsBelow(r: Replica, n: Seqno)
    requires r.SlotsWellFormed() && n > r.lastStable
    ensures var r' := MarkStable(r, n);
            && r'.lastStable == n && r'.lowBound >= n && r'.lowBound >= r.lowBound && r'.seqno >= n && r'.seqno >= r.seqno
            && (r'.lowBound == n || r'.lowBound == r.lowBound) && (r'.seqno == n || r'.seqno == r.seqno)
            && r'.f == r.f && r'.id == r.id && r'.v == r.v && r'.installed == r.installed && r'.hasState == r.hasState
            && (forall k :: k > n ==> r'.PSlot(k) == r.PSlot(k) && r'.CSlot(k) == r.CSlot(k) && r'.Rec(k) == r.Rec(k))
            && (forall k :: k <= n ==> k !in r'.plog && k !in r'.clog && k !in r'.oplog)
            && (forall k :: k in r'.held <==> k in r.held && k >= n) && forall k :: k in r'.held ==> r'.held[k] == r.held[k]
  {
  }

  /** new_state: checkpoint c was fetched. */
  function NewState(r: Replica, c: Seqno): Replica {
    r.(hasState := r.hasState || (r.installed && c >= r.lowBound), seqno := Max(r.seqno, c))
  }

  function TakeCheckpoint(r: Replica, n: Seqno, d: Digest): (Replica, set<Message>) {
    (r.(held := r.held[n := d]), {Checkpointed(r.id, n, d)})
  }
}
