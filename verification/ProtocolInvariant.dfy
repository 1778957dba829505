/**
 * What every reachable state of the group keeps, and how each part of it
 * survives new messages.  Each part is stated over the pieces of a replica it
 * is about, so that a step leaves alone the parts it does not touch.
 */
module ProtocolInvariant {
  import opened Wrappers
  import opened Types
  import opened CertificateState
  import PC = PreparedCertState
  import opened OldRequestState
  import opened ViewChangeState
  import opened ReplicaState
  import opened Protocol

  // ------------------------------------------------------------------
  // Votes and quorums
  // ------------------------------------------------------------------

  /** Replica id stood behind digest d at n in view v: by a prepare, or by a pre-prepare as primary. */
  predicate VoteSent(f: nat, msgs: set<Message>, id: int, v: View, n: Seqno, d: Digest) {
    Prepare(id, v, n, d) in msgs || (id == Primary(f, v) && PrePrepare(v, n, d) in msgs)
  }

  function Backers(g: Group, msgs: set<Message>, v: View, n: Seqno, d: Digest): set<int> {
    set id | 0 <= id < 3 * g.f + 1 && (id in g.faulty || VoteSent(g.f, msgs, id, v, n, d))
  }

  /** 2f + 1 replicas stand behind d, faulty ones standing behind anything. */
  predicate QuorumPrepared(g: Group, msgs: set<Message>, v: View, n: Seqno, d: Digest) {
    |Backers(g, msgs, v, n, d)| >= 2 * g.f + 1
  }

  function Committers(g: Group, msgs: set<Message>, v: View, n: Seqno): set<int> {
    set id | 0 <= id < 3 * g.f + 1 && (id in g.faulty || Commit(id, v, n) in msgs)
  }

  predicate QuorumCommitted(g: Group, msgs: set<Message>, v: View, n: Seqno) {
    |Committers(g, msgs, v, n)| >= 2 * g.f + 1
  }

  // ------------------------------------------------------------------
  // The log of the current view
  // ------------------------------------------------------------------

  function PPAt(plog: map<Seqno, PC.PCert>, n: Seqno): Option<Digest> {
    if n in plog then plog[n].pp else None
  }

  predicate CompleteAt(plog: map<Seqno, PC.PCert>, n: Seqno) {
    n in plog && plog[n].WellFormed() && plog[n].IsComplete()
  }

  /** The votes of a certificate are prepares that were sent, none by the primary. */
  ghost predicate PreparesSent(f: nat, msgs: set<Message>, v: View, n: Seqno, seen: map<int, Digest>) {
    forall id :: id in seen ==> id != Primary(f, v) && Prepare(id, v, n, seen[id]) in msgs
  }

  ghost predicate CertOK(g: Group, msgs: set<Message>, id: int, v: View, n: Seqno, pc: CertState<Digest>) {
    && pc.WellFormed() && pc.f == g.f && pc.me == id && pc.complete == 2 * g.f
    && exists seen :: Inv(pc, seen) && PreparesSent(g.f, msgs, v, n, seen)
  }

  /** A logged pre-prepare is one the primary sent, unless the primary is faulty. */
  ghost predicate PPOK(g: Group, msgs: set<Message>, v: View, n: Seqno, pp: Option<Digest>) {
    pp.Some? ==>
      pp.value != NULL_DIGEST && (Primary(g.f, v) in g.faulty || PrePrepare(v, n, pp.value) in msgs)
  }

  ghost predicate Slots(g: Group, msgs: set<Message>, id: int, v: View, plog: map<Seqno, PC.PCert>) {
    forall n :: n in plog ==>
      && CertOK(g, msgs, id, v, n, plog[n].pc)
      && PPOK(g, msgs, v, n, plog[n].pp)
      && (plog[n].primary ==> id == Primary(g.f, v))
  }

  ghost predicate CommitsSent(msgs: set<Message>, v: View, n: Seqno, seen: map<int, ()>) {
    forall id :: id in seen ==> Commit(id, v, n) in msgs
  }

  ghost predicate CommitCertOK(g: Group, msgs: set<Message>, id: int, v: View, n: Seqno, cs: CertState<()>) {
    && cs.WellFormed() && cs.f == g.f && cs.me == id && cs.complete == 2 * g.f + 1
    && exists seen :: Inv(cs, seen) && CommitsSent(msgs, v, n, seen)
  }

  /** A replica logs its own commit only for a slot that prepared. */
  ghost predicate CommitSlots(g: Group, msgs: set<Message>, id: int, v: View,
                              clog: map<Seqno, CertState<()>>, plog: map<Seqno, PC.PCert>) {
    forall n :: n in clog ==>
      && CommitCertOK(g, msgs, id, v, n, clog[n])
      && (clog[n].mine.Some? ==> CompleteAt(plog, n))
  }

  // ------------------------------------------------------------------
  // What a correct replica has sent
  // ------------------------------------------------------------------

  ghost predicate SentPrepares(f: nat, msgs: set<Message>, id: int, v: View, ready: bool,
                               lastStable: Seqno, plog: map<Seqno, PC.PCert>) {
    forall u, n, d :: Prepare(id, u, n, d) in msgs ==>
      && u <= v && d != NULL_DIGEST && id != Primary(f, u)
      && (u == v ==> ready && (n <= lastStable || PPAt(plog, n) == Some(d)))
  }

  ghost predicate SentPrePrepares(f: nat, msgs: set<Message>, id: int, v: View, ready: bool,
                                  seqno: Seqno, lastStable: Seqno, plog: map<Seqno, PC.PCert>) {
    forall u, n, d :: PrePrepare(u, n, d) in msgs && Primary(f, u) == id ==>
      && u <= v && d != NULL_DIGEST
      && (u == v ==> ready && n <= seqno && (n <= lastStable || PPAt(plog, n) == Some(d)))
  }

  /** A correct replica stands behind one digest per view and sequence number. */
  ghost predicate OneVote(f: nat, msgs: set<Message>, id: int) {
    forall u, n, d, d' :: VoteSent(f, msgs, id, u, n, d) && VoteSent(f, msgs, id, u, n, d') ==> d == d'
  }

  ghost predicate PreparedSomething(g: Group, msgs: set<Message>, v: View, n: Seqno) {
    exists d :: QuorumPrepared(g, msgs, v, n, d)
  }

  ghost predicate SentCommits(g: Group, msgs: set<Message>, id: int, v: View,
                              lastStable: Seqno, plog: map<Seqno, PC.PCert>) {
    forall u, n :: Commit(id, u, n) in msgs ==>
      && u <= v && n <= lastStable + MAX_OUT
      && PreparedSomething(g, msgs, u, n)
      && (u == v ==> n <= lastStable || CompleteAt(plog, n))
  }

  // ------------------------------------------------------------------
  // Histories of old views
  // ------------------------------------------------------------------

  /** An event stands for votes: the replica's own, or those of a quorum; of a quorum if it prepared. */
  ghost predicate EventOK(g: Group, msgs: set<Message>, id: int, n: Seqno, e: Event) {
    && (VoteSent(g.f, msgs, id, e.view, n, e.d) || QuorumPrepared(g, msgs, e.view, n, e.d))
    && (e.prepared ==> QuorumPrepared(g, msgs, e.view, n, e.d))
  }

  ghost predicate PreparedIn(events: seq<Event>, u: View) {
    exists k :: 0 <= k < |events| && events[k].view == u && events[k].prepared
  }

  /** The events before view v account for every commit sent by then. */
  ghost predicate TrueHistory(g: Group, msgs: set<Message>, id: int, v: View, n: Seqno, events: seq<Event>) {
    && IsHistory(events)
    && (forall k :: 0 <= k < |events| ==> events[k].view < v && EventOK(g, msgs, id, n, events[k]))
    && forall u :: u < v && Commit(id, u, n) in msgs ==> PreparedIn(events, u)
  }

  ghost predicate HasHistory(g: Group, msgs: set<Message>, id: int, v: View, n: Seqno, rec: Record) {
    exists events :: TrueHistory(g, msgs, id, v, n, events) && Replay(events) == rec
  }

  function RecAt(oplog: map<Seqno, Record>, n: Seqno): Record {
    if n in oplog then oplog[n] else EMPTY_RECORD
  }

  ghost predicate Histories(g: Group, msgs: set<Message>, id: int, v: View,
                            lastStable: Seqno, oplog: map<Seqno, Record>) {
    forall n :: n > lastStable ==> HasHistory(g, msgs, id, v, n, RecAt(oplog, n))
  }

  /** What a view-change says of n is the summary of a true history. */
  ghost predicate TrueReport(g: Group, msgs: set<Message>, vc: VC, n: Seqno)
    requires n > vc.ls
  {
    exists events :: TrueHistory(g, msgs, vc.id, vc.view, n, events) && ReportsRecord(vc, n, Replay(events))
  }

  ghost predicate HeldTaken(msgs: set<Message>, id: int, held: map<Seqno, Digest>) {
    forall n :: n in held ==> held[n] != NULL_DIGEST && Checkpointed(id, n, held[n]) in msgs
  }

  /** A view-change names only checkpoints that its sender took. */
  ghost predicate SentCkpts(msgs: set<Message>, id: int) {
    forall vc, n :: ViewChange(vc) in msgs && vc.id == id && Ckpt(vc, n).Some? ==>
      Checkpointed(id, n, Ckpt(vc, n).value) in msgs
  }

  ghost predicate SentViewChanges(g: Group, msgs: set<Message>, id: int, v: View) {
    forall vc :: ViewChange(vc) in msgs && vc.id == id ==>
      vc.view <= v && forall n :: n > vc.ls ==> TrueReport(g, msgs, vc, n)
  }

  // ------------------------------------------------------------------
  // New views
  // ------------------------------------------------------------------

  ghost predicate GoodNewView(g: Group, msgs: set<Message>, v: View, nv: NV) {
    NewView(nv) in msgs && nv.view == v && ValidRange(g.f, nv) && Received(msgs, nv)
  }

  /** A vote is for a request the new view picked by the rules, or for a number above all of them. */
  ghost predicate AllowedBy(f: nat, nv: NV, n: Seqno, d: Digest) {
    n >= nv.max || (nv.min < n < nv.max && ValidPick(f, nv, n) && d == PickedDigest(nv, n))
  }

  ghost predicate Allowed(g: Group, msgs: set<Message>, v: View, n: Seqno, d: Digest) {
    exists nv :: GoodNewView(g, msgs, v, nv) && AllowedBy(g.f, nv, n, d)
  }

  ghost predicate AllowedVotes(g: Group, msgs: set<Message>, id: int) {
    forall v, n, d :: v > 0 && VoteSent(g.f, msgs, id, v, n, d) ==> Allowed(g, msgs, v, n, d)
  }

  /** A new-view message stands for the pre-prepares of its picks. */
  ghost predicate SentNewViews(f: nat, msgs: set<Message>, id: int) {
    forall nv, n :: NewView(nv) in msgs && Primary(f, nv.view) == id && nv.min < n < nv.max ==>
      PrePrepare(nv.view, n, PickedDigest(nv, n)) in msgs
  }

  /** nv is in force: its picks are logged and nothing else may be accepted below its max. */
  ghost predicate InForce(g: Group, msgs: set<Message>, id: int, v: View, lowBound: Seqno, seqno: Seqno,
                          plog: map<Seqno, PC.PCert>, nv: NV) {
    && GoodNewView(g, msgs, v, nv)
    && lowBound >= nv.min
    && (forall n :: lowBound < n < nv.max ==> ValidPick(g.f, nv, n) && PPAt(plog, n) == Some(PickedDigest(nv, n)))
    && seqno >= nv.max - 1
  }

  ghost predicate Ruled(g: Group, msgs: set<Message>, id: int, v: View, installed: bool, lowBound: Seqno,
                        seqno: Seqno, plog: map<Seqno, PC.PCert>) {
    v > 0 && installed ==> exists nv :: InForce(g, msgs, id, v, lowBound, seqno, plog, nv)
  }

  // ------------------------------------------------------------------
  // The whole invariant
  // ------------------------------------------------------------------

  ghost predicate Core(g: Group, id: int, r: Replica) {
    && r.f == g.f && r.id == id && r.v >= 0
    && r.lowBound >= r.lastStable >= 0
    && (forall n :: n in r.plog ==> r.InWindow(n))
    && (forall n :: n in r.clog ==> r.InWindow(n))
    && (forall n :: n in r.oplog ==> r.InWindow(n))
    && (r.v > 0 && !r.installed ==> r.plog == map[])
  }

  /** The primary has nothing logged above the last number it assigned. */
  ghost predicate PrimaryBound(f: nat, id: int, v: View, seqno: Seqno, plog: map<Seqno, PC.PCert>) {
    id == Primary(f, v) ==> forall n :: n in plog && plog[n].pp.Some? ==> n <= seqno
  }

  predicate Ready(r: Replica) {
    r.v == 0 || r.installed
  }

  ghost predicate LogInv(g: Group, msgs: set<Message>, id: int, r: Replica) {
    && Slots(g, msgs, id, r.v, r.plog)
    && CommitSlots(g, msgs, id, r.v, r.clog, r.plog)
    && PrimaryBound(g.f, id, r.v, r.seqno, r.plog)
  }

  ghost predicate SentInv(g: Group, msgs: set<Message>, id: int, r: Replica) {
    && SentPrepares(g.f, msgs, id, r.v, Ready(r), r.lastStable, r.plog)
    && SentPrePrepares(g.f, msgs, id, r.v, Ready(r), r.seqno, r.lastStable, r.plog)
    && OneVote(g.f, msgs, id)
    && SentCommits(g, msgs, id, r.v, r.lastStable, r.plog)
  }

  ghost predicate PastInv(g: Group, msgs: set<Message>, id: int, r: Replica) {
    && Histories(g, msgs, id, r.v, r.lastStable, r.oplog)
    && SentViewChanges(g, msgs, id, r.v)
    && HeldTaken(msgs, id, r.held)
    && SentCkpts(msgs, id)
  }

  ghost predicate ViewInv(g: Group, msgs: set<Message>, id: int, r: Replica) {
    && AllowedVotes(g, msgs, id)
    && SentNewViews(g.f, msgs, id)
    && Ruled(g, msgs, id, r.v, r.installed, r.lowBound, r.seqno, r.plog)
  }

  ghost predicate ReplicaInv(g: Group, msgs: set<Message>, id: int, r: Replica) {
    && Core(g, id, r)
    && LogInv(g, msgs, id, r)
    && SentInv(g, msgs, id, r)
    && PastInv(g, msgs, id, r)
    && ViewInv(g, msgs, id, r)
  }

  ghost predicate SystemInv(g: Group, s: System) {
    && |s.reps| == 3 * g.f + 1
    && forall i :: g.Correct(i) ==> ReplicaInv(g, s.msgs, i, s.reps[i])
  }
}
