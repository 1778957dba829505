/**
 * What a view-change message says: View_change of src/View_change.h and
 * src/View_change.cc, and what View_info::view_change of src/View_info.cc
 * puts into one.
 */
module ViewChangeState {
  import opened Wrappers
  import opened Types
  import opened OldRequestState

  /** ckpts[i] is the digest of checkpoint ls + i * CHECKPOINT_INTERVAL; reqs[i] is about sequence number ls + 1 + i. */
  datatype VC = VC(view: View, id: int, ls: Seqno, ckpts: seq<Digest>, reqs: seq<Record>)

  /** The greatest sequence number the message refers to. */
  function MaxSeqno(vc: VC): Seqno {
    vc.ls + |vc.reqs|
  }

  /** The digest of checkpoint n, if the sender holds it. */
  function Ckpt(vc: VC, n: Seqno): Option<Digest> {
    if n % CHECKPOINT_INTERVAL != 0 || vc.ls > n then None
    else
      var index := (n - vc.ls) / CHECKPOINT_INTERVAL;
      if index >= |vc.ckpts| || vc.ckpts[index] == NULL_DIGEST then None else Some(vc.ckpts[index])
  }

  /** proofs(): what is said about n, unless it is a null request. */
  function Proofs(vc: VC, n: Seqno): Option<Record> {
    var index := n - vc.ls - 1;
    if index < 0 || index >= |vc.reqs| || vc.reqs[index].v < 0 then None else Some(vc.reqs[index])
  }

  /** req(): the view and digest of the prepared request at n, or those of a null request. */
  function Req(vc: VC, n: Seqno): (View, Digest)
    requires n > vc.ls
  {
    var index := n - vc.ls - 1;
    if index >= |vc.reqs| || !vc.reqs[index].prepared then (-1, NULL_DIGEST)
    else (vc.reqs[index].v, vc.reqs[index].d)
  }

  /** The last checkpoint in the message, if there is one. */
  function LastCkpt(vc: VC): Option<(Seqno, Digest)> {
    if vc.ckpts == [] then None
    else Some((vc.ls + (|vc.ckpts| - 1) * CHECKPOINT_INTERVAL, vc.ckpts[|vc.ckpts| - 1]))
  }

  /** It is the greatest number of which the message has a checkpoint. */
  lemma LastCkptIs(vc: VC, replicas: nat)
    requires Verified(vc, replicas)
    ensures LastCkpt(vc) == None <==> forall n :: Ckpt(vc, n) == None
    ensures LastCkpt(vc).Some? ==>
              var (n, d) := LastCkpt(vc).value; Ckpt(vc, n) == Some(d) && forall k :: k > n ==> Ckpt(vc, k) == None
  {
    if LastCkpt(vc).Some? {
      var (n, d) := LastCkpt(vc).value;
      assert (n - vc.ls) / CHECKPOINT_INTERVAL == |vc.ckpts| - 1;
      assert Ckpt(vc, n) == Some(d);
      forall k | k > n ensures Ckpt(vc, k) == None {
        assert k % CHECKPOINT_INTERVAL == 0 ==> (k - vc.ls) / CHECKPOINT_INTERVAL >= |vc.ckpts|;
      }
    }
  }

  /** verify(), authenticity apart. */
  predicate Verified(vc: VC, replicas: nat) {
    && 0 <= vc.id < replicas
    && |vc.reqs| <= MAX_OUT
    && vc.view > 0
    && |vc.ckpts| <= MAX_OUT / CHECKPOINT_INTERVAL + 1
    && (vc.ckpts != [] ==> vc.ckpts[|vc.ckpts| - 1] != NULL_DIGEST)
    && vc.ls >= 0 && vc.ls % CHECKPOINT_INTERVAL == 0
    && forall i :: 0 <= i < |vc.reqs| ==> vc.reqs[i].lv < vc.view && vc.reqs[i].v < vc.view
  }

  /** The message reports the record of n: exactly that record if it says anything, and nothing otherwise. */
  ghost predicate ReportsRecord(vc: VC, n: Seqno, r: Record)
    requires n > vc.ls
  {
    && Proofs(vc, n) == (if r.v >= 0 then Some(r) else None)
    && Req(vc, n) == (if r.prepared then (r.v, r.d) else (-1, NULL_DIGEST))
    && (r.v >= 0 ==> n <= MaxSeqno(vc))
  }

  /** The message of a replica with the given log: what its window holds and nothing beyond. */
  ghost predicate ReportsLog(vc: VC, log: map<Seqno, Record>) {
    && |vc.reqs| <= MAX_OUT
    && (forall n :: vc.ls < n <= vc.ls + MAX_OUT ==>
          ReportsRecord(vc, n, if n in log then log[n] else EMPTY_RECORD))
    && (|vc.reqs| > 0 ==> MaxSeqno(vc) in log && log[MaxSeqno(vc)].v >= 0)
  }
}
