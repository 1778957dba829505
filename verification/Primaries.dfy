/**
 * Who leads a view: Node::primary of src/Node.h, and what only the primary may
 * do or may not.
 */
module Primaries {
  import opened Multiples
  import opened Types
  import opened CertificateState
  import PC = PreparedCertState
  import opened ReplicaState

  /** The view in which replica id leads after k rounds: the replicas lead in the order of their ids, over and over. */
  function Turn(f: nat, k: nat, id: int): View {
    k * (3 * f + 1) + id
  }

  lemma NextTurn(f: nat, k: nat, id: int)
    ensures Turn(f, 0, 0) == 0
    ensures Turn(f, k, id + 1) == Turn(f, k, id) + 1 && Turn(f, k + 1, 0) == Turn(f, k, 3 * f) + 1
    ensures Turn(f, k, 0) <= Turn(f, k, id) - id && Turn(f, k + 1, id) == Turn(f, k, id) + (3 * f + 1)
  {
  }

  ghost predicate HasTurn(f: nat, v: View, id: int) {
    exists k: nat :: v == Turn(f, k, id)
  }

  /** The primary of a view is the one replica whose turn it is. */
  lemma PrimaryIs(f: nat, v: View, id: int)
    requires v >= 0 && 0 <= id < 3 * f + 1
    ensures 0 <= Primary(f, v) < 3 * f + 1
    ensures Primary(f, v) == id <==> HasTurn(f, v, id)
  {
    var n := 3 * f + 1;
    if Primary(f, v) == id {
      assert v == Turn(f, v / n, v % n);
    }
    if k: nat :| v == Turn(f, k, id) {
      Remainder(n, k, id);
    }
  }

  /** Replica 0 leads first, and the next view is led by the next replica. */
  lemma NextPrimary(f: nat, v: View)
    requires v >= 0
    ensures Primary(f, 0) == 0
    ensures Primary(f, v + 1) == if Primary(f, v) + 1 < 3 * f + 1 then Primary(f, v) + 1 else 0
  {
    hide Primary, Turn;
    var p := Primary(f, v);
    NextTurn(f, 0, 0);
    PrimaryIs(f, 0, 0);
    PrimaryIs(f, v, 0);
    PrimaryIs(f, v, p);
    var k: nat :| v == Turn(f, k, p);
    NextTurn(f, k, p);
    if p + 1 < 3 * f + 1 {
      assert v + 1 == Turn(f, k, p + 1);
      PrimaryIs(f, v + 1, p + 1);
    } else {
      assert v + 1 == Turn(f, k + 1, 0);
      PrimaryIs(f, v + 1, 0);
    }
  }

  /** Within as many views as there are replicas every one of them leads, a correct one after at most f faulty ones. */
  lemma EveryReplicaLeads(f: nat, v: View, id: int) returns (w: View)
    requires v >= 0 && 0 <= id < 3 * f + 1
    ensures v <= w <= v + 3 * f && Primary(f, w) == id
  {
    hide Primary;
    var p := Primary(f, v);
    PrimaryIs(f, v, 0);
    PrimaryIs(f, v, p);
    var k: nat :| v == Turn(f, k, p);
    w := if id >= p then Turn(f, k, id) else Turn(f, k + 1, id);
    PrimaryIs(f, w, id);
  }

  /** In its turn a replica may propose, and no other may. */
  lemma OnlyPrimaryProposes(r: Replica)
    requires r.v >= 0 && 0 <= r.id < 3 * r.f + 1
    ensures CanPropose(r) <==> HasTurn(r.f, r.v, r.id) && r.InWindow(r.seqno + 1) && r.HasNewView()
  {
    PrimaryIs(r.f, r.v, r.id);
  }

  /** A prepare counts unless it comes from the replica whose turn it is. */
  lemma PrimaryPreparesNot(r: Replica, id: int, view: View, n: Seqno, d: Digest)
    requires r.SlotsWellFormed() && r.v >= 0 && 0 <= id < 3 * r.f + 1
    ensures HasTurn(r.f, r.v, id) ==> HandlePrepare(r, id, view, n, d) == (r, {})
    ensures !HasTurn(r.f, r.v, id) && r.Accepts(view, n) && r.HasNewView() ==>
              HandlePrepare(r, id, view, n, d).0.PSlot(n) == PC.AddPrepare(r.PSlot(n), Msg(id, d, true, true)).0
  {
    PrimaryIs(r.f, r.v, id);
  }

  /** Installing a new view announces what was picked in one's turn, and prepares it otherwise. */
  lemma OnlyPrimaryAnnounces(r: Replica, nv: NV, low: Seqno)
    requires r.v >= 0 && 0 <= r.id < 3 * r.f + 1
    ensures InstallMessages(r, nv, low)
         == if HasTurn(r.f, r.v, r.id) then Announced(r.v, nv) else Prepares(r.id, r.v, nv, low, nv.max)
  {
    PrimaryIs(r.f, r.v, r.id);
  }
}
