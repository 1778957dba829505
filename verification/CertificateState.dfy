/**
 * Quorum counting: Certificate<T> of src/Certificate.h and src/Certificate.t.
 *
 * Message contents are a type V whose equality is the source's match(), an
 * equivalence.  CertState is the value of a certificate; the functions say
 * what each operation makes of it, the lemmas say what every run of them
 * keeps, and class Certificate is the in-place form proved to compute them.
 */
module CertificateState {
  import opened Wrappers
  import opened Quorums

  /** A message: its sender, the value that match() compares, full(), and whether it is authentic. */
  datatype Msg<V> = Msg(id: int, val: V, full: bool, authentic: bool)

  /** One distinct value held by a certificate and the number of messages counted for it. */
  datatype MessageVal<V> = MessageVal(m: Msg<V>, count: nat)

  datatype CertState<V> = CertState(
    f: nat, me: int, complete: nat,
    vals: seq<MessageVal<V>>, bmap: set<int>, c: Option<nat>, mine: Option<Msg<V>>)
  {
    predicate WellFormed() {
      c.Some? ==> c.value < |vals|
    }

    function NumCorrect(): nat
      requires WellFormed()
    {
      if c.Some? then vals[c.value].count else 0
    }

    predicate IsComplete()
      requires WellFormed()
    {
      NumCorrect() >= complete
    }

    /** The value known to be correct, if any. */
    function CValue(): Option<Msg<V>>
      requires WellFormed()
    {
      if c.Some? then Some(vals[c.value].m) else None
    }

    function Cleared(): CertState<V> {
      this.(vals := [], bmap := {}, c := None, mine := None)
    }

    /** verify(): authentic, and never from the calling replica itself. */
    predicate Verified(m: Msg<V>) {
      m.authentic && m.id != me
    }
  }

  function EmptyCert<V>(f: nat, me: int, complete: nat): CertState<V> {
    CertState(f, me, complete, [], {}, None, None)
  }

  predicate HasVal<V(==)>(vals: seq<MessageVal<V>>, v: V) {
    exists i :: 0 <= i < |vals| && vals[i].m.val == v
  }

  function FindFrom<V(==)>(vals: seq<MessageVal<V>>, v: V, from: nat): (i: nat)
    requires from <= |vals|
    ensures from <= i <= |vals|
    ensures i < |vals| ==> vals[i].m.val == v
    ensures forall j :: from <= j < i ==> vals[j].m.val != v
    decreases |vals| - from
  {
    if from == |vals| || vals[from].m.val == v then from else FindFrom(vals, v, from + 1)
  }

  /** The index of the first stored value that matches v, or |vals| if there is none. */
  function FindVal<V(==)>(vals: seq<MessageVal<V>>, v: V): (i: nat)
    ensures i <= |vals|
    ensures i < |vals| ==> vals[i].m.val == v
    ensures forall j :: 0 <= j < i ==> vals[j].m.val != v
  {
    FindFrom(vals, v, 0)
  }

  /** Counts m for entry i, keeping the fuller of the two messages. */
  function Bump<V>(vals: seq<MessageVal<V>>, i: nat, m: Msg<V>): (r: seq<MessageVal<V>>)
    requires i < |vals|
    ensures |r| == |vals|
  {
    var cur := vals[i];
    var kept := if !cur.m.full && m.full then m else cur.m;
    vals[i := MessageVal(kept, cur.count + 1)]
  }

  /** m becomes one more vote for entry i. */
  function Counted<V>(s: CertState<V>, i: nat, m: Msg<V>): CertState<V>
    requires i < |s.vals|
  {
    s.(bmap := s.bmap + {m.id}, vals := Bump(s.vals, i, m))
  }

  /** m brings a value that no entry has. */
  function Appended<V>(s: CertState<V>, m: Msg<V>): CertState<V> {
    s.(bmap := s.bmap + {m.id}, vals := s.vals + [MessageVal(m, 1)])
  }

  /** The message of the calling replica takes entry i, with count other votes. */
  function Owned<V>(s: CertState<V>, i: nat, m: Msg<V>, count: nat): CertState<V>
    requires i < |s.vals|
  {
    s.(vals := s.vals[i := MessageVal(m, count + 1)], c := Some(i), mine := Some(m))
  }

  /** What a new message makes of a certificate whose correct value is unknown. */
  function Tally<V(==)>(s: CertState<V>, m: Msg<V>): (r: (CertState<V>, bool))
    requires s.WellFormed() && s.c.None?
    ensures r.0.WellFormed()
  {
    var i := FindVal(s.vals, m.val);
    if i < |s.vals| then
      var r := Counted(s, i, m);
      (if r.vals[i].count >= s.f + 1 then r.(c := Some(i)) else r, true)
    else if |s.vals| < s.f + 1 then
      (Appended(s, m), true)
    else
      // The values disagree too much to trust any: start over.
      (s.Cleared(), false)
  }

  function Add<V(==)>(s: CertState<V>, m: Msg<V>): (r: (CertState<V>, bool))
    requires s.WellFormed()
    ensures r.0.WellFormed()
  {
    if !(0 <= m.id < 3 * s.f + 1) || m.id in s.bmap || !s.Verified(m) then
      (s, false)
    else if s.c.None? then
      Tally(s, m)
    else if s.NumCorrect() < s.complete && s.vals[s.c.value].m.val == m.val then
      (Counted(s, s.c.value, m), true)
    else
      (s.(bmap := s.bmap + {m.id}), false)
  }

  function AddMine<V(==)>(s: CertState<V>, m: Msg<V>): (r: (CertState<V>, bool))
    requires s.WellFormed()
    ensures r.0.WellFormed()
  {
    if s.c.Some? && s.vals[s.c.value].m.val != m.val then
      (s, false)
    else
      var i := if s.c.Some? then s.c.value else FindVal(s.vals, m.val);
      if i < |s.vals| then
        (Owned(s, i, m, s.vals[i].count), true)
      else if s.vals == [] then
        (s.(vals := [MessageVal(m, 1)], c := Some(0), mine := Some(m)), true)
      else
        // No stored value matches: the first one gives way to mine.
        (Owned(s, 0, m, 0), true)
  }

  function MarkStale<V>(s: CertState<V>): (r: CertState<V>)
    requires s.WellFormed()
    ensures r.WellFormed()
  {
    if s.IsComplete() then s
    else if s.mine.Some? then
      s.(vals := [MessageVal(s.mine.value, 1)], bmap := {}, c := Some(0))
    else
      s.Cleared()
  }

  /** Removes and returns the correct value, clearing the rest; does nothing while it is unknown. */
  function CValueClear<V>(s: CertState<V>): (r: (CertState<V>, Option<Msg<V>>))
    requires s.WellFormed()
    ensures r.0.WellFormed()
  {
    if s.c.None? then (s, None) else (s.Cleared(), s.CValue())
  }

  // ------------------------------------------------------------------
  // What every run keeps
  // ------------------------------------------------------------------

  /** The operations of a certificate. */
  datatype Op<V> =
    | OpAdd(m: Msg<V>)
    | OpAddMine(m: Msg<V>)
    | OpMarkStale
    | OpClear
    | OpCValueClear

  /** What the source demands of the caller of each operation. */
  predicate Legal<V(==)>(s: CertState<V>, op: Op<V>) {
    op.OpAddMine? ==> op.m.id == s.me && op.m.full && s.mine.None?
  }

  function Apply<V(==)>(s: CertState<V>, op: Op<V>): (r: CertState<V>)
    requires s.WellFormed()
    ensures r.WellFormed() && r.f == s.f && r.me == s.me && r.complete == s.complete
  {
    match op
    case OpAdd(m) => Add(s, m).0
    case OpAddMine(m) => AddMine(s, m).0
    case OpMarkStale => MarkStale(s)
    case OpClear => s.Cleared()
    case OpCValueClear => CValueClear(s).0
  }

  /**
   * The votes a certificate stands for: the value of the first authentic
   * message of each replica since the certificate was last emptied.  It is
   * kept apart from the certificate, which forgets who sent what.
   */
  function Observe<V(==)>(s: CertState<V>, seen: map<int, V>, op: Op<V>): map<int, V>
    requires s.WellFormed()
  {
    var r := Apply(s, op);
    match op
    case OpAdd(m) =>
      if m.id in s.bmap || m.id !in Replicas(s.f) || !s.Verified(m) then seen
      else if m.id in r.bmap then seen[m.id := m.val]
      else map[]
    case OpAddMine(m) => if AddMine(s, m).1 then seen[m.id := m.val] else seen
    case OpMarkStale =>
      if s.IsComplete() then seen
      else if s.mine.Some? then map[s.me := s.mine.value.val] else map[]
    case OpClear => map[]
    case OpCValueClear => if s.c.Some? then map[] else seen
  }

  function Voters<V(==)>(seen: map<int, V>, v: V): set<int> {
    set id | id in seen && seen[id] == v
  }

  function SumCounts<V>(vals: seq<MessageVal<V>>): nat {
    if vals == [] then 0 else vals[0].count + SumCounts(vals[1..])
  }

  ghost predicate Distinct<V>(vals: seq<MessageVal<V>>) {
    forall i, j :: 0 <= i < j < |vals| ==> vals[i].m.val != vals[j].m.val
  }

  /** Every stored value is counted once for each replica that voted for it. */
  ghost predicate Tallied<V>(vals: seq<MessageVal<V>>, seen: map<int, V>) {
    forall i :: 0 <= i < |vals| ==> vals[i].count == |Voters(seen, vals[i].m.val)|
  }

  /** Every vote seen is stored, so none is lost before the correct value is known. */
  ghost predicate Covered<V>(vals: seq<MessageVal<V>>, seen: map<int, V>) {
    forall id :: id in seen ==> HasVal(vals, seen[id])
  }

  ghost predicate Undecided<V>(s: CertState<V>, seen: map<int, V>) {
    && s.mine.None?
    && SumCounts(s.vals) == |s.bmap|
    && Tallied(s.vals, seen)
    && Covered(s.vals, seen)
    && forall i :: 0 <= i < |s.vals| ==> 1 <= s.vals[i].count <= s.f
  }

  /** No stored value is counted more often than there are replicas that voted for it. */
  ghost predicate Bounded<V>(vals: seq<MessageVal<V>>, seen: map<int, V>) {
    forall i :: 0 <= i < |vals| ==> vals[i].count <= |Voters(seen, vals[i].m.val)|
  }

  ghost predicate Best<V>(best: MessageVal<V>, seen: map<int, V>, complete: nat) {
    && 1 <= best.count
    && (best.count < complete ==> best.count == |Voters(seen, best.m.val)|)
  }

  ghost predicate Decided<V>(s: CertState<V>, seen: map<int, V>)
    requires s.c.Some?
  {
    && s.c.value < |s.vals|
    && Bounded(s.vals, seen)
    && Best(s.vals[s.c.value], seen, s.complete)
    && match s.mine {
       case None => s.vals[s.c.value].count >= s.f + 1
       case Some(m) => s.vals[s.c.value].m == m && m.full && m.id == s.me
       }
  }

  ghost predicate Shape<V>(s: CertState<V>, seen: map<int, V>) {
    && s.me !in s.bmap
    && (forall id :: id in s.bmap ==> 0 <= id < 3 * s.f + 1)
    && |s.vals| <= s.f + 1
    && Distinct(s.vals)
    && seen.Keys == s.bmap + (if s.mine.Some? then {s.me} else {})
    && (s.mine.Some? ==> seen[s.me] == s.mine.value.val)
  }

  /** The invariant of a certificate, relative to the votes it has seen. */
  ghost predicate Inv<V>(s: CertState<V>, seen: map<int, V>) {
    && s.f >= 1
    && Shape(s, seen)
    && (if s.c.Some? then Decided(s, seen) else Undecided(s, seen))
  }

  lemma InvInit<V>(f: nat, me: int, complete: nat)
    requires f >= 1
    ensures Inv(EmptyCert<V>(f, me, complete), map[])
  {
    var s := EmptyCert<V>(f, me, complete);
    assert s.vals == [];
  }

  lemma VotersExtend<V>(seen: map<int, V>, id: int, v: V, w: V)
    requires id !in seen
    ensures Voters(seen[id := v], w) == if v == w then Voters(seen, w) + {id} else Voters(seen, w)
    ensures |Voters(seen[id := v], w)| == |Voters(seen, w)| + if v == w then 1 else 0
  {
    assert id !in Voters(seen, w);
    assert Voters(seen[id := v], w) == if v == w then Voters(seen, w) + {id} else Voters(seen, w);
  }

  lemma {:induction false} SumUpdate<V>(vals: seq<MessageVal<V>>, i: nat, x: MessageVal<V>)
    requires i < |vals|
    ensures SumCounts(vals[i := x]) == SumCounts(vals) - vals[i].count + x.count
  {
    if i == 0 {
      assert vals[0 := x][1..] == vals[1..];
    } else {
      SumUpdate(vals[1..], i - 1, x);
      assert vals[i := x][1..] == vals[1..][i - 1 := x];
    }
  }

  lemma {:induction false} SumAppend<V>(vals: seq<MessageVal<V>>, x: MessageVal<V>)
    ensures SumCounts(vals + [x]) == SumCounts(vals) + x.count
  {
    if vals == [] {
      assert vals + [x] == [x];
    } else {
      SumAppend(vals[1..], x);
      assert (vals + [x])[1..] == vals[1..] + [x];
    }
  }

  lemma BumpDistinct<V>(vals: seq<MessageVal<V>>, i: nat, m: Msg<V>)
    requires i < |vals| && Distinct(vals) && vals[i].m.val == m.val
    ensures Distinct(Bump(vals, i, m))
  {
  }

  lemma BumpTallied<V>(vals: seq<MessageVal<V>>, seen: map<int, V>, i: nat, m: Msg<V>, id: int)
    requires i < |vals| && vals[i].m.val == m.val && id !in seen
    requires Distinct(vals) && Tallied(vals, seen)
    ensures Tallied(Bump(vals, i, m), seen[id := m.val])
  {
    forall j | 0 <= j < |vals|
      ensures Bump(vals, i, m)[j].count == |Voters(seen[id := m.val], vals[j].m.val)|
    {
      VotersExtend(seen, id, m.val, vals[j].m.val);
    }
  }

  lemma BoundedGrows<V>(vals: seq<MessageVal<V>>, seen: map<int, V>, v: V, id: int)
    requires id !in seen && Bounded(vals, seen)
    ensures Bounded(vals, seen[id := v])
  {
    forall j | 0 <= j < |vals| ensures vals[j].count <= |Voters(seen[id := v], vals[j].m.val)| {
      VotersExtend(seen, id, v, vals[j].m.val);
    }
  }

  /** Entry i may be replaced by one that counts at most the voters of its own value. */
  lemma BoundedUpdate<V>(vals: seq<MessageVal<V>>, seen: map<int, V>, i: nat, x: MessageVal<V>)
    requires i < |vals| && Bounded(vals, seen) && x.count <= |Voters(seen, x.m.val)|
    ensures Bounded(vals[i := x], seen)
  {
  }

  lemma TalliedBounded<V>(vals: seq<MessageVal<V>>, seen: map<int, V>)
    requires Tallied(vals, seen)
    ensures Bounded(vals, seen)
  {
  }

  lemma BumpCovered<V>(vals: seq<MessageVal<V>>, seen: map<int, V>, i: nat, m: Msg<V>, id: int)
    requires i < |vals| && vals[i].m.val == m.val
    requires Covered(vals, seen)
    ensures Covered(Bump(vals, i, m), seen[id := m.val])
    ensures SumCounts(Bump(vals, i, m)) == SumCounts(vals) + 1
  {
    var r, seen' := Bump(vals, i, m), seen[id := m.val];
    SumUpdate(vals, i, r[i]);
    forall k | k in seen' ensures HasVal(r, seen'[k]) {
      var j :| 0 <= j < |vals| && vals[j].m.val == seen'[k];
      assert r[j].m.val == seen'[k];
    }
  }

  lemma AppendDistinct<V>(vals: seq<MessageVal<V>>, m: Msg<V>)
    requires Distinct(vals) && !HasVal(vals, m.val)
    ensures Distinct(vals + [MessageVal(m, 1)])
  {
  }

  lemma AppendTallied<V>(vals: seq<MessageVal<V>>, seen: map<int, V>, m: Msg<V>, id: int)
    requires !HasVal(vals, m.val) && Voters(seen, m.val) == {} && id !in seen
    requires Distinct(vals) && Tallied(vals, seen) && Covered(vals, seen)
    ensures Tallied(vals + [MessageVal(m, 1)], seen[id := m.val])
  {
    var r := vals + [MessageVal(m, 1)];
    forall j | 0 <= j < |r|
      ensures r[j].count == |Voters(seen[id := m.val], r[j].m.val)|
    {
      VotersExtend(seen, id, m.val, r[j].m.val);
    }
  }

  lemma AppendCovered<V>(vals: seq<MessageVal<V>>, seen: map<int, V>, m: Msg<V>, id: int)
    requires Covered(vals, seen)
    ensures Covered(vals + [MessageVal(m, 1)], seen[id := m.val])
  {
    var r, seen' := vals + [MessageVal(m, 1)], seen[id := m.val];
    forall k | k in seen' ensures HasVal(r, seen'[k]) {
      if k == id {
        assert r[|vals|].m.val == m.val;
      } else {
        var j :| 0 <= j < |vals| && vals[j].m.val == seen[k];
        assert r[j].m.val == seen[k];
      }
    }
  }

  /** A value that is not stored has no voter while every vote is covered. */
  lemma NewValueHasNoVoter<V>(vals: seq<MessageVal<V>>, seen: map<int, V>, v: V)
    requires Covered(vals, seen) && !HasVal(vals, v)
    ensures Voters(seen, v) == {}
  {
    forall id | id in seen ensures seen[id] != v {
      assert HasVal(vals, seen[id]);
    }
  }

  ghost predicate Votable<V>(s: CertState<V>, m: Msg<V>) {
    0 <= m.id < 3 * s.f + 1 && m.id !in s.bmap && s.Verified(m)
  }

  lemma ShapeFacts<V>(s: CertState<V>, seen: map<int, V>)
    requires Shape(s, seen)
    ensures Distinct(s.vals) && s.me !in s.bmap
    ensures seen.Keys <= s.bmap + {s.me}
    ensures s.mine.None? ==> seen.Keys == s.bmap
  {
  }

  lemma InvFacts<V>(s: CertState<V>, seen: map<int, V>)
    requires Inv(s, seen)
    ensures s.f >= 1 && s.me !in s.bmap
    ensures s.mine.Some? ==> s.c.Some?
  {
  }

  lemma InvBounded<V>(s: CertState<V>, seen: map<int, V>)
    requires Inv(s, seen)
    ensures Bounded(s.vals, seen)
  {
    hide Shape;
    if s.c.None? {
      TalliedBounded(s.vals, seen);
    }
  }

  lemma BoundedCount<V>(vals: seq<MessageVal<V>>, seen: map<int, V>, i: nat)
    requires Bounded(vals, seen) && i < |vals|
    ensures vals[i].count <= |Voters(seen, vals[i].m.val)|
  {
  }

  lemma ShapeIgnoresC<V>(s: CertState<V>, seen: map<int, V>, c: Option<nat>)
    requires Shape(s, seen)
    ensures Shape(s.(c := c), seen)
  {
  }

  lemma CountedShape<V>(s: CertState<V>, seen: map<int, V>, i: nat, m: Msg<V>)
    requires Shape(s, seen) && Votable(s, m) && i < |s.vals| && s.vals[i].m.val == m.val
    ensures Shape(Counted(s, i, m), seen[m.id := m.val])
  {
    hide Distinct;
    BumpDistinct(s.vals, i, m);
  }

  lemma AppendedShape<V>(s: CertState<V>, seen: map<int, V>, m: Msg<V>)
    requires Shape(s, seen) && Votable(s, m) && |s.vals| < s.f + 1 && !HasVal(s.vals, m.val)
    ensures Shape(Appended(s, m), seen[m.id := m.val])
  {
    hide Distinct, HasVal;
    AppendDistinct(s.vals, m);
  }

  lemma OwnedShape<V>(s: CertState<V>, seen: map<int, V>, i: nat, m: Msg<V>, count: nat)
    requires Shape(s, seen) && s.mine.None? && i < |s.vals| && m.id == s.me
    requires s.vals[i].m.val == m.val || !HasVal(s.vals, m.val)
    ensures Shape(Owned(s, i, m, count), seen[s.me := m.val])
  {
  }

  /** A message that matches entry i is counted there; f + 1 of them make the value correct. */
  lemma InvCountVote<V>(s: CertState<V>, seen: map<int, V>, i: nat, m: Msg<V>)
    requires Inv(s, seen) && s.c.None? && Votable(s, m)
    requires i < |s.vals| && s.vals[i].m.val == m.val
    ensures var r := Counted(s, i, m);
            Inv(if r.vals[i].count >= s.f + 1 then r.(c := Some(i)) else r, seen[m.id := m.val])
  {
    hide Shape, Covered, Bounded;
    var r := Counted(s, i, m);
    CountedShape(s, seen, i, m);
    ShapeIgnoresC(r, seen[m.id := m.val], Some(i));
    ShapeFacts(s, seen);
    BumpTallied(s.vals, seen, i, m, m.id);
    BumpCovered(s.vals, seen, i, m, m.id);
    TalliedBounded(r.vals, seen[m.id := m.val]);
  }

  lemma InvNewValue<V>(s: CertState<V>, seen: map<int, V>, m: Msg<V>)
    requires Inv(s, seen) && s.c.None? && Votable(s, m)
    requires |s.vals| < s.f + 1 && !HasVal(s.vals, m.val)
    ensures Inv(Appended(s, m), seen[m.id := m.val])
  {
    hide Shape, Covered, HasVal;
    AppendedShape(s, seen, m);
    ShapeFacts(s, seen);
    NewValueHasNoVoter(s.vals, seen, m.val);
    SumAppend(s.vals, MessageVal(m, 1));
    AppendTallied(s.vals, seen, m, m.id);
    AppendCovered(s.vals, seen, m, m.id);
  }

  /** Once a value is known to be correct, a match is counted and anything else only marked. */
  lemma InvCountForCorrect<V>(s: CertState<V>, seen: map<int, V>, m: Msg<V>)
    requires s.WellFormed() && Inv(s, seen) && s.c.Some? && Votable(s, m)
    requires s.vals[s.c.value].m.val == m.val && s.NumCorrect() < s.complete
    ensures Inv(Counted(s, s.c.value, m), seen[m.id := m.val])
  {
    hide Shape, Bounded;
    CountedShape(s, seen, s.c.value, m);
    ShapeFacts(s, seen);
    VotersExtend(seen, m.id, m.val, m.val);
    BoundedGrows(s.vals, seen, m.val, m.id);
    BoundedUpdate(s.vals, seen[m.id := m.val], s.c.value, Bump(s.vals, s.c.value, m)[s.c.value]);
  }

  lemma InvMarkOnly<V>(s: CertState<V>, seen: map<int, V>, m: Msg<V>)
    requires s.WellFormed() && Inv(s, seen) && s.c.Some? && Votable(s, m)
    requires s.vals[s.c.value].m.val != m.val || s.IsComplete()
    ensures Inv(s.(bmap := s.bmap + {m.id}), seen[m.id := m.val])
  {
    hide Distinct, Bounded;
    VotersExtend(seen, m.id, m.val, s.vals[s.c.value].m.val);
    BoundedGrows(s.vals, seen, m.val, m.id);
  }

  lemma InvAdd<V>(s: CertState<V>, seen: map<int, V>, m: Msg<V>)
    requires s.WellFormed() && Inv(s, seen) && Votable(s, m)
    ensures Inv(Add(s, m).0, Observe(s, seen, OpAdd(m)))
  {
    hide Inv;
    InvFacts(s, seen);
    if s.c.Some? {
      if s.NumCorrect() < s.complete && s.vals[s.c.value].m.val == m.val {
        InvCountForCorrect(s, seen, m);
      } else {
        InvMarkOnly(s, seen, m);
      }
    } else if FindVal(s.vals, m.val) < |s.vals| {
      InvCountVote(s, seen, FindVal(s.vals, m.val), m);
    } else if |s.vals| < s.f + 1 {
      InvNewValue(s, seen, m);
    } else {
      InvInit<V>(s.f, s.me, s.complete);
    }
  }

  /** The message of the calling replica joins entry i, which it matches. */
  lemma InvOwnMatch<V>(s: CertState<V>, seen: map<int, V>, i: nat, m: Msg<V>)
    requires s.WellFormed() && Inv(s, seen) && Legal(s, OpAddMine(m))
    requires i < |s.vals| && s.vals[i].m.val == m.val && (s.c.Some? ==> s.c.value == i)
    ensures Inv(Owned(s, i, m, s.vals[i].count), seen[s.me := m.val])
  {
    hide Shape, Bounded;
    OwnedShape(s, seen, i, m, s.vals[i].count);
    ShapeFacts(s, seen);
    InvBounded(s, seen);
    VotersExtend(seen, s.me, m.val, m.val);
    BoundedCount(s.vals, seen, i);
    BoundedGrows(s.vals, seen, m.val, s.me);
    BoundedUpdate(s.vals, seen[s.me := m.val], i, MessageVal(m, s.vals[i].count + 1));
  }

  /** The message of the calling replica displaces the first entry, as none matches it. */
  lemma InvOwnNew<V>(s: CertState<V>, seen: map<int, V>, m: Msg<V>)
    requires s.WellFormed() && Inv(s, seen) && Legal(s, OpAddMine(m))
    requires s.c.None? && s.vals != [] && !HasVal(s.vals, m.val)
    ensures Inv(Owned(s, 0, m, 0), seen[s.me := m.val])
  {
    hide Shape, HasVal, Bounded;
    OwnedShape(s, seen, 0, m, 0);
    ShapeFacts(s, seen);
    InvBounded(s, seen);
    VotersExtend(seen, s.me, m.val, m.val);
    BoundedGrows(s.vals, seen, m.val, s.me);
    BoundedUpdate(s.vals, seen[s.me := m.val], 0, MessageVal(m, 1));
    NewValueHasNoVoter(s.vals, seen, m.val);
  }

  lemma InvOwnFirst<V>(s: CertState<V>, seen: map<int, V>, m: Msg<V>)
    requires s.WellFormed() && Inv(s, seen) && Legal(s, OpAddMine(m)) && s.c.None? && s.vals == []
    ensures Inv(s.(vals := [MessageVal(m, 1)], c := Some(0), mine := Some(m)), seen[s.me := m.val])
  {
    VotersExtend(seen, s.me, m.val, m.val);
    assert !HasVal(s.vals, m.val);
    NewValueHasNoVoter(s.vals, seen, m.val);
  }

  lemma InvAddMine<V>(s: CertState<V>, seen: map<int, V>, m: Msg<V>)
    requires s.WellFormed() && Inv(s, seen) && Legal(s, OpAddMine(m)) && AddMine(s, m).1
    ensures Inv(AddMine(s, m).0, seen[s.me := m.val])
  {
    hide Inv;
    if s.c.Some? {
      InvOwnMatch(s, seen, s.c.value, m);
    } else if FindVal(s.vals, m.val) < |s.vals| {
      InvOwnMatch(s, seen, FindVal(s.vals, m.val), m);
    } else if s.vals == [] {
      InvOwnFirst(s, seen, m);
    } else {
      InvOwnNew(s, seen, m);
    }
  }

  lemma InvMarkStale<V>(s: CertState<V>, seen: map<int, V>)
    requires s.WellFormed() && Inv(s, seen)
    ensures Inv(MarkStale(s), Observe(s, seen, OpMarkStale))
  {
    if !s.IsComplete() {
      if s.mine.Some? {
        assert Voters(map[s.me := s.mine.value.val], s.mine.value.val) == {s.me};
      } else {
        InvInit<V>(s.f, s.me, s.complete);
      }
    }
  }

  /** Every operation keeps the invariant. */
  lemma InvStep<V>(s: CertState<V>, seen: map<int, V>, op: Op<V>)
    requires s.WellFormed() && Inv(s, seen) && Legal(s, op)
    ensures Inv(Apply(s, op), Observe(s, seen, op))
  {
    hide Shape, Decided, Undecided;
    match op
    case OpAdd(m) =>
      if Votable(s, m) {
        InvAdd(s, seen, m);
      }
    case OpAddMine(m) =>
      if AddMine(s, m).1 { InvAddMine(s, seen, m); }
    case OpMarkStale => InvMarkStale(s, seen);
    case _ => InvInit<V>(s.f, s.me, s.complete);
  }

  // ------------------------------------------------------------------
  // Whole runs
  // ------------------------------------------------------------------

  /** The certificate after ops, starting from an empty one. */
  function Run<V(==)>(f: nat, me: int, complete: nat, ops: seq<Op<V>>): (s: CertState<V>)
    ensures s.WellFormed() && s.f == f && s.me == me && s.complete == complete
  {
    if ops == [] then EmptyCert(f, me, complete)
    else Apply(Run(f, me, complete, ops[..|ops| - 1]), ops[|ops| - 1])
  }

  /** The votes that the certificate after ops stands for. */
  function Votes<V(==)>(f: nat, me: int, complete: nat, ops: seq<Op<V>>): map<int, V> {
    if ops == [] then map[]
    else
      var before := ops[..|ops| - 1];
      Observe(Run(f, me, complete, before), Votes(f, me, complete, before), ops[|ops| - 1])
  }

  ghost predicate LegalRun<V>(f: nat, me: int, complete: nat, ops: seq<Op<V>>) {
    forall i :: 0 <= i < |ops| ==> Legal(Run(f, me, complete, ops[..i]), ops[i])
  }

  lemma LegalPrefix<V>(f: nat, me: int, complete: nat, ops: seq<Op<V>>)
    requires ops != [] && LegalRun(f, me, complete, ops)
    ensures LegalRun(f, me, complete, ops[..|ops| - 1])
    ensures Legal(Run(f, me, complete, ops[..|ops| - 1]), ops[|ops| - 1])
  {
    var before := ops[..|ops| - 1];
    forall i | 0 <= i < |before| ensures Legal(Run(f, me, complete, before[..i]), before[i]) {
      assert before[..i] == ops[..i];
    }
  }

  /** The certificate invariant, for every run of the operations. */
  lemma {:induction false} InvRun<V>(f: nat, me: int, complete: nat, ops: seq<Op<V>>)
    requires f >= 1 && LegalRun(f, me, complete, ops)
    ensures Inv(Run(f, me, complete, ops), Votes(f, me, complete, ops))
  {
    hide Inv, Legal, Apply, Observe;
    if ops == [] {
      InvInit<V>(f, me, complete);
    } else {
      var before := ops[..|ops| - 1];
      LegalPrefix(f, me, complete, ops);
      InvRun(f, me, complete, before);
      InvStep(Run(f, me, complete, before), Votes(f, me, complete, before), ops[|ops| - 1]);
    }
  }

  /**
   * A complete certificate means that at least "complete" distinct replicas
   * voted for its value, in every run.
   */
  lemma CompleteMeansQuorum<V>(f: nat, me: int, complete: nat, ops: seq<Op<V>>)
    requires f >= 1 && complete >= 1 && LegalRun(f, me, complete, ops)
    requires Run(f, me, complete, ops).IsComplete()
    ensures var s := Run(f, me, complete, ops);
            s.c.Some? && |Voters(Votes(f, me, complete, ops), s.vals[s.c.value].m.val)| >= complete
  {
    InvRun(f, me, complete, ops);
  }

  // ------------------------------------------------------------------
  // Order independence
  // ------------------------------------------------------------------

  /** op only brings messages in; correct replicas (the caller among them) all say v. */
  predicate Honest<V(==)>(op: Op<V>, faulty: set<int>, v: V) {
    match op
    case OpAdd(m) => m.authentic && m.id !in faulty ==> m.val == v
    case OpAddMine(m) => m.val == v
    case _ => false
  }

  /** The replica whose message op brings in. */
  function HeardIn<V>(f: nat, me: int, op: Op<V>): set<int> {
    match op
    case OpAdd(m) => if 0 <= m.id < 3 * f + 1 && m.authentic && m.id != me then {m.id} else {}
    case OpAddMine(m) => {m.id}
    case _ => {}
  }

  /** The replicas whose messages ops bring in. */
  function Heard<V>(f: nat, me: int, ops: seq<Op<V>>): set<int> {
    if ops == [] then {}
    else Heard(f, me, ops[..|ops| - 1]) + HeardIn(f, me, ops[|ops| - 1])
  }

  /** The votes against v for values that are stored. */
  function Against<V(==)>(vals: seq<MessageVal<V>>, seen: map<int, V>, v: V): set<int> {
    set id | id in seen && seen[id] != v && HasVal(vals, seen[id])
  }

  lemma HasValExtends<V>(vals: seq<MessageVal<V>>, k: nat)
    requires Distinct(vals) && k + 1 == |vals|
    ensures !HasVal(vals[..k], vals[k].m.val)
    ensures forall u :: HasVal(vals, u) <==> u == vals[k].m.val || HasVal(vals[..k], u)
  {
    forall u ensures HasVal(vals, u) <==> u == vals[k].m.val || HasVal(vals[..k], u) {
      if HasVal(vals[..k], u) {
        var i :| 0 <= i < k && vals[..k][i].m.val == u;
        assert vals[i].m.val == u;
      }
      if u == vals[k].m.val {
        assert vals[k].m.val == u;
      }
      if HasVal(vals, u) && u != vals[k].m.val {
        var i :| 0 <= i < |vals| && vals[i].m.val == u;
        assert vals[..k][i].m.val == u;
      }
    }
  }

  /** Distinct stored values other than v were brought in by as many distinct replicas. */
  lemma {:induction false} StoredValuesNeedVoters<V>(vals: seq<MessageVal<V>>, seen: map<int, V>, v: V)
    requires Distinct(vals)
    requires forall i :: 0 <= i < |vals| ==> |Voters(seen, vals[i].m.val)| >= 1
    ensures |Against(vals, seen, v)| >= |vals| - if HasVal(vals, v) then 1 else 0
  {
    if vals != [] {
      var k := |vals| - 1;
      var before, w := vals[..k], vals[k].m.val;
      StoredValuesNeedVoters(before, seen, v);
      HasValExtends(vals, k);
      hide HasVal, Distinct;
      if w != v {
        var id := Member(Voters(seen, w));
        SubsetSize(Against(before, seen, v) + {id}, Against(vals, seen, v));
      } else {
        SubsetSize(Against(before, seen, v), Against(vals, seen, v));
      }
    }
  }

  /** What holds while every correct replica votes v. */
  ghost predicate Agreeing<V>(s: CertState<V>, seen: map<int, V>, faulty: set<int>, v: V) {
    && Inv(s, seen)
    && (forall id :: id in seen && id !in faulty ==> seen[id] == v)
    && (s.c.Some? ==> s.vals[s.c.value].m.val == v)
  }

  /** With at most f faulty voters a new value always finds room. */
  lemma NoOverflow<V>(s: CertState<V>, seen: map<int, V>, faulty: set<int>, v: V, m: Msg<V>)
    requires s.WellFormed() && Agreeing(s, seen, faulty, v) && |faulty| <= s.f && s.c.None?
    requires Votable(s, m) && Honest(OpAdd(m), faulty, v) && !HasVal(s.vals, m.val)
    ensures |s.vals| < s.f + 1
  {
    StoredValuesNeedVoters(s.vals, seen, v);
    var a := Against(s.vals, seen, v);
    forall id | id in a ensures id in faulty {
      assert seen[id] != v;
    }
    if m.val == v {
      SubsetSize(a, faulty);
    } else {
      assert m.id !in a && m.id in faulty;
      SubsetSize(a + {m.id}, faulty);
    }
  }

  /** A value made correct by f + 1 votes has a correct voter. */
  lemma CorrectByVotes<V>(s: CertState<V>, seen: map<int, V>, faulty: set<int>, v: V)
    requires s.WellFormed() && Inv(s, seen) && |faulty| <= s.f && s.c.Some? && s.mine.None?
    requires forall id :: id in seen && id !in faulty ==> seen[id] == v
    ensures s.vals[s.c.value].m.val == v
  {
    var id := CorrectMember(s.f, Voters(seen, s.vals[s.c.value].m.val), faulty);
  }

  lemma AgreeingAdd<V>(s: CertState<V>, seen: map<int, V>, faulty: set<int>, v: V, m: Msg<V>)
    requires s.WellFormed() && Agreeing(s, seen, faulty, v) && |faulty| <= s.f
    requires Votable(s, m) && Honest(OpAdd(m), faulty, v)
    ensures Agreeing(Add(s, m).0, seen[m.id := m.val], faulty, v)
    ensures m.id in Add(s, m).0.bmap
  {
    hide Inv;
    InvAdd(s, seen, m);
    if s.c.None? && FindVal(s.vals, m.val) == |s.vals| {
      NoOverflow(s, seen, faulty, v, m);
    }
    var r := Add(s, m).0;
    if s.c.None? && r.c.Some? {
      InvFacts(s, seen);
      CorrectByVotes(r, seen[m.id := m.val], faulty, v);
    }
  }

  lemma AgreeingStep<V>(s: CertState<V>, seen: map<int, V>, faulty: set<int>, v: V, op: Op<V>)
    requires s.WellFormed() && Agreeing(s, seen, faulty, v) && |faulty| <= s.f
    requires Legal(s, op) && Honest(op, faulty, v)
    ensures Agreeing(Apply(s, op), Observe(s, seen, op), faulty, v)
  {
    hide Agreeing, Add, AddMine;
    match op
    case OpAdd(m) =>
      if Votable(s, m) {
        AgreeingAdd(s, seen, faulty, v, m);
      } else {
        UnvotableAdd(s, m);
      }
    case OpAddMine(m) =>
      AgreeingAddMine(s, seen, faulty, v, m);
  }

  /** An honest step forgets no vote. */
  lemma HeardStep<V>(s: CertState<V>, seen: map<int, V>, faulty: set<int>, v: V, op: Op<V>)
    requires s.WellFormed() && Agreeing(s, seen, faulty, v) && |faulty| <= s.f
    requires Legal(s, op) && Honest(op, faulty, v)
    ensures Observe(s, seen, op).Keys == seen.Keys + HeardIn(s.f, s.me, op)
  {
    hide Agreeing, Add, AddMine, Tally, FindVal;
    AgreeingFacts(s, seen, faulty, v);
    match op
    case OpAdd(m) =>
      if Votable(s, m) {
        AgreeingAdd(s, seen, faulty, v, m);
      }
    case OpAddMine(m) =>
      AgreeingAddMine(s, seen, faulty, v, m);
  }

  lemma AgreeingFacts<V>(s: CertState<V>, seen: map<int, V>, faulty: set<int>, v: V)
    requires Agreeing(s, seen, faulty, v)
    ensures seen.Keys == s.bmap + (if s.mine.Some? then {s.me} else {})
  {
  }

  lemma AgreeingAddMine<V>(s: CertState<V>, seen: map<int, V>, faulty: set<int>, v: V, m: Msg<V>)
    requires s.WellFormed() && Agreeing(s, seen, faulty, v) && m.val == v && Legal(s, OpAddMine(m))
    ensures AddMine(s, m).1 && Agreeing(AddMine(s, m).0, seen[s.me := v], faulty, v)
  {
    hide Inv;
    InvAddMine(s, seen, m);
    AddMineKeepsValue(s, m);
  }

  lemma UnvotableAdd<V>(s: CertState<V>, m: Msg<V>)
    requires s.WellFormed() && !Votable(s, m)
    ensures Add(s, m).0 == s
  {
  }

  lemma AddMineKeepsValue<V>(s: CertState<V>, m: Msg<V>)
    requires s.WellFormed() && AddMine(s, m).1
    ensures AddMine(s, m).0.c.Some? && AddMine(s, m).0.CValue() == Some(m)
  {
  }

  lemma {:induction false} AgreeingRun<V>(
    f: nat, me: int, complete: nat, ops: seq<Op<V>>, faulty: set<int>, v: V)
    requires f >= 1 && LegalRun(f, me, complete, ops) && |faulty| <= f && me !in faulty
    requires forall i :: 0 <= i < |ops| ==> Honest(ops[i], faulty, v)
    ensures Agreeing(Run(f, me, complete, ops), Votes(f, me, complete, ops), faulty, v)
    ensures Votes(f, me, complete, ops).Keys == Heard(f, me, ops)
  {
    hide Agreeing, Legal, Honest, Apply, Observe;
    if ops == [] {
      AgreeingInit<V>(f, me, complete, faulty, v);
    } else {
      var before := ops[..|ops| - 1];
      LegalPrefix(f, me, complete, ops);
      AgreeingRun(f, me, complete, before, faulty, v);
      var s, seen := Run(f, me, complete, before), Votes(f, me, complete, before);
      AgreeingStep(s, seen, faulty, v, ops[|ops| - 1]);
      HeardStep(s, seen, faulty, v, ops[|ops| - 1]);
    }
  }

  lemma AgreeingInit<V>(f: nat, me: int, complete: nat, faulty: set<int>, v: V)
    requires f >= 1
    ensures Agreeing(EmptyCert<V>(f, me, complete), map[], faulty, v)
  {
    InvInit<V>(f, me, complete);
  }

  /**
   * Order independence: when the correct replicas agree on v, no order of
   * arrival makes another value correct, empties the certificate, or keeps it
   * from completing once every correct replica, the caller included, is heard.
   */
  lemma OrderIndependence<V>(
    f: nat, me: int, complete: nat, ops: seq<Op<V>>, faulty: set<int>, v: V)
    requires f >= 1 && complete <= 2 * f + 1
    requires LegalRun(f, me, complete, ops) && |faulty| <= f && me !in faulty
    requires forall i :: 0 <= i < |ops| ==> Honest(ops[i], faulty, v)
    ensures var s := Run(f, me, complete, ops);
            && (s.c.Some? ==> s.vals[s.c.value].m.val == v)
            && s.bmap + (if s.mine.Some? then {me} else {}) == Heard(f, me, ops)
            && (Replicas(f) - faulty <= Heard(f, me, ops) && me in Replicas(f) ==>
                  s.c.Some? && s.IsComplete())
  {
    AgreeingRun(f, me, complete, ops, faulty, v);
    var s, seen := Run(f, me, complete, ops), Votes(f, me, complete, ops);
    if Replicas(f) - faulty <= Heard(f, me, ops) && me in Replicas(f) {
      SubsetSize(Replicas(f) - faulty, Voters(seen, v));
      SubsetSize(Replicas(f) * faulty, faulty);
      assert me in seen;
    }
  }
}
