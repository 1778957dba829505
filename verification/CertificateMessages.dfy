/**
 * Which messages a certificate holds: the one stored for a value is one of
 * those counted for it, and a full one if any of them is.
 */
module CertificateMessages {
  import opened Wrappers
  import opened Quorums
  import opened CertificateState

  /** The replicas whose messages with value v were counted. */
  function Backers<V(==)>(got: map<int, Msg<V>>, v: V): set<int> {
    set id | id in got && got[id].val == v
  }

  ghost predicate SomeFull<V>(got: map<int, Msg<V>>, v: V) {
    exists id :: id in got && got[id].val == v && got[id].full
  }

  /** An entry counts the messages with its value, and has one of them, full if one of them is. */
  ghost predicate Represents<V>(e: MessageVal<V>, got: map<int, Msg<V>>) {
    && e.count == |Backers(got, e.m.val)|
    && e.m.id in got && got[e.m.id] == e.m
    && (e.m.full <==> SomeFull(got, e.m.val))
  }

  /** The certificate represents the messages counted since it was last emptied. */
  ghost predicate Kept<V>(s: CertState<V>, got: map<int, Msg<V>>) {
    && got.Keys <= s.bmap + (if s.mine.Some? then {s.me} else {})
    && (forall id :: id in got ==> got[id].id == id)
    && (forall i :: 0 <= i < |s.vals| ==> Represents(s.vals[i], got))
    && (s.c.None? ==> forall id :: id in got ==> HasVal(s.vals, got[id].val))
  }

  /** The messages counted after op, by what op returns: a message that is refused is not counted, or empties the certificate. */
  function Receive<V(==)>(s: CertState<V>, got: map<int, Msg<V>>, op: Op<V>): map<int, Msg<V>>
    requires s.WellFormed()
  {
    match op
    case OpAdd(m) =>
      if Add(s, m).1 then got[m.id := m]
      else if m.id in s.bmap || m.id in Add(s, m).0.bmap || !(0 <= m.id < 3 * s.f + 1) || !s.Verified(m) then got
      else map[]
    case OpAddMine(m) => if AddMine(s, m).1 then got[m.id := m] else got
    case OpMarkStale =>
      if s.IsComplete() then got
      else if s.mine.Some? then map[s.me := s.mine.value] else map[]
    case OpClear => map[]
    case OpCValueClear => if s.c.Some? then map[] else got
  }

  lemma BackersAdd<V>(got: map<int, Msg<V>>, m: Msg<V>, v: V)
    requires m.id !in got
    ensures |Backers(got[m.id := m], v)| == |Backers(got, v)| + if m.val == v then 1 else 0
    ensures SomeFull(got[m.id := m], v) <==> SomeFull(got, v) || (m.val == v && m.full)
  {
    assert Backers(got[m.id := m], v) == Backers(got, v) + if m.val == v then {m.id} else {};
    if SomeFull(got, v) {
      var id :| id in got && got[id].val == v && got[id].full;
      assert got[m.id := m][id].full;
    }
    if m.val == v && m.full {
      assert got[m.id := m][m.id].full;
    }
  }

  /** An entry of another value represents what it did. */
  lemma OthersRepresent<V>(e: MessageVal<V>, got: map<int, Msg<V>>, m: Msg<V>)
    requires Represents(e, got) && m.id !in got && e.m.val != m.val
    ensures Represents(e, got[m.id := m])
  {
    hide Backers, SomeFull;
    BackersAdd(got, m, e.m.val);
  }

  /** The entry that m is counted for represents it as well. */
  lemma BumpRepresents<V>(vals: seq<MessageVal<V>>, i: nat, got: map<int, Msg<V>>, m: Msg<V>)
    requires i < |vals| && vals[i].m.val == m.val && Distinct(vals) && m.id !in got
    requires forall j :: 0 <= j < |vals| ==> Represents(vals[j], got)
    ensures forall j :: 0 <= j < |vals| ==> Represents(Bump(vals, i, m)[j], got[m.id := m])
  {
    hide Backers, SomeFull;
    BackersAdd(got, m, m.val);
    forall j | 0 <= j < |vals| ensures Represents(Bump(vals, i, m)[j], got[m.id := m]) {
      if j != i {
        OthersRepresent(vals[j], got, m);
      }
    }
  }

  lemma NoBackers<V>(got: map<int, Msg<V>>, v: V)
    requires forall id :: id in got ==> got[id].val != v
    ensures |Backers(got, v)| == 0 && !SomeFull(got, v)
  {
    if |Backers(got, v)| >= 1 {
      var id := Member(Backers(got, v));
    }
  }

  lemma NewRepresents<V>(vals: seq<MessageVal<V>>, got: map<int, Msg<V>>, m: Msg<V>)
    requires !HasVal(vals, m.val) && m.id !in got
    requires forall j :: 0 <= j < |vals| ==> Represents(vals[j], got)
    requires forall id :: id in got ==> got[id].val != m.val
    ensures Represents(MessageVal(m, 1), got[m.id := m])
    ensures forall j :: 0 <= j < |vals| ==> Represents(vals[j], got[m.id := m])
  {
    NoBackers(got, m.val);
    BackersAdd(got, m, m.val);
    forall j | 0 <= j < |vals| ensures Represents(vals[j], got[m.id := m]) {
      assert vals[j].m.val != m.val;
      OthersRepresent(vals[j], got, m);
    }
  }

  lemma KeptCounted<V>(s: CertState<V>, got: map<int, Msg<V>>, i: nat, m: Msg<V>)
    requires Kept(s, got) && m.id !in got && i < |s.vals| && s.vals[i].m.val == m.val && Distinct(s.vals)
    ensures Kept(Counted(s, i, m), got[m.id := m]) && Kept(Counted(s, i, m).(c := Some(i)), got[m.id := m])
  {
    hide Represents, Bump, HasVal;
    BumpRepresents(s.vals, i, got, m);
    BumpValues(s.vals, i, m);
  }

  lemma KeptAppended<V>(s: CertState<V>, got: map<int, Msg<V>>, m: Msg<V>)
    requires Kept(s, got) && m.id !in got && s.c.None? && !HasVal(s.vals, m.val)
    ensures Kept(Appended(s, m), got[m.id := m])
  {
    hide Represents, HasVal;
    forall id | id in got ensures got[id].val != m.val {
      assert HasVal(s.vals, got[id].val);
    }
    NewRepresents(s.vals, got, m);
    ValuesAppend(s.vals, m);
  }

  lemma KeptAdd<V>(s: CertState<V>, seen: map<int, V>, got: map<int, Msg<V>>, m: Msg<V>)
    requires s.WellFormed() && Inv(s, seen) && Kept(s, got)
    ensures Kept(Add(s, m).0, Receive(s, got, OpAdd(m)))
  {
    hide Represents, Bump, Inv, Distinct, Counted, Appended;
    InvFacts(s, seen);
    InvDistinct(s, seen);
    if 0 <= m.id < 3 * s.f + 1 && m.id !in s.bmap && s.Verified(m) {
      assert m.id !in got;
      var i := if s.c.Some? then s.c.value else FindVal(s.vals, m.val);
      if i < |s.vals| && s.vals[i].m.val == m.val {
        KeptCounted(s, got, i, m);
        CountedIs(s, i, m);
      } else if s.c.None? {
        KeptAppended(s, got, m);
        AppendedIs(s, m);
      }
    }
  }

  lemma InvDistinct<V>(s: CertState<V>, seen: map<int, V>)
    requires Inv(s, seen)
    ensures Distinct(s.vals)
  {
  }

  lemma CountedIs<V>(s: CertState<V>, i: nat, m: Msg<V>)
    requires i < |s.vals|
    ensures var r := Counted(s, i, m); |r.vals| == |s.vals| && r.c == s.c && r.bmap == s.bmap + {m.id}
  {
  }

  lemma AppendedIs<V>(s: CertState<V>, m: Msg<V>)
    ensures Appended(s, m).bmap == s.bmap + {m.id}
  {
  }

  lemma BumpValues<V>(vals: seq<MessageVal<V>>, i: nat, m: Msg<V>)
    requires i < |vals| && vals[i].m.val == m.val
    ensures HasVal(vals, m.val) && forall v :: HasVal(vals, v) ==> HasVal(Bump(vals, i, m), v)
  {
    forall v | HasVal(vals, v) ensures HasVal(Bump(vals, i, m), v) {
      var j :| 0 <= j < |vals| && vals[j].m.val == v;
      assert Bump(vals, i, m)[j].m.val == v;
    }
  }

  lemma ValuesAppend<V>(vals: seq<MessageVal<V>>, m: Msg<V>)
    ensures HasVal(vals + [MessageVal(m, 1)], m.val)
    ensures forall v :: HasVal(vals, v) ==> HasVal(vals + [MessageVal(m, 1)], v)
  {
    var all := vals + [MessageVal(m, 1)];
    assert all[|vals|].m.val == m.val;
    forall v | HasVal(vals, v) ensures HasVal(all, v) {
      var j :| 0 <= j < |vals| && vals[j].m.val == v;
      assert all[j].m.val == v;
    }
  }

  lemma KeptAddMine<V>(s: CertState<V>, seen: map<int, V>, got: map<int, Msg<V>>, m: Msg<V>)
    requires s.WellFormed() && Inv(s, seen) && Kept(s, got) && Legal(s, OpAddMine(m))
    ensures Kept(AddMine(s, m).0, Receive(s, got, OpAddMine(m)))
  {
    hide Represents;
    ShapeFacts(s, seen);
    assert m.id !in got;
    if AddMine(s, m).1 {
      var i := if s.c.Some? then s.c.value else FindVal(s.vals, m.val);
      if i < |s.vals| {
        OwnRepresents(s.vals, i, got, m);
      } else {
        assert !HasVal(s.vals, m.val);
        forall id | id in got ensures got[id].val != m.val {
          assert HasVal(s.vals, got[id].val);
        }
        NewRepresents(s.vals, got, m);
      }
    }
  }

  /** The replica's own message, which is full, takes the place of the one stored. */
  lemma OwnRepresents<V>(vals: seq<MessageVal<V>>, i: nat, got: map<int, Msg<V>>, m: Msg<V>)
    requires i < |vals| && vals[i].m.val == m.val && Distinct(vals) && m.id !in got && m.full
    requires forall j :: 0 <= j < |vals| ==> Represents(vals[j], got)
    ensures Represents(MessageVal(m, vals[i].count + 1), got[m.id := m])
    ensures forall j :: 0 <= j < |vals| && j != i ==> Represents(vals[j], got[m.id := m])
  {
    hide Backers, SomeFull;
    BackersAdd(got, m, m.val);
    forall j | 0 <= j < |vals| && j != i ensures Represents(vals[j], got[m.id := m]) {
      OthersRepresent(vals[j], got, m);
    }
  }

  /** Every operation keeps what the certificate represents. */
  lemma KeptStep<V>(s: CertState<V>, seen: map<int, V>, got: map<int, Msg<V>>, op: Op<V>)
    requires s.WellFormed() && Inv(s, seen) && Kept(s, got) && Legal(s, op)
    ensures Kept(Apply(s, op), Receive(s, got, op))
  {
    match op
    case OpAdd(m) => KeptAdd(s, seen, got, m);
    case OpAddMine(m) => KeptAddMine(s, seen, got, m);
    case OpMarkStale =>
      if !s.IsComplete() && s.mine.Some? {
        MineRepresents(s, seen);
      }
    case _ =>
  }

  lemma MineRepresents<V>(s: CertState<V>, seen: map<int, V>)
    requires s.WellFormed() && Inv(s, seen) && s.mine.Some?
    ensures Represents(MessageVal(s.mine.value, 1), map[s.me := s.mine.value]) && s.mine.value.id == s.me
  {
    var m := s.mine.value;
    assert Backers(map[s.me := m], m.val) == {s.me};
    assert m.full ==> SomeFull(map[s.me := m], m.val) by {
      assert map[s.me := m][s.me] == m;
    }
  }

  /** The messages counted in a run. */
  function Messages<V(==)>(f: nat, me: int, complete: nat, ops: seq<Op<V>>): map<int, Msg<V>> {
    if ops == [] then map[]
    else
      var before := ops[..|ops| - 1];
      Receive(Run(f, me, complete, before), Messages(f, me, complete, before), ops[|ops| - 1])
  }

  lemma {:induction false} KeptRun<V>(f: nat, me: int, complete: nat, ops: seq<Op<V>>)
    requires f >= 1 && LegalRun(f, me, complete, ops)
    ensures Kept(Run(f, me, complete, ops), Messages(f, me, complete, ops))
  {
    hide Inv, Legal, Apply, Receive, Represents;
    if ops != [] {
      var before := ops[..|ops| - 1];
      LegalPrefix(f, me, complete, ops);
      KeptRun(f, me, complete, before);
      InvRun(f, me, complete, before);
      KeptStep(Run(f, me, complete, before), Votes(f, me, complete, before), Messages(f, me, complete, before), ops[|ops| - 1]);
    }
  }

  /**
   * In every run the message returned as the correct value was counted for it,
   * and it is full exactly if a full one was counted; the number of correct
   * messages is that of the replicas whose messages were counted for it.
   */
  lemma CorrectIsFullest<V>(f: nat, me: int, complete: nat, ops: seq<Op<V>>)
    requires f >= 1 && LegalRun(f, me, complete, ops) && Run(f, me, complete, ops).CValue().Some?
    ensures var s, got := Run(f, me, complete, ops), Messages(f, me, complete, ops);
            var m := s.CValue().value;
            && m.id in got && got[m.id] == m
            && s.NumCorrect() == |Backers(got, m.val)|
            && (m.full <==> SomeFull(got, m.val))
  {
    hide Backers, SomeFull;
    KeptRun(f, me, complete, ops);
  }
}
