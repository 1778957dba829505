/** The in-place form of a certificate: class Certificate of src/Certificate.h and src/Certificate.t. */
module Certificates {
  import opened Wrappers
  import opened CertificateState

  /** An element of the array "vals"; m is null in the part not in use. */
  datatype Slot<V> = Slot(m: Option<Msg<V>>, count: nat)

  /** The values held in the part of the array that is in use. */
  function Values<V>(slots: seq<Slot<V>>): (r: seq<MessageVal<V>>)
    requires forall i :: 0 <= i < |slots| ==> slots[i].m.Some?
    ensures |r| == |slots|
    ensures forall i :: 0 <= i < |r| ==> r[i] == MessageVal(slots[i].m.value, slots[i].count)
  {
    seq(|slots|, i requires 0 <= i < |slots| => MessageVal(slots[i].m.value, slots[i].count))
  }

  class Certificate<V(==)> {
    const f: nat
    const me: int
    const complete: nat
    var bmap: set<int>
    var vals: array<Slot<V>>
    var curSize: nat
    var c: int        // index of the correct value in vals, or -1
    var mym: Option<Msg<V>>

    ghost predicate Valid()
      reads this, vals
    {
      && vals.Length == f + 1
      && curSize <= vals.Length
      && -1 <= c < curSize
      && (forall i :: 0 <= i < curSize ==> vals[i].m.Some?)
      && (forall i :: curSize <= i < vals.Length ==> vals[i] == Slot(None, 0))
    }

    ghost function State(): (s: CertState<V>)
      requires Valid()
      reads this, vals
      ensures s.WellFormed()
    {
      CertState(f, me, complete, Values(vals[..curSize]), bmap, if c < 0 then None else Some(c), mym)
    }

    /** complete == 0 stands for 2f + 1. */
    constructor (f: nat, me: int, complete: nat)
      ensures Valid() && fresh(vals)
      ensures State() == EmptyCert(f, me, if complete == 0 then 2 * f + 1 else complete)
    {
      this.f, this.me := f, me;
      this.complete := if complete == 0 then 2 * f + 1 else complete;
      vals := new Slot<V>[f + 1](_ => Slot(None, 0));
      bmap, curSize, c, mym := {}, 0, -1, None;
    }

    method CValue() returns (m: Option<Msg<V>>)
      requires Valid()
      ensures m == State().CValue()
    {
      m := if c >= 0 then vals[c].m else None;
    }

    method NumCorrect() returns (count: nat)
      requires Valid()
      ensures count == State().NumCorrect()
    {
      count := if c >= 0 then vals[c].count else 0;
    }

    method IsComplete() returns (b: bool)
      requires Valid()
      ensures b == State().IsComplete()
    {
      var count := NumCorrect();
      b := count >= complete;
    }

    /** Empties the slots from lo up to the end of the part in use. */
    method ClearSlots(lo: nat)
      requires lo <= curSize <= vals.Length
      requires forall i :: curSize <= i < vals.Length ==> vals[i] == Slot(None, 0)
      modifies vals
      ensures forall i :: lo <= i < vals.Length ==> vals[i] == Slot(None, 0)
      ensures forall i :: 0 <= i < lo ==> vals[i] == old(vals[i])
    {
      for i := lo to curSize
        invariant forall j :: lo <= j < i ==> vals[j] == Slot(None, 0)
        invariant forall j :: 0 <= j < lo || i <= j < vals.Length ==> vals[j] == old(vals[j])
      {
        vals[i] := Slot(None, 0);
      }
    }

    method Clear()
      requires Valid()
      modifies this, vals
      ensures Valid() && vals == old(vals)
      ensures State() == old(State()).Cleared()
    {
      ClearSlots(0);
      bmap, c, mym, curSize := {}, -1, None, 0;
    }

    /** The index of the first value in use that matches v, or curSize. */
    method Find(v: V) returns (i: nat)
      requires Valid()
      ensures i == FindVal(State().vals, v)
    {
      i := 0;
      while i < curSize && vals[i].m.value.val != v
        invariant i <= curSize
        invariant forall j :: 0 <= j < i ==> vals[j].m.value.val != v
      {
        i := i + 1;
      }
    }

    /** Counts m for the value at index i, keeping the fuller of the two messages. */
    method Count(i: nat, m: Msg<V>)
      requires Valid() && i < curSize
      modifies vals
      ensures Valid()
      ensures State() == old(State()).(vals := Bump(old(State()).vals, i, m))
    {
      var val := vals[i];
      if !val.m.value.full && m.full {
        vals[i] := Slot(Some(m), val.count + 1);
      } else {
        vals[i] := val.(count := val.count + 1);
      }
      assert Values(vals[..curSize]) == Bump(Values(old(vals[..curSize])), i, m);
    }

    /** Records a message while no value is known to be correct. */
    method AddUndecided(m: Msg<V>) returns (added: bool)
      requires Valid() && c < 0
      modifies this, vals
      ensures Valid() && vals == old(vals)
      ensures (State(), added) == Tally(old(State()), m)
    {
      hide FindVal, Values;
      bmap := bmap + {m.id};
      var i := Find(m.val);
      if i < curSize {
        Count(i, m);
        if vals[i].count >= f + 1 {
          c := i;
        }
        return true;
      }
      if curSize < vals.Length {
        vals[curSize] := Slot(Some(m), 1);
        curSize := curSize + 1;
        assert Values(vals[..curSize]) == old(State()).vals + [MessageVal(m, 1)];
        return true;
      }
      Clear();
      return false;
    }

    method Add(m: Msg<V>) returns (added: bool)
      requires Valid()
      modifies this, vals
      ensures Valid() && vals == old(vals)
      ensures (State(), added) == CertificateState.Add(old(State()), m)
    {
      if 0 <= m.id < 3 * f + 1 && m.id !in bmap {
        var undecided := c < 0;
        if (undecided || (vals[c].count < complete && vals[c].m.value.val == m.val)) && m.authentic && m.id != me {
          if undecided {
            added := AddUndecided(m);
            return;
          }
          bmap := bmap + {m.id};
          Count(c, m);
          return true;
        } else if m.authentic && m.id != me {
          bmap := bmap + {m.id};
        }
      }
      return false;
    }

    method AddMine(m: Msg<V>) returns (added: bool)
      requires Valid() && m.id == me && m.full && mym.None?
      modifies this, vals
      ensures Valid() && vals == old(vals)
      ensures (State(), added) == CertificateState.AddMine(old(State()), m)
    {
      hide FindVal, Values;
      ghost var s, r := State(), CertificateState.AddMine(State(), m).0;
      if c >= 0 && vals[c].m.value.val != m.val {
        return false;
      }
      if c < 0 {
        var i := Find(m.val);
        if i < curSize {
          c := i;
        } else {
          c := 0;
          vals[0] := vals[0].(count := 0);
          if vals[0].m.None? {
            curSize := 1;
          }
        }
      }
      vals[c] := Slot(Some(m), vals[c].count + 1);
      mym := Some(m);
      assert r.c == Some(c) && |r.vals| == curSize;
      assert Values(vals[..curSize]) == r.vals;
      return true;
    }

    method MarkStale()
      requires Valid() && (mym.Some? ==> c >= 0 && vals[c].m == mym)
      modifies this, vals
      ensures Valid() && vals == old(vals)
      ensures State() == CertificateState.MarkStale(old(State()))
    {
      var done := IsComplete();
      if !done {
        if mym.Some? {
          vals[c] := Slot(None, 0);
          c := 0;
          vals[0] := Slot(mym, 1);
          ClearSlots(1);
          curSize := 1;
        } else {
          ClearSlots(0);
          c, curSize := -1, 0;
        }
        bmap := {};
        assert Values(vals[..curSize]) == CertificateState.MarkStale(old(State())).vals;
      }
    }

    /** Removes and returns the correct value. */
    method CValueClear() returns (m: Option<Msg<V>>)
      requires Valid()
      modifies this, vals
      ensures Valid() && vals == old(vals)
      ensures (State(), m) == CertificateState.CValueClear(old(State()))
    {
      m := CValue();
      if m.Some? {
        Clear();
      }
    }
  }
}
