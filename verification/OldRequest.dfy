/** The in-place form of OReq_info: src/View_info.h, with add_complete and add_incomplete of src/View_info.cc. */
module OldRequests {
  import opened Types
  import opened OldRequestState
  import opened SupersededDigests

  class OReqInfo {
    var lv: View
    var v: View
    var d: Digest
    var m: bool              // whether the pre-prepare of a prepared request is kept
    const ods: array<ODigest>

    ghost predicate Valid() {
      ods.Length >= 2
    }

    ghost function State(): OReq
      reads this, ods
    {
      OReq(Record(lv, v, d, m), ods[..])
    }

    constructor (f: nat)
      ensures Valid() && fresh(ods) && State() == EmptyOReq(f)
    {
      lv, v, d, m := -1, -1, NULL_DIGEST, false;
      ods := new ODigest[f + 2](_ => ODigest(NULL_DIGEST, -1));
      new;
      assert ods[..] == EmptyOReq(f).ods;
    }

    method Clear()
      requires Valid()
      modifies this, ods
      ensures State() == ClearOReq(old(State()))
    {
      m, v, lv, d := false, -1, -1, NULL_DIGEST;
      for i := 0 to ods.Length
        invariant forall j :: 0 <= j < i ==> ods[j] == ODigest(old(ods[j]).d, -1)
        invariant forall j :: i <= j < ods.Length ==> ods[j] == old(ods[j])
        modifies ods
      {
        ods[i] := ods[i].(v := -1);
      }
      assert ods[..] == FreeAll(old(ods[..]));
    }

    /** A pre-prepare with digest pd was part of a complete prepared certificate in view pv. */
    method AddComplete(pv: View, pd: Digest)
      requires Valid()
      modifies this, ods
      ensures State() == AddCompleteO(old(State()), pv, pd)
    {
      Clear();
      v, lv, d, m := pv, pv, pd, true;
    }

    /** Remembers the last f + 2 digests; every view is below the initial minimum. */
    method Remember()
      requires Valid()
      modifies ods
      ensures ods[..] == Supersede(old(ods[..]), d, lv)
    {
      var mini, found, i := 0, false, 0;
      while i < ods.Length && !found
        invariant 0 <= i <= ods.Length && 0 <= mini < ods.Length
        invariant !found ==> (forall j :: 0 <= j < i ==> ods[j].d != d) && ods[..] == old(ods[..])
        invariant !found && i > 0 ==> mini == OldestBefore(ods[..], i)
        invariant found ==> ods[..] == Supersede(old(ods[..]), d, lv)
        decreases ods.Length - i, !found
        modifies ods
      {
        if ods[i].d == d {
          ods[i] := ods[i].(v := lv);
          found := true;
        } else {
          if i == 0 || ods[i].v < ods[mini].v {
            mini := i;
          }
          i := i + 1;
        }
      }
      if !found {
        ods[mini] := ODigest(d, lv);
      }
    }

    /** The replica sent a pre-prepare or prepare with digest nd in view cv, and it did not prepare. */
    method AddIncomplete(cv: View, nd: Digest)
      requires Valid()
      modifies this, ods
      ensures State() == AddIncompleteO(old(State()), cv, nd)
    {
      if d == nd {
        if m {
          lv := cv;
        } else {
          v := cv;
        }
      } else {
        if m {
          m := false;
        } else {
          lv := v;
        }
        Remember();
        d, v := nd, cv;
      }
    }

    /** View_info::prepare. */
    method Prepare(pd: Digest) returns (b: bool)
      requires Valid()
      ensures b == PrepareLogged(State(), pd)
    {
      if d == pd {
        return true;
      }
      for i := 0 to ods.Length
        invariant forall j :: 0 <= j < i ==> ods[j].d != pd
      {
        if ods[i].d == pd {
          return true;
        }
      }
      return false;
    }
  }
}
