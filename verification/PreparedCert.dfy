/** The in-place form of a prepared certificate: class Prepared_cert of src/Prepared_cert.h and src/Prepared_cert.cc. */
module PreparedCerts {
  import opened Wrappers
  import opened Types
  import CertificateState
  import opened PreparedCertState
  import opened Certificates

  class PreparedCert {
    const pc: Certificate<Digest>
    var pp: Option<Digest>
    var primary: bool

    ghost predicate Valid()
      reads this, pc, pc.vals
    {
      pc.Valid()
    }

    ghost function State(): (p: PCert)
      requires Valid()
      reads this, pc, pc.vals
      ensures p.WellFormed()
    {
      PCert(pp, pc.State(), primary)
    }

    constructor (f: nat, me: int)
      requires f >= 1
      ensures Valid() && fresh(pc) && fresh(pc.vals)
      ensures State() == EmptyPCert(f, me)
    {
      pc := new Certificate(f, me, 2 * f);
      pp, primary := None, false;
    }

    method IsComplete() returns (b: bool)
      requires Valid()
      ensures b == State().IsComplete()
    {
      var complete := pc.IsComplete();
      var value := pc.CValue();
      b := pp.Some? && complete && value.Some? && value.value.val == pp.value;
    }

    /** Looks for a value that matches d and is counted f times or more. */
    method FindBacking(d: Digest) returns (found: bool)
      requires Valid()
      ensures found == HasBacking(State().pc, d)
    {
      var next := 0;
      while next < pc.curSize
        invariant next <= pc.curSize
        invariant forall i :: 0 <= i < next ==> !(pc.vals[i].count >= pc.f && pc.vals[i].m.value.val == d)
      {
        if pc.vals[next].count >= pc.f && pc.vals[next].m.value.val == d {
          assert pc.State().vals[next].m.val == d;
          return true;
        }
        next := next + 1;
      }
      return false;
    }

    method IsPPCorrect() returns (b: bool)
      requires Valid()
      ensures b == PreparedCertState.IsPPCorrect(State())
    {
      b := false;
      if pp.Some? {
        b := FindBacking(pp.value);
      }
    }

    method AddPrePrepare(d: Digest, verified: bool, authentic: bool) returns (added: bool)
      requires Valid()
      modifies this
      ensures Valid()
      ensures (State(), added) == PreparedCertState.AddPrePrepare(old(State()), d, verified, authentic)
    {
      if pp.None? {
        if pc.mym.None? {
          if verified {
            pp := Some(d);
            return true;
          }
          if authentic {
            var found := FindBacking(d);
            if found {
              pp := Some(d);
              return true;
            }
          }
        } else if pc.mym.value.val == d && authentic {
          // The prepare already sent decides which pre-prepare can be taken.
          pp := Some(d);
          return true;
        }
      }
      return false;
    }

    method AddPrepare(m: CertificateState.Msg<Digest>) returns (added: bool)
      requires Valid()
      modifies pc, pc.vals
      ensures Valid() && pc.vals == old(pc.vals)
      ensures (State(), added) == PreparedCertState.AddPrepare(old(State()), m)
    {
      added := pc.Add(m);
    }

    method AddMyPrepare(m: CertificateState.Msg<Digest>) returns (added: bool)
      requires Valid() && m.id == pc.me && m.full && pc.mym.None?
      modifies pc, pc.vals
      ensures Valid() && pc.vals == old(pc.vals)
      ensures (State(), added) == PreparedCertState.AddMyPrepare(old(State()), m)
    {
      added := pc.AddMine(m);
    }

    method AddMyPrePrepare(d: Digest)
      requires Valid() && pp.None?
      modifies this
      ensures Valid()
      ensures State() == PreparedCertState.AddMyPrePrepare(old(State()), d)
    {
      pp, primary := Some(d), true;
    }

    method AddOld(d: Digest)
      requires Valid() && pp.None?
      modifies this
      ensures Valid()
      ensures State() == PreparedCertState.AddOld(old(State()), d)
    {
      pp := Some(d);
    }

    method MarkStale(iAmPrimary: bool)
      requires Valid() && (pc.mym.Some? ==> pc.c >= 0 && pc.vals[pc.c].m == pc.mym)
      modifies this, pc, pc.vals
      ensures Valid() && pc.vals == old(pc.vals)
      ensures State() == PreparedCertState.MarkStale(old(State()), iAmPrimary)
    {
      var complete := IsComplete();
      if !complete {
        if !iAmPrimary {
          pp := None;
        }
        pc.MarkStale();
      }
    }

    method Clear()
      requires Valid()
      modifies this, pc, pc.vals
      ensures Valid() && pc.vals == old(pc.vals)
      ensures State() == old(State()).Cleared()
    {
      pp, primary := None, false;
      pc.Clear();
    }

    method RemPrePrepare() returns (r: Option<Digest>)
      requires Valid()
      modifies this
      ensures Valid()
      ensures r == old(pp) && State() == old(State()).(pp := None)
    {
      r := pp;
      pp := None;
    }
  }
}
