/**
 * Sums of digests modulo a large integer: DSum of src/dsum.h and src/dsum.cc,
 * and what they amount to as nodes of a tree of digests.
 */
module DigestSums {
  import opened Multiples

  /** DSum::add. */
  function AddDigest(m: nat, sum: nat, d: nat): (r: nat)
    requires sum < m && d < m
    ensures r < m
  {
    if sum + d >= m then sum + d - m else sum + d
  }

  /** DSum::sub. */
  function SubDigest(m: nat, sum: nat, d: nat): (r: nat)
    requires sum < m && d < m
    ensures r < m
  {
    if sum < d then sum + m - d else sum - d
  }

  /** Both are exact modulo m. */
  lemma ExactModulo(m: nat, sum: nat, d: nat)
    requires sum < m && d < m
    ensures AddDigest(m, sum, d) == (sum + d) % m
    ensures SubDigest(m, sum, d) == (sum - d) % m
  {
    if sum + d >= m {
      Remainder(m, 1, sum + d - m);
    } else {
      Remainder(m, 0, sum + d);
    }
    if sum < d {
      Remainder(m, -1, sum + m - d);
    } else {
      Remainder(m, 0, sum - d);
    }
  }

  /** Subtraction undoes addition, so the order of updates does not matter. */
  lemma SubUndoesAdd(m: nat, sum: nat, d: nat)
    requires sum < m && d < m
    ensures SubDigest(m, AddDigest(m, sum, d), d) == sum
    ensures AddDigest(m, SubDigest(m, sum, d), d) == sum
  {
  }

  /** The sum of digests [lo..hi) modulo m, added one by one. */
  function SumOf(m: nat, ds: seq<nat>, lo: nat, hi: nat): (r: nat)
    requires lo <= hi <= |ds| && m > 0 && forall i :: 0 <= i < |ds| ==> ds[i] < m
    ensures r < m
    decreases hi - lo
  {
    if lo == hi then 0 else AddDigest(m, SumOf(m, ds, lo, hi - 1), ds[hi - 1])
  }

  lemma {:induction false} SumSame(m: nat, a: seq<nat>, b: seq<nat>, lo: nat, hi: nat)
    requires lo <= hi <= |a| && hi <= |b| && m > 0
    requires (forall i :: 0 <= i < |a| ==> a[i] < m) && (forall i :: 0 <= i < |b| ==> b[i] < m)
    requires forall i :: lo <= i < hi ==> a[i] == b[i]
    ensures SumOf(m, a, lo, hi) == SumOf(m, b, lo, hi)
    decreases hi - lo
  {
    if lo < hi {
      SumSame(m, a, b, lo, hi - 1);
    }
  }

  /** Updates commute with additions. */
  lemma Swap(m: nat, sum: nat, was: nat, now: nat, d: nat)
    requires sum < m && was < m && now < m && d < m
    ensures AddDigest(m, AddDigest(m, SubDigest(m, sum, was), now), d)
         == AddDigest(m, SubDigest(m, AddDigest(m, sum, d), was), now)
  {
  }

  /** Replacing one digest is subtracting the old one and adding the new one. */
  lemma {:induction false} SumReplace(m: nat, ds: seq<nat>, lo: nat, hi: nat, k: nat, d: nat)
    requires lo <= k < hi <= |ds| && m > 0 && d < m && forall i :: 0 <= i < |ds| ==> ds[i] < m
    ensures SumOf(m, ds[k := d], lo, hi) == AddDigest(m, SubDigest(m, SumOf(m, ds, lo, hi), ds[k]), d)
    decreases hi - lo
  {
    var ds' := ds[k := d];
    if k == hi - 1 {
      SumSame(m, ds, ds', lo, hi - 1);
    } else {
      SumReplace(m, ds, lo, hi - 1, k, d);
      Swap(m, SumOf(m, ds, lo, hi - 1), ds[k], d, ds[hi - 1]);
    }
  }
}
