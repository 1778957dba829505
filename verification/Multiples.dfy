/** Multiples and remainders. */
module Multiples {
  /** The only multiple of m closer to 0 than m is 0. */
  lemma Multiple(k: int, m: nat)
    ensures (k >= 1 ==> k * m >= m) && (k <= -1 ==> k * m <= 0 - m)
  {
  }

  lemma Remainder(m: nat, q: int, r: nat)
    requires r < m
    ensures (q * m + r) % m == r
  {
    var x := q * m + r;
    assert x == (x / m) * m + x % m;
    assert (x / m - q) * m == r - x % m;
    Multiple(x / m - q, m);
  }
}
