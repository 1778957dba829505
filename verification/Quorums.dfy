/** Replica identifiers, the group size n = 3f + 1, and intersection of quorums. */
module Quorums {
  /** The integers below n. */
  function Below(n: nat): (s: set<int>)
    ensures forall i :: i in s <==> 0 <= i < n
    ensures |s| == n
  {
    if n == 0 then {} else Below(n - 1) + {n - 1}
  }

  /** The identifiers of the n = 3f + 1 replicas of a group that tolerates f faults. */
  function Replicas(f: nat): (ids: set<int>)
    ensures forall i :: i in ids <==> 0 <= i < 3 * f + 1
    ensures |ids| == 3 * f + 1
  {
    Below(3 * f + 1)
  }

  lemma SubsetSize<T>(a: set<T>, b: set<T>)
    requires a <= b
    ensures |a| <= |b|
  {
    assert b == a + (b - a);
  }

  lemma Member<T>(s: set<T>) returns (x: T)
    requires |s| >= 1
    ensures x in s
  {
    x :| x in s;
  }

  lemma UnionSize<T>(a: set<T>, b: set<T>)
    ensures |a + b| == |a| + |b| - |a * b|
  {
    assert a + b == a + (b - a);
    assert b == (b - a) + (a * b);
  }

  /** Two quorums of 2f + 1 replicas share a replica outside any set of at most f. */
  lemma QuorumsMeet(f: nat, a: set<int>, b: set<int>, faulty: set<int>) returns (i: int)
    requires a <= Replicas(f) && b <= Replicas(f)
    requires |a| >= 2 * f + 1 && |b| >= 2 * f + 1 && |faulty| <= f
    ensures i in a && i in b && i !in faulty
  {
    UnionSize(a, b);
    SubsetSize(a + b, Replicas(f));
    i := CorrectMember(f, a * b, faulty);
  }

  /** f + 1 replicas cannot all be in a set of at most f. */
  lemma CorrectMember(f: nat, a: set<int>, faulty: set<int>) returns (i: int)
    requires |a| >= f + 1 && |faulty| <= f
    ensures i in a && i !in faulty
  {
    if forall k :: k in a ==> k in faulty {
      SubsetSize(a, faulty);
      assert false;
    }
    i :| i in a && i !in faulty;
  }
}
