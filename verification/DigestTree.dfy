/**
 * The tree of partitions that gives the state its digest: ptree and stree of
 * src/State.cc over the static tree of src/Partition.h.  Leaves are blocks;
 * an inner partition has up to 256 children and keeps the sum of their digests.
 */
module DigestTree {
  import opened Types
  import opened DigestSums

  const LEVELS: nat := 4
  const LEAF: nat := 3
  const CHILDREN: nat := 256

  /** Part: the last checkpoint that modified a partition, and its digest. */
  datatype Part = Part(lm: Seqno, d: nat)

  /** Digest::set_state_block, uninterpreted, for blocks and for sums; digests are not null and below the modulus. */
  datatype Hasher<!B> = Hasher(block: (B, nat, Seqno) -> nat, sum: (nat, nat, Seqno) -> nat)

  ghost predicate HashesInto<B(!new)>(h: Hasher<B>, m: nat) {
    && m > 0
    && (forall b, i, lm :: 0 < h.block(b, i, lm) < m)
    && (forall s, i, lm :: 0 < h.sum(s, i, lm) < m)
  }

  /** How many partitions of level l there are for nb blocks. */
  function Width(nb: nat, l: nat): (w: nat)
    requires l < LEVELS
    decreases LEVELS - l
  {
    if l == LEAF then nb else (Width(nb, l + 1) + CHILDREN - 1) / CHILDREN
  }

  function Parent(i: nat): nat {
    i / CHILDREN
  }

  /** Where the children of j start among w partitions. */
  function ChildStart(w: nat, j: nat): nat {
    if j * CHILDREN <= w then j * CHILDREN else w
  }

  /** The end of the children of j among w partitions. */
  function ChildEnd(w: nat, j: nat): nat {
    if (j + 1) * CHILDREN <= w then (j + 1) * CHILDREN else w
  }

  /** Partitions of every level, and the sums of all levels but the last. */
  datatype Tree = Tree(parts: seq<seq<Part>>, sums: seq<seq<nat>>)

  ghost predicate Shaped(t: Tree, nb: nat, m: nat) {
    && |t.parts| == LEVELS && |t.sums| == LEAF && m > 0
    && (forall l :: 0 <= l < LEVELS ==> |t.parts[l]| == Width(nb, l))
    && (forall l :: 0 <= l < LEAF ==> |t.sums[l]| == Width(nb, l))
    && (forall l, i :: 0 <= l < LEVELS && 0 <= i < |t.parts[l]| ==> t.parts[l][i].d < m)
    && (forall l, j :: 0 <= l < LEAF && 0 <= j < |t.sums[l]| ==> t.sums[l][j] < m)
  }

  function Digests(parts: seq<Part>): (ds: seq<nat>)
    ensures |ds| == |parts| && forall i :: 0 <= i < |ds| ==> ds[i] == parts[i].d
  {
    seq(|parts|, i requires 0 <= i < |parts| => parts[i].d)
  }

  ghost predicate Small(parts: seq<Part>, m: nat) {
    forall i :: 0 <= i < |parts| ==> parts[i].d < m
  }

  /** The sum of the digests of the children of j. */
  function ChildSum(m: nat, parts: seq<Part>, j: nat): nat
    requires m > 0 && Small(parts, m)
  {
    SumOf(m, Digests(parts), ChildStart(|parts|, j), ChildEnd(|parts|, j))
  }

  /** Every sum of a level is that of its children's digests. */
  ghost predicate SumsOK(m: nat, sums: seq<nat>, children: seq<Part>) {
    && m > 0 && Small(children, m)
    && forall j :: 0 <= j < |sums| ==> sums[j] == ChildSum(m, children, j)
  }

  /** The digests of the leaves are those of the blocks. */
  ghost predicate LeavesOK<B(!new)>(h: Hasher<B>, mem: seq<B>, parts: seq<Part>) {
    |parts| == |mem| && forall i :: 0 <= i < |parts| ==> parts[i].d == h.block(mem[i], i, parts[i].lm)
  }

  /** The digests of inner partitions are those of their sums. */
  ghost predicate NodesOK<B(!new)>(h: Hasher<B>, sums: seq<nat>, parts: seq<Part>) {
    |parts| == |sums| && forall i :: 0 <= i < |parts| ==> parts[i].d == h.sum(sums[i], i, parts[i].lm)
  }

  /** The tree is the one that hashing mem from scratch gives. */
  ghost predicate TreeOK<B(!new)>(h: Hasher<B>, m: nat, mem: seq<B>, t: Tree) {
    && Shaped(t, |mem|, m)
    && LeavesOK(h, mem, t.parts[LEAF])
    && forall l :: 0 <= l < LEAF ==> SumsOK(m, t.sums[l], t.parts[l + 1]) && NodesOK(h, t.sums[l], t.parts[l])
  }

  ghost predicate SameModified(a: seq<Part>, b: seq<Part>) {
    |a| == |b| && forall i :: 0 <= i < |a| ==> a[i].lm == b[i].lm
  }

  lemma SameDigestsSameSums(m: nat, sums: seq<nat>, sums': seq<nat>, parts: seq<Part>)
    requires SumsOK(m, sums, parts) && SumsOK(m, sums', parts) && |sums| == |sums'|
    ensures sums == sums'
  {
    forall j | 0 <= j < |sums| ensures sums[j] == sums'[j] {
    }
  }

  lemma SamePartsFromSums<B(!new)>(h: Hasher<B>, sums: seq<nat>, a: seq<Part>, b: seq<Part>)
    requires NodesOK(h, sums, a) && NodesOK(h, sums, b) && SameModified(a, b)
    ensures a == b
  {
  }

  /** Whatever way it came about, the tree of a memory is determined by when its partitions were modified. */
  lemma TreeIsDetermined<B(!new)>(h: Hasher<B>, m: nat, mem: seq<B>, t: Tree, t': Tree)
    requires TreeOK(h, m, mem, t) && TreeOK(h, m, mem, t')
    requires forall l :: 0 <= l < LEVELS ==> SameModified(t.parts[l], t'.parts[l])
    ensures t == t'
  {
    hide SumsOK, NodesOK, SameModified;
    LeavesDetermined(h, mem, t.parts[3], t'.parts[3]);
    LevelDetermined(h, m, mem, t, t', 2);
    LevelDetermined(h, m, mem, t, t', 1);
    LevelDetermined(h, m, mem, t, t', 0);
  }

  lemma LeavesDetermined<B(!new)>(h: Hasher<B>, mem: seq<B>, a: seq<Part>, b: seq<Part>)
    requires LeavesOK(h, mem, a) && LeavesOK(h, mem, b) && SameModified(a, b)
    ensures a == b
  {
  }

  lemma LevelDetermined<B(!new)>(h: Hasher<B>, m: nat, mem: seq<B>, t: Tree, t': Tree, l: nat)
    requires TreeOK(h, m, mem, t) && TreeOK(h, m, mem, t') && l < LEAF
    requires SameModified(t.parts[l], t'.parts[l]) && t.parts[l + 1] == t'.parts[l + 1]
    ensures t.parts[l] == t'.parts[l] && t.sums[l] == t'.sums[l]
  {
    hide SumsOK, NodesOK, SameModified;
    SameDigestsSameSums(m, t.sums[l], t'.sums[l], t.parts[l + 1]);
    SamePartsFromSums(h, t.sums[l], t.parts[l], t'.parts[l]);
  }

  // ------------------------------------------------------------------
  // One partition changes
  // ------------------------------------------------------------------

  /** The parent's sum follows by taking away the old digest and adding the new one; no other sum changes. */
  lemma SumsFollow(m: nat, sums: seq<nat>, parts: seq<Part>, i: nat, p: Part)
    requires SumsOK(m, sums, parts) && i < |parts| && Parent(i) < |sums| && p.d < m
    requires forall j :: 0 <= j < |sums| ==> sums[j] < m
    ensures var j := Parent(i);
            SumsOK(m, sums[j := AddDigest(m, SubDigest(m, sums[j], parts[i].d), p.d)], parts[i := p])
  {
    hide SumOf, AddDigest, SubDigest;
    var j0, parts' := Parent(i), parts[i := p];
    var sums' := sums[j0 := AddDigest(m, SubDigest(m, sums[j0], parts[i].d), p.d)];
    assert Digests(parts') == Digests(parts)[i := p.d];
    forall j | 0 <= j < |sums'| ensures sums'[j] == ChildSum(m, parts', j) {
      if j == j0 {
        SumReplace(m, Digests(parts), ChildStart(|parts|, j), ChildEnd(|parts|, j), i, p.d);
      } else {
        SumSame(m, Digests(parts), Digests(parts'), ChildStart(|parts|, j), ChildEnd(|parts|, j));
      }
    }
  }

  lemma ParentInWidth(nb: nat, l: nat, i: nat)
    requires 0 < l < LEVELS && i < Width(nb, l)
    ensures Parent(i) < Width(nb, l - 1)
  {
  }

  lemma StartsInWidth(nb: nat, l: nat, j: nat)
    requires 0 < l < LEVELS && j < Width(nb, l - 1)
    ensures j * CHILDREN <= Width(nb, l)
  {
  }

  /** The root is alone. */
  lemma RootIsAlone(nb: nat)
    requires 1 <= nb <= CHILDREN * CHILDREN * CHILDREN
    ensures Width(nb, 0) == 1
  {
    assert Width(nb, 3) == nb;
    assert Width(nb, 2) == (nb + 255) / 256;
    assert Width(nb, 1) == (Width(nb, 2) + 255) / 256;
    assert Width(nb, 0) == (Width(nb, 1) + 255) / 256;
  }
}
