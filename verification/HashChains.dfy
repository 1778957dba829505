/**
 * The chains of the hash index: src/buckets.h and src/buckets.t.  A chain is a linked list that is changed in place,
 * here against a sequence of elements in which no two are similar, that is, have the same key.
 */
module HashChains {
  import opened Wrappers

  datatype Elem<K, V> = Elem(key: K, value: V)

  /** Where the key is in the chain, or its length. */
  function IndexOf<K(==), V>(s: seq<Elem<K, V>>, k: K): (i: nat)
    ensures i <= |s| && (forall j :: 0 <= j < i ==> s[j].key != k) && (i < |s| ==> s[i].key == k)
  {
    if s == [] || s[0].key == k then 0 else IndexOf(s[1..], k) + 1
  }

  function Lookup<K(==), V>(s: seq<Elem<K, V>>, k: K): Option<V> {
    if IndexOf(s, k) < |s| then Some(s[IndexOf(s, k)].value) else None
  }

  /** A similar element is replaced where it is, and a new one comes first. */
  function Stored<K(==), V>(s: seq<Elem<K, V>>, e: Elem<K, V>): seq<Elem<K, V>> {
    if IndexOf(s, e.key) < |s| then s[IndexOf(s, e.key) := e] else [e] + s
  }

  function WithoutIndex<T>(s: seq<T>, i: nat): seq<T>
    requires i < |s|
  {
    s[..i] + s[i + 1..]
  }

  function Removed<K(==), V>(s: seq<Elem<K, V>>, k: K): seq<Elem<K, V>> {
    if IndexOf(s, k) < |s| then WithoutIndex(s, IndexOf(s, k)) else s
  }

  ghost predicate NoneSimilar<K, V>(s: seq<Elem<K, V>>) {
    forall i, j :: 0 <= i < j < |s| ==> s[i].key != s[j].key
  }

  lemma FoundAt<K, V>(s: seq<Elem<K, V>>, k: K, i: nat)
    requires NoneSimilar(s) && i < |s| && s[i].key == k
    ensures IndexOf(s, k) == i
  {
  }

  lemma LookupStored<K(!new), V>(s: seq<Elem<K, V>>, e: Elem<K, V>)
    requires NoneSimilar(s)
    ensures NoneSimilar(Stored(s, e))
    ensures forall k :: Lookup(Stored(s, e), k) == if k == e.key then Some(e.value) else Lookup(s, k)
  {
    var i, t := IndexOf(s, e.key), Stored(s, e);
    forall k ensures Lookup(t, k) == if k == e.key then Some(e.value) else Lookup(s, k) {
      var j := IndexOf(s, k);
      if i < |s| {
        if j < |s| {
          FoundAt(t, k, j);
        }
      } else if k == e.key {
        FoundAt(t, k, 0);
      } else if j < |s| {
        FoundAt(t, k, j + 1);
      }
    }
  }

  lemma LookupRemoved<K(!new), V>(s: seq<Elem<K, V>>, k: K)
    requires NoneSimilar(s)
    ensures NoneSimilar(Removed(s, k))
    ensures forall k' :: Lookup(Removed(s, k), k') == if k' == k then None else Lookup(s, k')
  {
    var i, t := IndexOf(s, k), Removed(s, k);
    if i < |s| {
      assert forall j :: 0 <= j < |t| ==> t[j] == s[if j < i then j else j + 1];
      forall k' ensures Lookup(t, k') == if k' == k then None else Lookup(s, k') {
        var j := IndexOf(s, k');
        if j < |s| && j != i {
          FoundAt(t, k', if j < i then j else j - 1);
        }
      }
    }
  }

  // ------------------------------------------------------------------
  // The linked list
  // ------------------------------------------------------------------

  class Node<K, V> {
    var elem: Elem<K, V>
    var next: Node?<K, V>

    constructor (elem: Elem<K, V>, next: Node?<K, V>)
      ensures this.elem == elem && this.next == next
    {
      this.elem, this.next := elem, next;
    }
  }

  function At<T>(s: seq<T>, i: nat): Option<T> {
    if i < |s| then Some(s[i]) else None
  }

  ghost predicate IsLink<K, V>(p: Node?<K, V>, nodes: seq<Node<K, V>>, i: nat) {
    if i < |nodes| then p == nodes[i] else p == null
  }

  ghost predicate ChainLinked<K, V>(pairs: Node?<K, V>, nodes: seq<Node<K, V>>)
    reads nodes
  {
    && IsLink(pairs, nodes, 0)
    && (forall i :: 0 <= i < |nodes| ==> IsLink(nodes[i].next, nodes, i + 1))
    && (forall i, j :: 0 <= i < j < |nodes| ==> nodes[i] != nodes[j])
  }

  ghost function Elems<K, V>(nodes: seq<Node<K, V>>): (s: seq<Elem<K, V>>)
    reads nodes
    ensures |s| == |nodes| && forall i :: 0 <= i < |s| ==> s[i] == nodes[i].elem
  {
    seq(|nodes|, i requires 0 <= i < |nodes| reads nodes => nodes[i].elem)
  }

  lemma LinkedFirst<K, V>(n: Node<K, V>, nodes: seq<Node<K, V>>)
    requires ChainLinked(n.next, nodes) && n !in nodes
    ensures ChainLinked(n, [n] + nodes) && Elems([n] + nodes) == [n.elem] + Elems(nodes)
  {
    var all := [n] + nodes;
    forall i | 0 <= i < |all| ensures IsLink(all[i].next, all, i + 1) {
      if i > 0 {
        assert all[i] == nodes[i - 1] && IsLink(nodes[i - 1].next, nodes, i);
      }
    }
  }

  /** The list without node i, once the link to it is its own link. */
  lemma LinkedWithout<K, V>(pairs: Node?<K, V>, nodes: seq<Node<K, V>>, i: nat, next: Node?<K, V>)
    requires i < |nodes| && IsLink(next, nodes, i + 1)
    requires forall j, k :: 0 <= j < k < |nodes| ==> nodes[j] != nodes[k]
    requires if i == 0 then pairs == next else IsLink(pairs, nodes, 0) && nodes[i - 1].next == next
    requires forall j :: 0 <= j < |nodes| && j + 1 != i ==> IsLink(nodes[j].next, nodes, j + 1)
    ensures ChainLinked(pairs, WithoutIndex(nodes, i))
  {
    var rest := WithoutIndex(nodes, i);
    forall j | 0 <= j < |rest| ensures IsLink(rest[j].next, rest, j + 1) {
      var k := if j < i then j else j + 1;
      assert rest[j] == nodes[k];
      if j + 1 != i {
        assert IsLink(nodes[k].next, nodes, k + 1);
      }
    }
  }

  lemma ElemsWithout<K, V>(nodes: seq<Node<K, V>>, i: nat)
    requires i < |nodes|
    ensures i < |Elems(nodes)| && Elems(WithoutIndex(nodes, i)) == WithoutIndex(Elems(nodes), i)
  {
  }

  lemma StoredUnlike<K, V>(s: seq<Elem<K, V>>, e: Elem<K, V>)
    requires NoneSimilar(s)
    ensures NoneSimilar(Stored(s, e))
  {
  }

  lemma NewIsUnlike<K, V>(s: seq<Elem<K, V>>, e: Elem<K, V>)
    requires NoneSimilar(s) && IndexOf(s, e.key) == |s|
    ensures NoneSimilar([e] + s)
  {
  }

  lemma WithoutUnlike<K, V>(s: seq<Elem<K, V>>, i: nat)
    requires NoneSimilar(s) && i < |s|
    ensures NoneSimilar(WithoutIndex(s, i))
  {
  }

  class Buckets<K(==), V> {
    var pairs: Node?<K, V>
    ghost var nodes: seq<Node<K, V>>

    ghost predicate Valid()
      reads this, nodes
    {
      ChainLinked(pairs, nodes) && NoneSimilar(Contents())
    }

    ghost function Contents(): seq<Elem<K, V>>
      reads this, nodes
    {
      Elems(nodes)
    }

    constructor ()
      ensures Valid() && Contents() == [] && nodes == []
    {
      pairs, nodes := null, [];
    }

    method Find(k: K) returns (r: Option<V>)
      requires Valid()
      ensures r == Lookup(Contents(), k)
    {
      var b := pairs;
      ghost var i: nat := 0;
      while b != null
        invariant i <= |nodes| && IsLink(b, nodes, i)
        invariant forall j :: 0 <= j < i ==> nodes[j].elem.key != k
        decreases |nodes| - i
      {
        if b.elem.key == k {
          FoundAt(Contents(), k, i);
          return Some(b.elem.value);
        }
        b := b.next;
        i := i + 1;
      }
      return None;
    }

    method Add(e: Elem<K, V>)
      requires Valid() && IndexOf(Contents(), e.key) == |nodes|
      modifies this
      ensures Valid() && Contents() == [e] + old(Contents()) && |nodes| > 0 && fresh(nodes[0]) && nodes[1..] == old(nodes)
    {
      hide IndexOf, Elems, NoneSimilar;
      NewIsUnlike(Contents(), e);
      var n := new Node(e, pairs);
      LinkedFirst(n, nodes);
      pairs := n;
      nodes := [n] + nodes;
    }

    method Store(e: Elem<K, V>) returns (found: bool)
      requires Valid()
      modifies this, nodes
      ensures Valid() && Contents() == Stored(old(Contents()), e) && found == (Lookup(old(Contents()), e.key) != None)
      ensures fresh((set n | n in nodes) - old(set n | n in nodes))
    {
      hide IndexOf;
      StoredUnlike(Contents(), e);
      var b := pairs;
      ghost var i: nat := 0;
      while b != null
        invariant i <= |nodes| && IsLink(b, nodes, i)
        invariant forall j :: 0 <= j < i ==> nodes[j].elem.key != e.key
        decreases |nodes| - i
      {
        if b.elem.key == e.key {
          FoundAt(Contents(), e.key, i);
          b.elem := e;
          return true;
        }
        b := b.next;
        i := i + 1;
      }
      Add(e);
      return false;
    }

    method Remove(k: K) returns (r: Option<Elem<K, V>>)
      requires Valid()
      modifies this, nodes
      ensures Valid() && Contents() == Removed(old(Contents()), k)
      ensures r == At(old(Contents()), IndexOf(old(Contents()), k))
      ensures (set n | n in nodes) <= old(set n | n in nodes)
    {
      var last: Node?<K, V>, b := null, pairs;
      ghost var i: nat := 0;
      while b != null
        invariant i <= |nodes| && IsLink(b, nodes, i) && (if i == 0 then last == null else last == nodes[i - 1])
        invariant forall j :: 0 <= j < i ==> nodes[j].elem.key != k
        decreases |nodes| - i
      {
        if b.elem.key == k {
          FoundAt(Contents(), k, i);
          Unlink(last, b, i);
          return Some(b.elem);
        }
        last, b := b, b.next;
        i := i + 1;
      }
      return None;
    }

    /** Makes the link to node i skip it. */
    method Unlink(last: Node?<K, V>, b: Node<K, V>, ghost i: nat)
      requires Valid() && i < |nodes| && b == nodes[i] && (if i == 0 then last == null else last == nodes[i - 1])
      modifies this, nodes
      ensures Valid() && nodes == WithoutIndex(old(nodes), i) && Contents() == WithoutIndex(old(Contents()), i)
      ensures b.elem == old(b.elem)
    {
      hide IndexOf, NoneSimilar, IsLink, WithoutIndex;
      WithoutUnlike(Contents(), i);
      ghost var was := nodes;
      var next := b.next;
      Relink(last, next);
      assert Elems(was) == old(Elems(was));
      LinkedWithout(pairs, was, i, next);
      ElemsWithout(was, i);
      nodes := WithoutIndex(was, i);
    }

    method Relink(last: Node?<K, V>, next: Node?<K, V>)
      modifies this`pairs, if last == null then {} else {last}
      ensures if last == null then pairs == next
              else last.next == next && pairs == old(pairs) && last.elem == old(last.elem)
    {
      if last == null {
        pairs := next;
      } else {
        last.next := next;
      }
    }
  }

  /** Goes through a chain, from which it can remove the element that it gave last. */
  class BucketsGenerator<K(==), V> {
    const buckets: Buckets<K, V>
    var pairs: Node?<K, V>  // the element given last, if it was not removed
    var last: Node?<K, V>   // the node that links to it, or null for the first link
    ghost var pos: nat      // the place of that link

    ghost predicate Valid()
      reads this, buckets, buckets.nodes
    {
      && buckets.Valid() && pos <= |buckets.nodes|
      && (if pos == 0 then last == null else last == buckets.nodes[pos - 1])
      && (pairs != null ==> pos < |buckets.nodes| && pairs == buckets.nodes[pos])
    }

    constructor (buckets: Buckets<K, V>)
      requires buckets.Valid()
      ensures Valid() && this.buckets == buckets && pos == 0 && pairs == null
    {
      this.buckets, pairs, last, pos := buckets, null, null, 0;
    }

    method Get() returns (r: Option<Elem<K, V>>)
      requires Valid()
      modifies this
      ensures Valid() && pos == (if old(pairs) != null then old(pos) + 1 else old(pos))
      ensures r == At(buckets.Contents(), pos) && (pairs != null <==> r.Some?)
    {
      hide NoneSimilar, IndexOf;
      var b := pairs;
      if b != null {
        last := b;
        pos := pos + 1;
      }
      b := if last == null then buckets.pairs else last.next;
      pairs := b;
      return if b != null then Some(b.elem) else None;
    }

    method Remove()
      requires Valid() && pairs != null
      modifies this, buckets, buckets.nodes
      ensures Valid() && pos == old(pos) && pairs == null
      ensures pos < |old(buckets.Contents())| && buckets.Contents() == WithoutIndex(old(buckets.Contents()), pos)
    {
      hide ChainLinked, NoneSimilar, IndexOf;
      buckets.Unlink(last, pairs, pos);
      pairs := null;
    }
  }
}
