/**
 * The hash index: class BHash of src/bhash.h and src/bhash.t, refining a finite map.  The chains are the sequences of
 * module HashChains.
 */
module HashIndex {
  import opened Wrappers
  import opened HashChains

  const WORD: int := 0x1_0000_0000
  const HASH_MULT: int := 1737350767
  const EXCESSIVE_RECIPROCAL_ALPHA: int := 20
  const MIN_SIZE: int := 4
  const MAX_DESIRED_ALPHA: int := 3
  const MAX_SLOTS: int := 0x4000_0000  // the greatest power of two that an int holds with room to double

  function Pow2(n: nat): (p: nat)
    ensures p >= 1
  {
    if n == 0 then 1 else 2 * Pow2(n - 1)
  }

  /** What a 32-bit int holds after an operation with exact result x. */
  function Wrap32(x: int): int {
    (x + WORD / 2) % WORD - WORD / 2
  }

  /** do_hash: the top bits of the product. */
  function Slot(h: int, shift: nat): nat {
    Quotient(h * HASH_MULT % WORD, Pow2(shift))
  }

  function Quotient(x: nat, p: nat): nat
    requires p > 0
  {
    x / p
  }

  lemma {:induction false} Pow2Split(n: nat, shift: nat)
    requires shift <= n
    ensures Pow2(n) == Pow2(n - shift) * Pow2(shift)
    decreases shift
  {
    if shift > 0 {
      Pow2Split(n, shift - 1);
      assert Pow2(n - shift + 1) == 2 * Pow2(n - shift);
    }
  }

  lemma MulGrows(a: nat, b: nat, p: nat)
    requires a <= b
    ensures a * p <= b * p
  {
  }

  lemma QuotientBelow(x: nat, p: nat, q: nat)
    requires p > 0 && x < q * p
    ensures Quotient(x, p) < q
  {
    if q <= Quotient(x, p) {
      MulGrows(q, Quotient(x, p), p);
      assert false;
    }
  }

  lemma Pow2Values()
    ensures Pow2(1) == 2 && Pow2(30) == MAX_SLOTS && Pow2(32) == WORD
  {
    assert Pow2(8) == 256;
    Pow2Split(16, 8);
    Pow2Split(32, 16);
    assert Pow2(32) == 2 * Pow2(31) && Pow2(31) == 2 * Pow2(30);
  }

  /** Every element hashes to a slot of the table, for as many slots as bits are left. */
  lemma SlotInRange(h: int, shift: nat)
    requires shift <= 32
    ensures Slot(h, shift) < Pow2(32 - shift)
  {
    Pow2Split(32, shift);
    Pow2Values();
    QuotientBelow(h * HASH_MULT % WORD, Pow2(shift), Pow2(32 - shift));
  }

  /** The slot is what the product, cut to 32 bits, has above its last "shift" bits. */
  lemma SlotIsTop(h: int, shift: nat)
    ensures Slot(h, shift) * Pow2(shift) <= h * HASH_MULT % WORD < Slot(h, shift) * Pow2(shift) + Pow2(shift)
  {
    DivisionBounds(h * HASH_MULT % WORD, Pow2(shift));
  }

  lemma DivisionBounds(x: nat, p: nat)
    requires p > 0
    ensures Quotient(x, p) * p <= x < Quotient(x, p) * p + p
  {
  }

  function Entry<K, V>(items: map<K, V>, k: K): Option<V> {
    if k in items then Some(items[k]) else None
  }

  /** Every chain has only keys that belong to it, each at most once, and the chains have exactly the items. */
  ghost predicate Placed<K(!new), V>(hash: K -> int, shift: nat, chains: seq<seq<Elem<K, V>>>, items: map<K, V>) {
    && 2 <= shift <= 31 && |chains| == Pow2(32 - shift)
    && (forall i :: 0 <= i < |chains| ==> NoneSimilar(chains[i]))
    && (forall i, j :: 0 <= i < |chains| && 0 <= j < |chains[i]| ==> Slot(hash(chains[i][j].key), shift) == i)
    && (forall k :: Slot(hash(k), shift) < |chains| && Lookup(chains[Slot(hash(k), shift)], k) == Entry(items, k))
  }

  lemma PlacedKey<K(!new), V>(hash: K -> int, shift: nat, chains: seq<seq<Elem<K, V>>>, items: map<K, V>, k: K)
    requires Placed(hash, shift, chains, items)
    ensures Slot(hash(k), shift) < |chains| && NoneSimilar(chains[Slot(hash(k), shift)])
    ensures Lookup(chains[Slot(hash(k), shift)], k) == Entry(items, k)
  {
  }

  lemma PlacedSize<K(!new), V>(hash: K -> int, shift: nat, chains: seq<seq<Elem<K, V>>>, items: map<K, V>)
    requires Placed(hash, shift, chains, items)
    ensures 2 <= shift <= 31 && |chains| == Pow2(32 - shift)
  {
  }

  lemma NothingPlaced<K(!new), V>(hash: K -> int, shift: nat, chains: seq<seq<Elem<K, V>>>)
    requires 2 <= shift <= 31 && |chains| == Pow2(32 - shift) && forall i :: 0 <= i < |chains| ==> chains[i] == []
    ensures Placed(hash, shift, chains, map[])
  {
    forall k: K ensures Slot(hash(k), shift) < |chains| {
      SlotInRange(hash(k), shift);
    }
  }

  /** Changing the chain of one key, for that key alone, changes the item of that key alone. */
  lemma PlacedAgain<K(!new), V>(hash: K -> int, shift: nat, chains: seq<seq<Elem<K, V>>>, items: map<K, V>,
                                k: K, chain: seq<Elem<K, V>>, items': map<K, V>)
    requires Placed(hash, shift, chains, items) && NoneSimilar(chain) && Slot(hash(k), shift) < |chains|
    requires forall j :: 0 <= j < |chain| ==> Slot(hash(chain[j].key), shift) == Slot(hash(k), shift)
    requires Lookup(chain, k) == Entry(items', k)
    requires forall k' :: k' != k ==> Lookup(chain, k') == Lookup(chains[Slot(hash(k), shift)], k')
    requires forall k' :: k' != k ==> Entry(items', k') == Entry(items, k')
    ensures Placed(hash, shift, chains[Slot(hash(k), shift) := chain], items')
  {
    hide Slot, NoneSimilar, Lookup, Entry, Pow2;
  }

  lemma PlacedStore<K(!new), V>(hash: K -> int, shift: nat, chains: seq<seq<Elem<K, V>>>, items: map<K, V>, e: Elem<K, V>)
    requires Placed(hash, shift, chains, items)
    ensures Slot(hash(e.key), shift) < |chains|
    ensures Placed(hash, shift, chains[Slot(hash(e.key), shift) := Stored(chains[Slot(hash(e.key), shift)], e)],
                   items[e.key := e.value])
  {
    hide Slot, Pow2, NoneSimilar, Lookup;
    PlacedKey(hash, shift, chains, items, e.key);
    var chain := chains[Slot(hash(e.key), shift)];
    LookupStored(chain, e);
    PlacedAgain(hash, shift, chains, items, e.key, Stored(chain, e), items[e.key := e.value]);
  }

  lemma PlacedRemove<K(!new), V>(hash: K -> int, shift: nat, chains: seq<seq<Elem<K, V>>>, items: map<K, V>, k: K)
    requires Placed(hash, shift, chains, items)
    ensures Slot(hash(k), shift) < |chains|
    ensures Placed(hash, shift, chains[Slot(hash(k), shift) := Removed(chains[Slot(hash(k), shift)], k)], items - {k})
  {
    hide Slot, Pow2, NoneSimilar, Lookup;
    PlacedKey(hash, shift, chains, items, k);
    var chain := chains[Slot(hash(k), shift)];
    LookupRemoved(chain, k);
    PlacedAgain(hash, shift, chains, items, k, Removed(chain, k), items - {k});
  }

  // ------------------------------------------------------------------
  // Choosing a size
  // ------------------------------------------------------------------

  /** What the loop of sizeup holds: once the slots do not fit an int, they are negative and then none. */
  function Slots(shift: nat): int
    requires shift <= 31
  {
    if shift >= 2 then Pow2(32 - shift) else if shift == 1 then -0x8000_0000 else 0
  }

  lemma SlotsDouble(shift: nat)
    requires 1 <= shift <= 31
    ensures Slots(shift - 1) == Wrap32(Slots(shift) * 2)
  {
    Pow2Values();
    if shift > 2 {
      Pow2Grows(33 - shift, 30);
    }
  }

  lemma {:induction false} Pow2Grows(m: nat, n: nat)
    requires m <= n
    ensures Pow2(m) <= Pow2(n)
    decreases n
  {
    if m < n {
      Pow2Grows(m, n - 1);
    }
  }

  /** The table fits the wish exactly when the wish is at most MAX_SLOTS; otherwise there is no slot at all. */
  method Sizeup(desired: int) returns (numSlots: int, shift: nat)
    ensures if desired <= MAX_SLOTS
            then 2 <= shift <= 31 && numSlots == Pow2(32 - shift) >= desired && (numSlots == 2 || numSlots < 2 * desired)
            else numSlots == 0 && shift == 0
  {
    numSlots, shift := 2, 31;
    Pow2Values();
    while numSlots < desired && shift > 0
      invariant shift <= 31 && numSlots == Slots(shift)
      invariant 2 <= shift < 31 ==> numSlots < 2 * desired
      invariant shift < 2 ==> desired > MAX_SLOTS
      decreases shift
    {
      SlotsDouble(shift);
      numSlots := Wrap32(numSlots * 2);
      shift := shift - 1;
    }
    if shift >= 2 {
      Pow2Grows(32 - shift, 30);
    }
  }

  // ------------------------------------------------------------------
  // The table
  // ------------------------------------------------------------------

  class BHash<K(==,!new), V> {
    const hash: K -> int
    var numItems: nat
    var numSlots: int
    var rightShift: nat
    var buckets: array<seq<Elem<K, V>>>
    ghost var items: map<K, V>

    ghost predicate Valid()
      reads this, buckets
    {
      Placed(hash, rightShift, buckets[..], items) && numSlots == buckets.Length && numItems == |items|
    }

    constructor (hash: K -> int, sizeHint: int)
      requires sizeHint <= MAX_SLOTS
      ensures Valid() && fresh(buckets) && this.hash == hash && items == map[]
    {
      var slots, shift := Sizeup(sizeHint);
      this.hash, numItems, numSlots, rightShift, items := hash, 0, slots, shift, map[];
      buckets := new seq<Elem<K, V>>[slots](_ => []);
      new;
      NothingPlaced(hash, rightShift, buckets[..]);
    }

    method Find(k: K) returns (r: Option<V>)
      requires Valid()
      ensures r == Entry(items, k)
    {
      PlacedKey(hash, rightShift, buckets[..], items, k);
      r := Lookup(buckets[Slot(hash(k), rightShift)], k);
    }

    method Add(e: Elem<K, V>)
      requires Valid() && e.key !in items
      modifies this`numItems, this`items, buckets
      ensures Valid() && items == old(items)[e.key := e.value]
    {
      hide Slot, Pow2, NoneSimilar, Placed;
      PlacedStore(hash, rightShift, buckets[..], items, e);
      PlacedKey(hash, rightShift, buckets[..], items, e.key);
      var i := Slot(hash(e.key), rightShift);
      ghost var chains := buckets[..];
      buckets[i] := [e] + buckets[i];
      assert buckets[..] == chains[i := Stored(chains[i], e)];
      numItems, items := numItems + 1, items[e.key := e.value];
    }

    /** Gives what is there for the key, or else adds the element. */
    method FindOrAdd(e: Elem<K, V>) returns (r: Option<V>)
      requires Valid()
      modifies this`numItems, this`items, buckets
      ensures Valid() && r == Entry(old(items), e.key)
      ensures items == if e.key in old(items) then old(items) else old(items)[e.key := e.value]
    {
      r := Find(e.key);
      if r == None {
        Add(e);
      }
    }

    method Store(e: Elem<K, V>) returns (found: bool)
      requires Valid()
      modifies this`numItems, this`items, buckets
      ensures Valid() && items == old(items)[e.key := e.value] && found == (e.key in old(items))
    {
      hide Slot, Pow2, NoneSimilar, Placed, Stored;
      PlacedStore(hash, rightShift, buckets[..], items, e);
      PlacedKey(hash, rightShift, buckets[..], items, e.key);
      var i := Slot(hash(e.key), rightShift);
      ghost var chains := buckets[..];
      found := Lookup(buckets[i], e.key) != None;
      buckets[i] := Stored(buckets[i], e);
      assert buckets[..] == chains[i := Stored(chains[i], e)];
      if !found {
        numItems := numItems + 1;
      }
      assert e.key in items ==> items[e.key := e.value].Keys == items.Keys;
      items := items[e.key := e.value];
    }

    method Remove(k: K) returns (r: Option<V>)
      requires Valid()
      modifies this`numItems, this`items, buckets
      ensures Valid() && items == old(items) - {k} && r == Entry(old(items), k)
    {
      hide Slot, Pow2, NoneSimilar, Placed, Removed;
      PlacedRemove(hash, rightShift, buckets[..], items, k);
      PlacedKey(hash, rightShift, buckets[..], items, k);
      FewerItems(items, k);
      var i := Slot(hash(k), rightShift);
      ghost var chains := buckets[..];
      r := Lookup(buckets[i], k);
      buckets[i] := Removed(buckets[i], k);
      assert buckets[..] == chains[i := Removed(chains[i], k)];
      if r.Some? {
        numItems := numItems - 1;
      }
      items := items - {k};
    }

    method Clear()
      requires Valid()
      modifies this`numItems, this`items, buckets
      ensures Valid() && items == map[]
    {
      hide Placed;
      PlacedSize(hash, rightShift, buckets[..], items);
      for i := 0 to numSlots
        invariant forall j :: 0 <= j < i ==> buckets[j] == []
        modifies buckets
      {
        buckets[i] := [];
      }
      numItems, items := 0, map[];
      NothingPlaced(hash, rightShift, buckets[..]);
    }

    /** Another number of slots, with the same items. */
    method Resize(desired: int)
      requires Valid() && desired <= MAX_SLOTS
      modifies this, buckets
      ensures Valid() && items == old(items) && fresh(buckets) && numSlots >= desired
    {
      hide Slot, Pow2, NoneSimilar, Placed, IndexOf;
      ghost var all, shift, chains := items, rightShift, buckets[..];
      var was, wasSlots := buckets, numSlots;
      numSlots, rightShift := Sizeup(desired);
      buckets := new seq<Elem<K, V>>[numSlots](_ => []);
      numItems, items := 0, map[];
      NothingPlaced(hash, rightShift, buckets[..]);
      NothingMoved(hash, shift, chains, all);
      ghost var new_ := buckets;
      for i := 0 to wasSlots
        invariant Valid() && was[..] == chains && buckets == new_ && numSlots >= desired
        invariant Moved(hash, shift, chains, all, items, i, 0)
        modifies this`numItems, this`items, buckets
      {
        for j := 0 to |was[i]|
          invariant Valid() && was[..] == chains && buckets == new_ && numSlots >= desired
          invariant Moved(hash, shift, chains, all, items, i, j)
          modifies this`numItems, this`items, buckets
        {
          NextMoved(hash, shift, chains, all, items, i, j);
          Add(was[i][j]);
        }
        ChainMoved(hash, shift, chains, all, items, i);
      }
      AllMoved(hash, shift, chains, all, items);
    }

    /** Resizes unless the table has enough slots and not too many. */
    method Predict(desired: int)
      requires Valid() && desired <= MAX_SLOTS
      modifies this, buckets
      ensures Valid() && items == old(items) && (buckets == old(buckets) || fresh(buckets))
    {
      if numSlots >= desired && numSlots < Wrap32(Wrap32(desired * EXCESSIVE_RECIPROCAL_ALPHA) + MIN_SIZE) {
        return;
      }
      if rightShift == 0 && numSlots < desired {
        return;
      }
      Resize(desired);
    }

    method AllowAutoResize()
      requires Valid() && numItems <= MAX_DESIRED_ALPHA * MAX_SLOTS
      modifies this, buckets
      ensures Valid() && items == old(items) && (buckets == old(buckets) || fresh(buckets))
    {
      Predict(numItems / MAX_DESIRED_ALPHA);
    }
  }

  lemma FewerItems<K, V>(items: map<K, V>, k: K)
    ensures |items - {k}| == if k in items then |items| - 1 else |items|
  {
    assert (items - {k}).Keys == items.Keys - {k};
  }

  // ------------------------------------------------------------------
  // Resizing: the items of the chains before i, and of the first j elements of chain i, are in the new table
  // ------------------------------------------------------------------

  ghost predicate MovedKey<K(!new), V>(hash: K -> int, shift: nat, chains: seq<seq<Elem<K, V>>>, i: nat, j: nat, k: K)
  {
    Slot(hash(k), shift) < i
    || (Slot(hash(k), shift) == i && i < |chains| && IndexOf(chains[i], k) < j)
  }

  ghost predicate Moved<K(!new), V>(hash: K -> int, shift: nat, chains: seq<seq<Elem<K, V>>>, all: map<K, V>,
                                    now: map<K, V>, i: nat, j: nat) {
    && Placed(hash, shift, chains, all)
    && forall k :: Entry(now, k) == if MovedKey(hash, shift, chains, i, j, k) then Entry(all, k) else None
  }

  lemma NothingMoved<K(!new), V>(hash: K -> int, shift: nat, chains: seq<seq<Elem<K, V>>>, all: map<K, V>)
    requires Placed(hash, shift, chains, all)
    ensures Moved(hash, shift, chains, all, map[], 0, 0)
  {
    hide Slot, Placed;
  }

  lemma NextMoved<K(!new), V>(hash: K -> int, shift: nat, chains: seq<seq<Elem<K, V>>>, all: map<K, V>,
                              now: map<K, V>, i: nat, j: nat)
    requires Moved(hash, shift, chains, all, now, i, j) && i < |chains| && j < |chains[i]|
    ensures var e := chains[i][j]; e.key !in now && Moved(hash, shift, chains, all, now[e.key := e.value], i, j + 1)
  {
    hide Slot, Pow2;
    var e := chains[i][j];
    FoundAt(chains[i], e.key, j);
    assert Slot(hash(e.key), shift) == i && Entry(now, e.key) == None && Entry(all, e.key) == Some(e.value);
    forall k ensures MovedKey(hash, shift, chains, i, j + 1, k) <==> k == e.key || MovedKey(hash, shift, chains, i, j, k) {
    }
  }

  lemma ChainMoved<K(!new), V>(hash: K -> int, shift: nat, chains: seq<seq<Elem<K, V>>>, all: map<K, V>,
                               now: map<K, V>, i: nat)
    requires i < |chains| && Moved(hash, shift, chains, all, now, i, |chains[i]|)
    ensures Moved(hash, shift, chains, all, now, i + 1, 0)
  {
    hide Slot, Pow2, NoneSimilar;
  }

  lemma AllMoved<K(!new), V>(hash: K -> int, shift: nat, chains: seq<seq<Elem<K, V>>>, all: map<K, V>, now: map<K, V>)
    requires Moved(hash, shift, chains, all, now, |chains|, 0)
    ensures now == all
  {
    hide Slot, Pow2, NoneSimilar;
    forall k ensures Entry(now, k) == Entry(all, k) {
      PlacedKey(hash, shift, chains, all, k);
    }
    assert forall k :: k in now <==> Entry(now, k).Some?;
    assert forall k :: k in all <==> Entry(all, k).Some?;
  }

  // ------------------------------------------------------------------
  // Going through the table
  // ------------------------------------------------------------------

  /** Of the items, those before the place in the table were given. */
  ghost predicate Given<K(!new), V>(hash: K -> int, shift: nat, chains: seq<seq<Elem<K, V>>>, items: map<K, V>,
                                    given: set<K>, slot: nat, next: nat) {
    && Placed(hash, shift, chains, items)
    && forall k :: k in items ==> (k in given <==> MovedKey(hash, shift, chains, slot, next, k))
  }

  lemma GivenPlaced<K(!new), V>(hash: K -> int, shift: nat, chains: seq<seq<Elem<K, V>>>, items: map<K, V>,
                                given: set<K>, slot: nat, next: nat)
    requires Given(hash, shift, chains, items, given, slot, next)
    ensures Placed(hash, shift, chains, items)
  {
  }

  lemma NoneGiven<K(!new), V>(hash: K -> int, shift: nat, chains: seq<seq<Elem<K, V>>>, items: map<K, V>)
    requires Placed(hash, shift, chains, items)
    ensures Given(hash, shift, chains, items, {}, 0, 0)
  {
    hide Slot, Placed;
  }

  lemma ChainGiven<K(!new), V>(hash: K -> int, shift: nat, chains: seq<seq<Elem<K, V>>>, items: map<K, V>,
                               given: set<K>, slot: nat)
    requires slot < |chains| && Given(hash, shift, chains, items, given, slot, |chains[slot]|)
    ensures Given(hash, shift, chains, items, given, slot + 1, 0)
  {
    hide Slot, Pow2, NoneSimilar, Placed;
    forall k | k in items ensures k in given <==> MovedKey(hash, shift, chains, slot + 1, 0, k) {
      PlacedKey(hash, shift, chains, items, k);
    }
  }

  lemma AllGiven<K(!new), V>(hash: K -> int, shift: nat, chains: seq<seq<Elem<K, V>>>, items: map<K, V>, given: set<K>)
    requires Given(hash, shift, chains, items, given, |chains|, 0)
    ensures items.Keys <= given
  {
    hide Slot, Pow2, NoneSimilar, Placed;
    forall k | k in items ensures k in given {
      PlacedKey(hash, shift, chains, items, k);
    }
  }

  lemma NextGiven<K(!new), V>(hash: K -> int, shift: nat, chains: seq<seq<Elem<K, V>>>, items: map<K, V>,
                              given: set<K>, slot: nat, pos: nat)
    requires Given(hash, shift, chains, items, given, slot, pos) && slot < |chains| && pos < |chains[slot]|
    ensures var e := chains[slot][pos];
            && Entry(items, e.key) == Some(e.value) && e.key !in given
            && Given(hash, shift, chains, items, given + {e.key}, slot, pos + 1)
  {
    hide Slot, Pow2;
    var e := chains[slot][pos];
    FoundAt(chains[slot], e.key, pos);
    assert Slot(hash(e.key), shift) == slot;
    forall k | k in items ensures k in given + {e.key} <==> MovedKey(hash, shift, chains, slot, pos + 1, k) {
    }
  }

  lemma IndexWithout<K, V>(s: seq<Elem<K, V>>, i: nat, k: K)
    requires NoneSimilar(s) && i < |s| && s[i].key != k && IndexOf(s, k) < |s|
    ensures IndexOf(WithoutIndex(s, i), k) == if IndexOf(s, k) < i then IndexOf(s, k) else IndexOf(s, k) - 1
  {
    var j := IndexOf(s, k);
    hide NoneSimilar, IndexOf;
    WithoutUnlike(s, i);
    FoundAt(WithoutIndex(s, i), k, if j < i then j else j - 1);
  }

  /** Removing the element given last moves the place back by one. */
  lemma RemoveGiven<K(!new), V>(hash: K -> int, shift: nat, chains: seq<seq<Elem<K, V>>>, items: map<K, V>,
                                given: set<K>, slot: nat, pos: nat)
    requires slot < |chains| && pos < |chains[slot]| && Given(hash, shift, chains, items, given, slot, pos + 1)
    ensures var k := chains[slot][pos].key;
            k in items && Given(hash, shift, chains[slot := WithoutIndex(chains[slot], pos)], items - {k}, given, slot, pos)
  {
    hide Pow2, Slot;
    var key := chains[slot][pos].key;
    FoundAt(chains[slot], key, pos);
    assert Slot(hash(key), shift) == slot;
    PlacedKey(hash, shift, chains, items, key);
    PlacedRemove(hash, shift, chains, items, key);
    var chains' := chains[slot := WithoutIndex(chains[slot], pos)];
    forall k | k in items - {key} ensures k in given <==> MovedKey(hash, shift, chains', slot, pos, k) {
      hide IndexOf;
      PlacedKey(hash, shift, chains, items, k);
      if Slot(hash(k), shift) == slot {
        IndexWithout(chains[slot], pos, k);
      }
    }
  }

  /** Gives every item once, and can remove the one that it gave last. */
  class BHashGenerator<K(==,!new), V> {
    const table: BHash<K, V>
    var slot: nat
    var pos: nat       // the place in the chain of the element given last, or of the next one
    var current: bool  // whether the element given last is still there
    ghost var given: set<K>

    ghost predicate Valid()
      reads this, table, table.buckets
    {
      && table.Valid() && slot <= table.buckets.Length
      && (current ==> slot < table.buckets.Length && pos < |table.buckets[slot]|)
      && (slot < table.buckets.Length ==> pos <= |table.buckets[slot]|)
      && Given(table.hash, table.rightShift, table.buckets[..], table.items, given, slot, NextPos())
    }

    function NextPos(): nat
      reads this
    {
      if current then pos + 1 else pos
    }

    constructor (table: BHash<K, V>)
      requires table.Valid()
      ensures Valid() && this.table == table && given == {} && slot == 0 && !current
    {
      this.table, slot, pos, current, given := table, 0, 0, false, {};
      new;
      hide Slot, Placed;
      NoneGiven(table.hash, table.rightShift, table.buckets[..], table.items);
    }

    /** The next item not given yet, unless all were. */
    method Get() returns (r: Option<Elem<K, V>>)
      requires Valid() && slot < table.buckets.Length
      modifies this
      ensures Valid()
      ensures r == None ==> table.items.Keys <= given && given == old(given)
      ensures r.Some? ==> Entry(table.items, r.value.key) == Some(r.value.value) && r.value.key !in old(given)
      ensures r.Some? ==> given == old(given) + {r.value.key} && current && slot < table.buckets.Length
      ensures r.Some? ==> table.buckets[slot][pos] == r.value
    {
      hide Slot, Pow2, NoneSimilar, IndexOf, Placed;
      if current {
        pos := pos + 1;
        current := false;
      }
      while pos == |table.buckets[slot]|
        invariant Valid() && slot < table.buckets.Length && !current && given == old(given)
        decreases table.buckets.Length - slot
      {
        ChainGiven(table.hash, table.rightShift, table.buckets[..], table.items, given, slot);
        slot, pos := slot + 1, 0;
        if slot == table.numSlots {
          AllGiven(table.hash, table.rightShift, table.buckets[..], table.items, given);
          return None;
        }
      }
      NextGiven(table.hash, table.rightShift, table.buckets[..], table.items, given, slot, pos);
      given := given + {table.buckets[slot][pos].key};
      current := true;
      return Some(table.buckets[slot][pos]);
    }

    method Remove()
      requires Valid() && current
      modifies this`current, table`numItems, table`items, table.buckets
      ensures Valid() && !current && given == old(given)
      ensures table.items == old(table.items) - {old(table.buckets[slot][pos].key)}
      ensures table.numItems == old(table.numItems) - 1
    {
      hide Slot, Pow2, NoneSimilar, IndexOf, Placed, MovedKey;
      RemoveGiven(table.hash, table.rightShift, table.buckets[..], table.items, given, slot, pos);
      ghost var key, chains := table.buckets[slot][pos].key, table.buckets[..];
      FewerItems(table.items, key);
      GivenPlaced(table.hash, table.rightShift, chains[slot := WithoutIndex(chains[slot], pos)], table.items - {key}, given, slot, pos);
      table.buckets[slot] := WithoutIndex(table.buckets[slot], pos);
      assert table.buckets[..] == chains[slot := WithoutIndex(chains[slot], pos)];
      table.numItems, table.items := table.numItems - 1, table.items - {key};
      current := false;
    }
  }
}
