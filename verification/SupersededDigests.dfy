/**
 * The cache of superseded digests: the array "ods" of OReq_info
 * (src/View_info.h) as add_complete and add_incomplete of src/View_info.cc
 * update it.  It has f + 2 entries; what it should hold is the f + 2 digests
 * superseded last, and the lemmas show that it does.
 */
module SupersededDigests {
  import opened Types
  import opened Quorums
  import opened OldRequestState

  /** ODigest_info: a superseded digest and the view it was last sent in, -1 when the entry is free. */
  datatype ODigest = ODigest(d: Digest, v: View)

  /** clear() frees every entry but leaves its digest behind. */
  function FreeAll(ods: seq<ODigest>): (r: seq<ODigest>)
    ensures |r| == |ods|
    ensures forall i :: 0 <= i < |r| ==> r[i] == ODigest(ods[i].d, -1)
  {
    seq(|ods|, i requires 0 <= i < |ods| => ODigest(ods[i].d, -1))
  }

  function FindDigestFrom(ods: seq<ODigest>, d: Digest, from: nat): (i: nat)
    requires from <= |ods|
    ensures from <= i <= |ods|
    ensures i < |ods| ==> ods[i].d == d
    ensures forall j :: from <= j < i ==> ods[j].d != d
    decreases |ods| - from
  {
    if from == |ods| || ods[from].d == d then from else FindDigestFrom(ods, d, from + 1)
  }

  /** The first index with the least view among those up to n. */
  function OldestBefore(ods: seq<ODigest>, n: nat): (i: nat)
    requires 1 <= n <= |ods|
    ensures i < n
    ensures forall j :: 0 <= j < n ==> ods[i].v <= ods[j].v
    ensures forall j :: 0 <= j < i ==> ods[i].v < ods[j].v
  {
    if n == 1 then 0
    else
      var best := OldestBefore(ods, n - 1);
      if ods[n - 1].v < ods[best].v then n - 1 else best
  }

  /** Records that d was last sent in view v: in its own entry, or else in the oldest one. */
  function Supersede(ods: seq<ODigest>, d: Digest, v: View): (r: seq<ODigest>)
    requires |ods| >= 1
    ensures |r| == |ods|
  {
    var i := FindDigestFrom(ods, d, 0);
    ods[if i < |ods| then i else OldestBefore(ods, |ods|) := ODigest(d, v)]
  }

  /** The whole of OReq_info. */
  datatype OReq = OReq(rec: Record, ods: seq<ODigest>)

  function EmptyOReq(f: nat): (o: OReq)
    ensures |o.ods| == f + 2
  {
    OReq(EMPTY_RECORD, seq(f + 2, _ => ODigest(NULL_DIGEST, -1)))
  }

  function ClearOReq(o: OReq): OReq {
    OReq(EMPTY_RECORD, FreeAll(o.ods))
  }

  function AddCompleteO(o: OReq, v: View, d: Digest): OReq {
    OReq(AddComplete(o.rec, v, d), FreeAll(o.ods))
  }

  function AddIncompleteO(o: OReq, v: View, d: Digest): OReq
    requires |o.ods| >= 1
  {
    var rec := AddIncomplete(o.rec, v, d);
    OReq(rec, if o.rec.d == d then o.ods else Supersede(o.ods, o.rec.d, rec.lv))
  }

  function StepO(o: OReq, e: Event): (r: OReq)
    requires |o.ods| >= 1
    ensures |r.ods| == |o.ods| && r.rec == Step(o.rec, e)
  {
    if e.prepared then AddCompleteO(o, e.view, e.d) else AddIncompleteO(o, e.view, e.d)
  }

  /** The record after a history that starts from a cleared one. */
  function ReplayO(start: OReq, events: seq<Event>): (o: OReq)
    requires |start.ods| >= 1
    ensures |o.ods| == |start.ods|
  {
    if events == [] then start
    else StepO(ReplayO(start, events[..|events| - 1]), events[|events| - 1])
  }

  // ------------------------------------------------------------------
  // The unbounded list the cache abbreviates
  // ------------------------------------------------------------------

  /** The list with the entry for d, if any, taken out. */
  function Without(list: seq<ODigest>, d: Digest): seq<ODigest> {
    var j := FindDigestFrom(list, d, 0);
    if j < |list| then Cut(list, j) else list
  }

  /** Every digest superseded since the last prepared event, latest first, each with the view it was last sent in. */
  function Recents(events: seq<Event>): seq<ODigest> {
    if events == [] then []
    else
      var before, e := events[..|events| - 1], events[|events| - 1];
      var r := Replay(before);
      if e.prepared then []
      else if before == [] || r.d == e.d then Recents(before)
      else [ODigest(r.d, Step(r, e).lv)] + Without(Recents(before), r.d)
  }

  ghost predicate IsRecency(list: seq<ODigest>) {
    && (forall i :: 0 <= i < |list| ==> list[i].v >= 0 && list[i].d != NULL_DIGEST)
    && (forall i, j :: 0 <= i < j < |list| ==> list[i].v > list[j].v)
    && (forall i, j :: 0 <= i < j < |list| ==> list[i].d != list[j].d)
  }

  /** Distinct entries hold distinct digests, null ones apart, and null ones are free. */
  ghost predicate OdsShape(ods: seq<ODigest>) {
    && |ods| >= 1
    && (forall i :: 0 <= i < |ods| ==> ods[i].v >= -1 && (ods[i].d == NULL_DIGEST ==> ods[i].v == -1))
    && (forall i, j :: 0 <= i < j < |ods| && ods[i].d == ods[j].d ==> ods[i].d == NULL_DIGEST)
  }

  function LiveEntries(ods: seq<ODigest>): set<int> {
    set i | 0 <= i < |ods| && ods[i].v >= 0
  }

  function Min(a: int, b: int): int {
    if a <= b then a else b
  }

  /** x is among the first n elements of list. */
  ghost predicate Among(list: seq<ODigest>, n: int, x: ODigest) {
    exists p :: 0 <= p < n && p < |list| && list[p] == x
  }

  /** The entries in use are exactly the first |ods| of the list. */
  ghost predicate Caches(ods: seq<ODigest>, list: seq<ODigest>) {
    && (forall j :: 0 <= j < |list| && j < |ods| ==> Among(ods, |ods|, list[j]))
    && (forall i :: 0 <= i < |ods| && ods[i].v >= 0 ==> Among(list, |ods|, ods[i]))
    && |LiveEntries(ods)| == Min(|ods|, |list|)
  }

  /** The digest of a free entry is not in the list. */
  ghost predicate FreeIsStale(ods: seq<ODigest>, list: seq<ODigest>) {
    forall i, j :: 0 <= i < |ods| && ods[i].v < 0 && 0 <= j < |list| ==> ods[i].d != list[j].d
  }

  ghost predicate CacheInv(ods: seq<ODigest>, list: seq<ODigest>) {
    OdsShape(ods) && IsRecency(list) && Caches(ods, list) && FreeIsStale(ods, list)
  }

  lemma CacheInit(ods: seq<ODigest>)
    requires OdsShape(ods) && forall i :: 0 <= i < |ods| ==> ods[i].v == -1
    ensures CacheInv(ods, [])
  {
    assert LiveEntries(ods) == {};
  }

  lemma ShapeUpdate(ods: seq<ODigest>, i: nat, d: Digest, v: View)
    requires OdsShape(ods) && i < |ods| && v >= 0 && d != NULL_DIGEST
    requires forall j :: 0 <= j < |ods| && j != i ==> ods[j].d != d
    ensures OdsShape(ods[i := ODigest(d, v)])
  {
  }

  lemma RecencyCons(list: seq<ODigest>, d: Digest, v: View)
    requires IsRecency(list) && v >= 0 && d != NULL_DIGEST
    requires forall j :: 0 <= j < |list| ==> list[j].d != d && list[j].v < v
    ensures IsRecency([ODigest(d, v)] + list)
  {
  }

  /** list without its element at index j. */
  function Cut(list: seq<ODigest>, j: nat): (r: seq<ODigest>)
    requires j < |list|
    ensures |r| == |list| - 1
    ensures forall p :: 0 <= p < |r| ==> r[p] == list[if p < j then p else p + 1]
  {
    list[..j] + list[j + 1..]
  }

  lemma CutRecency(list: seq<ODigest>, j: nat)
    requires IsRecency(list) && j < |list|
    ensures IsRecency(Cut(list, j))
    ensures forall p :: 0 <= p < |list| - 1 ==> Cut(list, j)[p].d != list[j].d
  {
    hide Cut;
  }

  lemma FreeMeansShort(ods: seq<ODigest>, list: seq<ODigest>, i: nat)
    requires Caches(ods, list) && i < |ods| && ods[i].v < 0
    ensures |list| < |ods|
  {
    SubsetSize(LiveEntries(ods), Below(|ods|) - {i});
  }

  lemma FullMeansLong(ods: seq<ODigest>, list: seq<ODigest>)
    requires Caches(ods, list) && forall i :: 0 <= i < |ods| ==> ods[i].v >= 0
    ensures |list| >= |ods|
  {
    assert LiveEntries(ods) == Below(|ods|);
  }

  /** A free entry takes a digest that the list does not have. */
  lemma CachesFill(ods: seq<ODigest>, list: seq<ODigest>, i: nat, x: ODigest)
    requires Caches(ods, list) && i < |ods| && ods[i].v < 0 && x.v >= 0
    requires forall j :: 0 <= j < |list| ==> list[j].v >= 0
    ensures Caches(ods[i := x], [x] + list)
  {
    FreeMeansShort(ods, list, i);
    var ods', list' := ods[i := x], [x] + list;
    assert LiveEntries(ods') == LiveEntries(ods) + {i};
    forall j | 0 <= j < |list'| && j < |ods| ensures Among(ods', |ods|, list'[j]) {
      if j == 0 {
        assert ods'[i] == x;
      } else {
        var k :| 0 <= k < |ods| && ods[k] == list[j - 1];
        assert ods'[k] == list'[j];
      }
    }
    forall k | 0 <= k < |ods| && ods'[k].v >= 0 ensures Among(list', |ods|, ods'[k]) {
      if k == i {
        assert list'[0] == x;
      } else {
        assert Among(list, |ods|, ods[k]);
        var p :| 0 <= p < |ods| && p < |list| && list[p] == ods[k];
        assert list'[p + 1] == ods'[k];
      }
    }
  }

  /** The entry of a digest superseded again moves to the front of the list. */
  lemma CachesRefresh(ods: seq<ODigest>, list: seq<ODigest>, i: nat, j: nat, x: ODigest)
    requires Caches(ods, list) && IsRecency(list) && OdsShape(ods)
    requires i < |ods| && j < |list| && j < |ods| && ods[i] == list[j] && x.v >= 0
    ensures Caches(ods[i := x], [x] + Cut(list, j))
  {
    hide Cut;
    assert LiveEntries(ods[i := x]) == LiveEntries(ods);
    forall q | 0 <= q < |list| && q < |ods| ensures Among(ods[i := x], |ods|, ([x] + Cut(list, j))[q]) {
      RefreshedHolds(ods, list, i, j, x, q);
    }
    var ods' := ods[i := x];
    forall k | 0 <= k < |ods| && ods'[k].v >= 0 ensures Among([x] + Cut(list, j), |ods|, ods'[k]) {
      RefreshedNames(ods, list, i, j, x, k);
    }
  }

  lemma RefreshedHolds(ods: seq<ODigest>, list: seq<ODigest>, i: nat, j: nat, x: ODigest, q: nat)
    requires Caches(ods, list) && IsRecency(list)
    requires i < |ods| && j < |list| && j < |ods| && ods[i] == list[j]
    requires q < |list| && q < |ods|
    ensures Among(ods[i := x], |ods|, ([x] + Cut(list, j))[q])
  {
    hide Cut;
    if q == 0 {
      assert ods[i := x][i] == x;
    } else {
      var p := if q - 1 < j then q - 1 else q;
      assert ([x] + Cut(list, j))[q] == list[p] && p != j;
      assert Among(ods, |ods|, list[p]);
      var k :| 0 <= k < |ods| && ods[k] == list[p];
      assert ods[i := x][k] == list[p];
    }
  }

  lemma RefreshedNames(ods: seq<ODigest>, list: seq<ODigest>, i: nat, j: nat, x: ODigest, k: nat)
    requires Caches(ods, list) && OdsShape(ods)
    requires i < |ods| && j < |list| && j < |ods| && ods[i] == list[j]
    requires k < |ods| && ods[i := x][k].v >= 0
    ensures Among([x] + Cut(list, j), |ods|, ods[i := x][k])
  {
    hide Cut;
    var list' := [x] + Cut(list, j);
    if k == i {
      assert list'[0] == x;
    } else {
      assert Among(list, |ods|, ods[k]);
      var p :| 0 <= p < |ods| && p < |list| && list[p] == ods[k];
      assert list'[if p < j then p + 1 else p] == ods[k];
    }
  }

  /** A full cache gives up the entry that was sent longest ago. */
  lemma CachesEvict(ods: seq<ODigest>, list: seq<ODigest>, i: nat, x: ODigest, rest: seq<ODigest>)
    requires Caches(ods, list) && IsRecency(list) && OdsShape(ods)
    requires forall k :: 0 <= k < |ods| ==> ods[k].v >= 0
    requires i < |ods| && (forall k :: 0 <= k < |ods| ==> ods[i].v <= ods[k].v) && x.v >= 0
    requires |rest| >= |ods| - 1 && forall p :: 0 <= p < |ods| - 1 && p < |list| ==> rest[p] == list[p]
    ensures Caches(ods[i := x], [x] + rest)
  {
    FullMeansLong(ods, list);
    var n := |ods|;
    var ods', list' := ods[i := x], [x] + rest;
    OldestIsLast(ods, list, i);
    assert LiveEntries(ods') == LiveEntries(ods);
    forall q | 0 <= q < |list'| && q < n ensures Among(ods', n, list'[q]) {
      if q == 0 {
        assert ods'[i] == x;
      } else {
        assert list'[q] == list[q - 1] && Among(ods, n, list[q - 1]);
        var k :| 0 <= k < n && ods[k] == list[q - 1];
        assert k != i;
        assert ods'[k] == list'[q];
      }
    }
    forall k | 0 <= k < n && ods'[k].v >= 0 ensures Among(list', n, ods'[k]) {
      if k == i {
        assert list'[0] == x;
      } else {
        assert Among(list, n, ods[k]);
        var p :| 0 <= p < n && p < |list| && list[p] == ods[k];
        assert p != n - 1;
        assert list'[p + 1] == ods'[k];
      }
    }
  }

  lemma OldestIsLast(ods: seq<ODigest>, list: seq<ODigest>, i: nat)
    requires Caches(ods, list) && IsRecency(list) && i < |ods| <= |list|
    requires forall k :: 0 <= k < |ods| ==> 0 <= ods[i].v <= ods[k].v
    ensures ods[i] == list[|ods| - 1]
  {
    var n := |ods|;
    assert Among(list, n, ods[i]) && Among(ods, n, list[n - 1]);
    var p :| 0 <= p < n && p < |list| && list[p] == ods[i];
    var k :| 0 <= k < n && ods[k] == list[n - 1];
    assert p == n - 1;
  }

  lemma StaleKept(ods: seq<ODigest>, list: seq<ODigest>, i: nat, x: ODigest, rest: seq<ODigest>)
    requires i < |ods| && FreeIsStale(ods, list) && OdsShape(ods[i := x]) && x.v >= 0 && x.d != NULL_DIGEST
    requires forall q :: 0 <= q < |rest| ==> Among(list, |list|, rest[q])
    ensures FreeIsStale(ods[i := x], [x] + rest)
  {
    var ods', list' := ods[i := x], [x] + rest;
    forall k, q | 0 <= k < |ods| && ods'[k].v < 0 && 0 <= q < |list'| ensures ods'[k].d != list'[q].d {
      if q == 0 {
        assert ods'[i] == x;
      } else {
        assert Among(list, |list|, rest[q - 1]);
      }
    }
  }

  /** d is superseded again while the cache still has it. */
  lemma SupersedeLive(ods: seq<ODigest>, list: seq<ODigest>, i: nat, d: Digest, v: View)
    requires CacheInv(ods, list) && v >= 0 && d != NULL_DIGEST
    requires forall j :: 0 <= j < |list| ==> list[j].v < v
    requires i < |ods| && ods[i].v >= 0 && ods[i].d == d
    ensures CacheInv(ods[i := ODigest(d, v)], [ODigest(d, v)] + Without(list, d))
  {
    hide Caches, FreeIsStale, Cut;
    var j := CachedAt(ods, list, i);
    var x := ODigest(d, v);
    assert FindDigestFrom(list, d, 0) == j;
    ShapeUpdate(ods, i, d, v);
    CutRecency(list, j);
    RecencyCons(Cut(list, j), d, v);
    CachesRefresh(ods, list, i, j, x);
    forall q | 0 <= q < |list| - 1 ensures Among(list, |list|, Cut(list, j)[q]) {
      assert Cut(list, j)[q] == list[if q < j then q else q + 1];
    }
    StaleKept(ods, list, i, x, Cut(list, j));
  }

  lemma CachedAt(ods: seq<ODigest>, list: seq<ODigest>, i: nat) returns (j: nat)
    requires Caches(ods, list) && i < |ods| && ods[i].v >= 0
    ensures j < |list| && j < |ods| && list[j] == ods[i]
  {
    assert Among(list, |ods|, ods[i]);
    j :| 0 <= j < |ods| && j < |list| && list[j] == ods[i];
  }

  /** The digest of a free entry, or one that no entry has while one is free, is not in the list. */
  lemma FreshDigest(ods: seq<ODigest>, list: seq<ODigest>, i: nat, d: Digest)
    requires Caches(ods, list) && FreeIsStale(ods, list) && i < |ods| && ods[i].v < 0
    requires forall j :: 0 <= j < |ods| && j != i ==> ods[j].d != d
    ensures forall j :: 0 <= j < |list| ==> list[j].d != d
  {
    FreeMeansShort(ods, list, i);
    forall j | 0 <= j < |list| ensures list[j].d != d {
      assert Among(ods, |ods|, list[j]);
    }
  }

  lemma SupersedeFree(ods: seq<ODigest>, list: seq<ODigest>, i: nat, d: Digest, v: View)
    requires CacheInv(ods, list) && v >= 0 && d != NULL_DIGEST
    requires forall j :: 0 <= j < |list| ==> list[j].v < v
    requires i < |ods| && ods[i].v < 0 && forall j :: 0 <= j < |ods| && j != i ==> ods[j].d != d
    ensures CacheInv(ods[i := ODigest(d, v)], [ODigest(d, v)] + Without(list, d))
  {
    hide Caches, FreeIsStale, Cut;
    FreshDigest(ods, list, i, d);
    assert Without(list, d) == list;
    ShapeUpdate(ods, i, d, v);
    RecencyCons(list, d, v);
    CachesFill(ods, list, i, ODigest(d, v));
    forall q | 0 <= q < |list| ensures Among(list, |list|, list[q]) {
    }
    StaleKept(ods, list, i, ODigest(d, v), list);
  }

  lemma SupersedeOldest(ods: seq<ODigest>, list: seq<ODigest>, i: nat, d: Digest, v: View)
    requires CacheInv(ods, list) && v >= 0 && d != NULL_DIGEST
    requires forall j :: 0 <= j < |list| ==> list[j].v < v
    requires i < |ods| && forall k :: 0 <= k < |ods| ==> 0 <= ods[i].v <= ods[k].v && ods[k].d != d
    ensures CacheInv(ods[i := ODigest(d, v)], [ODigest(d, v)] + Without(list, d))
  {
    hide FreeIsStale, Cut, Caches;
    FullMeansLong(ods, list);
    var j, rest := FindDigestFrom(list, d, 0), Without(list, d);
    if j < |ods| {
      HeldAt(ods, list, j);
    }
    ShapeUpdate(ods, i, d, v);
    if j < |list| {
      CutRecency(list, j);
    }
    RecencyCons(rest, d, v);
    CachesEvict(ods, list, i, ODigest(d, v), rest);
    forall q | 0 <= q < |rest| ensures Among(list, |list|, rest[q]) {
      assert rest[q] == list[if q < j then q else q + 1];
    }
    StaleKept(ods, list, i, ODigest(d, v), rest);
  }

  lemma HeldAt(ods: seq<ODigest>, list: seq<ODigest>, j: nat)
    requires Caches(ods, list) && j < |list| && j < |ods|
    ensures exists k :: 0 <= k < |ods| && ods[k] == list[j]
  {
    assert Among(ods, |ods|, list[j]);
  }

  /** Superseding d keeps the cache in step with the list. */
  lemma SupersedeKeeps(ods: seq<ODigest>, list: seq<ODigest>, d: Digest, v: View)
    requires CacheInv(ods, list) && v >= 0 && d != NULL_DIGEST
    requires forall j :: 0 <= j < |list| ==> list[j].v < v
    ensures CacheInv(Supersede(ods, d, v), [ODigest(d, v)] + Without(list, d))
  {
    hide Caches, FreeIsStale, Cut, IsRecency;
    var i := FindDigestFrom(ods, d, 0);
    if i < |ods| && ods[i].v >= 0 {
      SupersedeLive(ods, list, i, d, v);
    } else if i < |ods| {
      SupersedeFree(ods, list, i, d, v);
    } else {
      var k := OldestBefore(ods, |ods|);
      if ods[k].v < 0 {
        SupersedeFree(ods, list, k, d, v);
      } else {
        SupersedeOldest(ods, list, k, d, v);
      }
    }
  }

  // ------------------------------------------------------------------
  // Whole histories
  // ------------------------------------------------------------------

  /** A digest that gives way to another one goes into the cache with the view it was last sent in. */
  lemma GivesWay(before: seq<Event>, e: Event)
    requires IsHistory(before) && before != [] && !e.prepared && Replay(before).d != e.d
    ensures Replay(before).d == before[|before| - 1].d != NULL_DIGEST
    ensures Step(Replay(before), e).lv == before[|before| - 1].view
  {
    ReplaySummarises(before);
  }

  lemma HistoryPrefix(events: seq<Event>)
    requires IsHistory(events) && events != []
    ensures IsHistory(events[..|events| - 1])
    ensures |events| >= 2 ==> events[|events| - 2].view < events[|events| - 1].view
  {
  }

  lemma {:induction false} RecentsAreOlder(events: seq<Event>)
    requires IsHistory(events) && events != []
    ensures IsRecency(Recents(events))
    ensures forall j :: 0 <= j < |Recents(events)| ==> Recents(events)[j].v < events[|events| - 1].view
  {
    hide Replay, Step, Without, IsHistory, IsRecency;
    var before, e := events[..|events| - 1], events[|events| - 1];
    HistoryPrefix(events);
    if e.prepared || before == [] {
      assert IsRecency([]) by { EmptyRecency(); }
    } else {
      RecentsAreOlder(before);
      if Replay(before).d != e.d {
        GivesWay(before, e);
        HistoryViews(before, |before| - 1);
        AgedRecency(Recents(before), Replay(before).d, before[|before| - 1].view);
      }
    }
  }

  lemma EmptyRecency()
    ensures IsRecency([])
  {
  }

  lemma HistoryViews(events: seq<Event>, i: nat)
    requires IsHistory(events) && i < |events|
    ensures events[i].view >= 0
  {
  }

  lemma AgedRecency(list: seq<ODigest>, d: Digest, v: View)
    requires IsRecency(list) && v >= 0 && d != NULL_DIGEST
    requires forall j :: 0 <= j < |list| ==> list[j].v < v
    ensures IsRecency([ODigest(d, v)] + Without(list, d))
    ensures forall j :: 0 <= j < |Without(list, d)| ==> Without(list, d)[j].v < v
  {
    hide Cut;
    var j := FindDigestFrom(list, d, 0);
    if j < |list| {
      CutRecency(list, j);
      RecencyCons(Cut(list, j), d, v);
    } else {
      RecencyCons(list, d, v);
    }
  }

  ghost predicate IsCleared(o: OReq) {
    o.rec == EMPTY_RECORD && OdsShape(o.ods) && forall i :: 0 <= i < |o.ods| ==> o.ods[i].v == -1
  }

  /**
   * The cache after any history holds exactly the f + 2 digests superseded
   * last since the last prepared event, each once and with the view it was
   * last sent in; the rest of the record is the replay of the history.
   */
  lemma {:induction false} CacheFollowsHistory(start: OReq, events: seq<Event>)
    requires IsCleared(start) && |start.ods| >= 1 && IsHistory(events)
    ensures ReplayO(start, events).rec == Replay(events)
    ensures CacheInv(ReplayO(start, events).ods, Recents(events))
  {
    hide CacheInv, IsHistory, IsCleared, Step, StepO, Replay, Recents;
    if events == [] {
      CacheStart(start);
    } else {
      var before, e := events[..|events| - 1], events[|events| - 1];
      HistoryPrefix(events);
      CacheFollowsHistory(start, before);
      CacheStep(ReplayO(start, before), before, e, events);
    }
  }

  lemma CacheStart(start: OReq)
    requires IsCleared(start)
    ensures start.rec == Replay([]) && |start.ods| >= 1
    ensures CacheInv(start.ods, Recents([]))
  {
    CacheInit(start.ods);
  }

  lemma CacheStep(o: OReq, before: seq<Event>, e: Event, events: seq<Event>)
    requires |o.ods| >= 1 && events == before + [e] && IsHistory(events)
    requires o.rec == Replay(before) && CacheInv(o.ods, Recents(before))
    ensures StepO(o, e).rec == Replay(events)
    ensures CacheInv(StepO(o, e).ods, Recents(events))
  {
    hide Supersede, Without, IsHistory, IsRecency, Caches, FreeIsStale;
    assert events[..|events| - 1] == before;
    HistoryPrefix(events);
    if e.prepared {
      CacheInit(FreeAll(o.ods));
    } else if before == [] {
      SupersedeNull(o.ods);
    } else if Replay(before).d != e.d {
      GivesWay(before, e);
      RecentsAreOlder(before);
      HistoryViews(before, |before| - 1);
      SupersedeKeeps(o.ods, Recents(before), Replay(before).d, before[|before| - 1].view);
    }
  }

  /** The null digest of an empty record takes a free entry and leaves it free. */
  lemma SupersedeNull(ods: seq<ODigest>)
    requires CacheInv(ods, [])
    ensures CacheInv(Supersede(ods, NULL_DIGEST, -1), [])
  {
    forall i | 0 <= i < |ods| ensures ods[i].v == -1 {
      if ods[i].v >= 0 {
        assert false;
      }
    }
    CacheInit(Supersede(ods, NULL_DIGEST, -1));
  }

  // ------------------------------------------------------------------
  // What the list says of the history
  // ------------------------------------------------------------------

  /** x names the last time a digest gave way to another, with nothing prepared since. */
  ghost predicate LastSuperseded(events: seq<Event>, k: int, x: ODigest) {
    && 0 <= k < |events| - 1
    && x == ODigest(events[k].d, events[k].view)
    && events[k + 1].d != x.d
    && (forall i :: k < i < |events| ==> !events[i].prepared)
    && (forall i :: k < i < |events| - 1 && events[i].d == x.d ==> events[i + 1].d == x.d)
  }

  ghost predicate InHistory(events: seq<Event>, x: ODigest) {
    exists k :: LastSuperseded(events, k, x)
  }

  /** One more event that sends the last digest again supersedes nothing. */
  lemma SameDigestSupersedesNothing(before: seq<Event>, e: Event, x: ODigest)
    requires before != [] && !e.prepared && before[|before| - 1].d == e.d
    ensures InHistory(before + [e], x) <==> InHistory(before, x)
  {
    var all, n := before + [e], |before|;
    if InHistory(before, x) {
      var k :| LastSuperseded(before, k, x);
      assert LastSuperseded(all, k, x);
    }
    if InHistory(all, x) {
      var k :| LastSuperseded(all, k, x);
      assert k != n - 1;
      assert forall i :: 0 <= i < n ==> before[i] == all[i];
      assert LastSuperseded(before, k, x);
    }
  }

  /** One more event with another digest supersedes the last one. */
  lemma NewDigestSupersedes(before: seq<Event>, e: Event, x: ODigest)
    requires before != [] && !e.prepared && before[|before| - 1].d != e.d
    ensures var last := before[|before| - 1];
            InHistory(before + [e], x) <==>
            x == ODigest(last.d, last.view) || (x.d != last.d && InHistory(before, x))
  {
    var all, n := before + [e], |before|;
    var last := before[n - 1];
    assert LastSuperseded(all, n - 1, ODigest(last.d, last.view));
    if x.d != last.d && InHistory(before, x) {
      var k :| LastSuperseded(before, k, x);
      assert LastSuperseded(all, k, x);
    }
    if InHistory(all, x) && x != ODigest(last.d, last.view) {
      var k :| LastSuperseded(all, k, x);
      assert k != n - 1;
      assert all[n - 1] == last && all[n] == e;
      assert forall i :: 0 <= i < n ==> before[i] == all[i];
      assert LastSuperseded(before, k, x);
    }
  }

  lemma WithoutMembers(list: seq<ODigest>, d: Digest, x: ODigest)
    requires IsRecency(list)
    ensures x in Without(list, d) <==> x in list && x.d != d
  {
    hide Cut;
    var j := FindDigestFrom(list, d, 0);
    if j < |list| {
      if x in list && x.d != d {
        var p :| 0 <= p < |list| && list[p] == x;
        assert Cut(list, j)[if p < j then p else p - 1] == x;
      }
      if x in Cut(list, j) {
        var p :| 0 <= p < |list| - 1 && Cut(list, j)[p] == x;
        assert list[if p < j then p else p + 1] == x;
      }
    }
  }

  /** The list holds a digest and a view iff the digest was last superseded in that view. */
  lemma {:induction false} RecentsAreTheSuperseded(events: seq<Event>, x: ODigest)
    requires IsHistory(events)
    ensures x in Recents(events) <==> InHistory(events, x)
  {
    hide Replay, Step, Without, IsHistory, IsRecency, LastSuperseded;
    if events == [] {
      NothingSuperseded(events, x);
    } else {
      var before, e := events[..|events| - 1], events[|events| - 1];
      assert before + [e] == events;
      HistoryPrefix(events);
      RecentsAreTheSuperseded(before, x);
      if e.prepared || before == [] {
        NothingSuperseded(events, x);
      } else {
        RecentsAreOlder(before);
        LastDigest(before);
        if Replay(before).d == e.d {
          SameDigestSupersedesNothing(before, e, x);
        } else {
          GivesWay(before, e);
          NewDigestSupersedes(before, e, x);
          WithoutMembers(Recents(before), Replay(before).d, x);
        }
      }
    }
  }

  lemma LastDigest(events: seq<Event>)
    requires IsHistory(events) && events != []
    ensures Replay(events).d == events[|events| - 1].d
  {
    ReplaySummarises(events);
  }

  lemma NothingSuperseded(events: seq<Event>, x: ODigest)
    requires |events| <= 1 || events[|events| - 1].prepared
    ensures !InHistory(events, x)
  {
  }

  // ------------------------------------------------------------------
  // View_info::prepare
  // ------------------------------------------------------------------

  /** prepare(n, d): whether the record logs that d was sent; entries are searched whether free or not. */
  predicate PrepareLogged(o: OReq, d: Digest) {
    o.rec.d == d || exists i :: 0 <= i < |o.ods| && o.ods[i].d == d
  }

  /** Some entry that is no longer in use still has the digest d. */
  ghost predicate LeftBehind(o: OReq, d: Digest) {
    exists i :: 0 <= i < |o.ods| && o.ods[i].v < 0 && o.ods[i].d == d
  }

  /** d is the digest sent last, or among the f + 2 superseded last. */
  ghost predicate RecentlySent(events: seq<Event>, n: nat, d: Digest) {
    || (events != [] && events[|events| - 1].d == d)
    || exists j :: 0 <= j < n && j < |Recents(events)| && Recents(events)[j].d == d
  }

  /**
   * The answer is right about what was sent since the record was cleared
   * exactly when no entry left behind by an earlier use has the digest.
   */
  lemma PrepareLoggedExactly(start: OReq, events: seq<Event>, d: Digest)
    requires IsCleared(start) && |start.ods| >= 1 && IsHistory(events) && d != NULL_DIGEST
    ensures var o := ReplayO(start, events);
            PrepareLogged(o, d) <==> RecentlySent(events, |o.ods|, d) || LeftBehind(o, d)
  {
    hide IsHistory, OdsShape, IsRecency, FreeIsStale, Recents, ReplayO, Replay, LiveEntries;
    CacheFollowsHistory(start, events);
    var o, list := ReplayO(start, events), Recents(events);
    if events != [] {
      LastDigest(events);
    } else {
      CacheStart(start);
    }
    forall i | 0 <= i < |o.ods| && o.ods[i].d == d
      ensures LeftBehind(o, d) || exists j :: 0 <= j < |o.ods| && j < |list| && list[j].d == d
    {
      if o.ods[i].v >= 0 {
        var j := CachedAt(o.ods, list, i);
      }
    }
    if j :| 0 <= j < |o.ods| && j < |list| && list[j].d == d {
      HeldAt(o.ods, list, j);
    }
  }

  /**
   * Such entries exist: after two digests and a clear, the first digest is
   * still reported although nothing was sent since.
   */
  lemma ClearLeavesDigestsBehind(f: nat)
    ensures var used := ReplayO(EmptyOReq(f), [Event(0, 7, false), Event(1, 8, false)]);
            PrepareLogged(ClearOReq(used), 7) && !RecentlySent([], f + 2, 7)
  {
    var events := [Event(0, 7, false), Event(1, 8, false)];
    assert events[..1] == [Event(0, 7, false)] && events[..1][..0] == [];
    var o0 := EmptyOReq(f);
    var o1 := StepO(o0, events[0]);
    assert ReplayO(o0, events[..1]) == o1;
    var o2 := StepO(o1, events[1]);
    assert ReplayO(o0, events) == o2;
    assert o1.ods == o0.ods[0 := ODigest(NULL_DIGEST, -1)];
    assert o2.rec == Record(0, 1, 8, false);
    var k := OldestBefore(o1.ods, |o1.ods|);
    assert FindDigestFrom(o1.ods, 7, 0) == |o1.ods|;
    assert o2.ods[k].d == 7;
    assert FreeAll(o2.ods)[k].d == 7;
  }
}
