/**
 * Fetching missing state: start_fetch, the handlers of fetched data and
 * meta-data, and done_with_level of src/State.cc.  Messages may say anything;
 * hashes decide what is taken from them.
 */
module Fetching {
  import opened Types
  import opened DigestSums
  import opened DigestTree
  import opened FetchPlan
  import opened FetchAges

  /** The state of a fetch between messages; last is the last checkpoint with its digest and the blocks copied since. */
  datatype Moment<B> = Moment(mem: seq<B>, tree: Tree, stalep: seq<seq<FPart>>, flevel: nat, fetching: bool,
                              exact: bool, refetches: nat, last: (Seqno, nat, set<nat>))

  class Fetch<B(!new)> {
    const h: Hasher<B>
    const m: nat
    const mem: array<B>
    var tree: Tree
    var cowb: set<nat>
    var lc: Seqno                 // last checkpoint
    var sd: nat                   // digest in the record of the last checkpoint
    var fetching: bool
    var flevel: nat
    var stalep: seq<seq<FPart>>
    ghost var exact: bool         // no partition was certified anew, newer than the one above it, or fetched again
    ghost var refetches: nat      // partitions found inconsistent
    ghost var loose: set<(nat, nat)>  // partitions whose digest was not theirs when the fetch started

    /** The queues of levels up to f are in order; if more says so, nothing is queued below. */
    ghost predicate Working(f: nat)
      reads this, mem
    {
      && HashesInto(h, m) && mem.Length <= CHILDREN * CHILDREN * CHILDREN
      && FetchTree(tree, mem.Length, m)
      && Discipline(stalep, f, mem.Length, m, lc)
    }

    ghost predicate Valid()
      reads this, mem
    {
      && HashesInto(h, m) && mem.Length <= CHILDREN * CHILDREN * CHILDREN
      && FetchTree(tree, mem.Length, m) && |stalep| == LEVELS
      && (fetching ==> Working(flevel))
      && (fetching && exact ==> ExactUpTo(h, m, mem[..], tree, stalep, flevel, lc, loose) && RootKnown())
      && (!fetching && exact ==> AllFresh(h, m, mem[..], tree, loose))
    }

    /** While the root is not worked on it was last modified when its entry says. */
    ghost predicate RootKnown()
      reads this, mem
    {
      && (0, 0) !in loose && |stalep| == LEVELS && |stalep[0]| == 1 && |tree.parts| == LEVELS && |tree.parts[0]| == 1
      && (flevel == 0 ==> High(stalep[0]).lm == tree.parts[0][0].lm)
    }

    /** How much there is left to fetch. */
    ghost function Left(): int
      reads this
    {
      if fetching && |stalep| == LEVELS && flevel < LEVELS then Work(stalep, flevel) else 0
    }

    /** All that a message may change. */
    ghost function Now(): Moment<B>
      reads this, mem
    {
      Moment(mem[..], tree, stalep, flevel, fetching, exact, refetches, Last())
    }

    /** The last checkpoint, its digest, and the blocks copied since. */
    ghost function Last(): (Seqno, nat, set<nat>)
      reads this
    {
      (lc, sd, cowb)
    }

    /** The last checkpoint is as it was until the fetch ends. */
    ghost predicate LastKept(was: (Seqno, nat, set<nat>))
      reads this
    {
      if fetching then Last() == was else cowb == {}
    }

    /** The checkpoint that the root is fetched for and its digest; afterwards those of the last checkpoint. */
    ghost function Goal(): (Seqno, nat)
      requires fetching ==> |stalep| == LEVELS && stalep[0] != []
      reads this
    {
      if fetching then (High(stalep[0]).c, High(stalep[0]).d) else (lc, sd)
    }

    /**
     * start_fetch: the root is fetched first, for checkpoint c with digest cd
     * if c is not -1.  The digests are those of the memory.
     */
    method StartFetch(c: Seqno, cd: nat)
      requires Valid() && cd < m && (c == -1 || (c >= lc && c >= 0)) && IsFresh(h, mem[..], tree, 0, 0)
      modifies this
      ensures Valid() && fetching && tree == old(tree) && Last() == old(Last())
      ensures !old(fetching) ==> exact && flevel == 0 && stalep == [[FPart(0, lc, tree.parts[0][0].lm, c, cd)], [], [], []]
      ensures !old(fetching) ==> refetches == 0
      ensures old(fetching) ==> stalep == old(stalep) && flevel == old(flevel)
    {
      hide FetchTree, HashesInto, ExactUpTo, AllFresh, Discipline, IsFresh;
      RootRow(tree, mem.Length, m);
      if !fetching {
        fetching := true;
        flevel := 0;
        stalep := [[FPart(0, lc, tree.parts[0][0].lm, c, cd)], [], [], []];
        exact, refetches := true, 0;
        loose := WrongDigests(h, m, mem[..], tree);
        StartsExact(h, m, mem[..], tree, lc, stalep[0][0]);
      }
    }

    /** What holds after the partition worked on at level l is finished. */
    ghost predicate Finished(l: nat)
      requires l < LEVELS
      reads this, mem
    {
      && HashesInto(h, m) && mem.Length <= CHILDREN * CHILDREN * CHILDREN
      && FetchTree(tree, mem.Length, m) && |stalep| == LEVELS
      && (forall k :: 0 <= k < LEVELS ==> QueueOK(stalep[k], mem.Length, m, k, lc))
      && (if stalep[l] != [] then Discipline(stalep, l, mem.Length, m, lc)
          else l > 0 ==> Discipline(stalep, l - 1, mem.Length, m, lc) && High(stalep[l - 1]).c >= 0)
      && (exact ==> (forall k :: 0 <= k < l ==> stalep[k] != [])
                    && ExactUpTo(h, m, mem[..], tree, stalep, l, lc, loose))
    }

    /** The queues are as o says, and the fetch lost what it lost by it. */
    ghost predicate Comes(o: Aftermath, wasExact: bool, wasRefetches: nat)
      reads this
    {
      && stalep == o.stalep && flevel == o.flevel && fetching == !o.done
      && exact == (wasExact && !o.again && !o.newer)
      && refetches == if o.again then wasRefetches + 1 else wasRefetches
    }

    /**
     * The partition worked on at level l becomes p, its parent's sum follows,
     * and it leaves the queue.  Its parent is the partition worked on one
     * level up, as the source asserts.
     */
    method FinishPart(l: nat, p: Part)
      requires Queued(stalep, l) && Working(l) && p.d == High(stalep[l]).d
      requires exact ==> ExactAfter(h, m, mem[..], tree, stalep, l, lc, loose, p)
      modifies this`tree, this`stalep, this`exact
      ensures Finished(l)
      ensures stalep == WithoutHigh(Raised(old(stalep), l, p.lm), l)
      ensures exact == (old(exact) && (l > 0 ==> p.lm <= High(old(stalep)[l - 1]).lm))
      ensures (|stalep[0]| == if l == 0 then 0 else 1) && |tree.parts| == LEVELS && |tree.parts[0]| == 1
      ensures QueueWork(stalep) == QueueWork(old(stalep)) - Weight(l)
      ensures High(old(stalep)[l]).index < |tree.parts[l]| && tree.parts[l][High(old(stalep)[l]).index] == p
      ensures l == 0 ==> stalep == old(stalep)[0 := []]
      ensures l > 0 ==> High(stalep[0]).c == High(old(stalep)[0]).c && High(stalep[0]).d == High(old(stalep)[0]).d
      ensures l == LEAF || p.lm == High(old(stalep)[l]).lm ==>
                Newer(tree, stalep) <= Newer(old(tree), old(stalep)) - iset{(l, High(old(stalep)[l]).index)}
    {
      hide Newer, FetchTree, HashesInto, ExactUpTo, EntryOK, QueueOK, QueueWork, SetHigh, PutPart, Discipline;
      EntryFactsIn(stalep, l, mem.Length, m, lc);
      var e := High(stalep[l]);
      PutPartDefined(tree, mem.Length, m, l, e.index);
      PutPartOK(tree, mem.Length, m, l, e.index, p);
      PutPartRows(m, tree, l, e.index, p);
      FinishQueues(stalep, l, mem.Length, m, lc, p.lm);
      if l == LEAF || p.lm == e.lm {
        FinishAges(tree, stalep, l, mem.Length, m, lc, p);
      }
      if l > 0 && p.lm > High(stalep[l - 1]).lm {
        exact := false;
      }
      tree := PutPart(m, tree, l, e.index, p);
      stalep := WithoutHigh(Raised(stalep, l, p.lm), l);
      RootRow(tree, mem.Length, m);
    }

    /**
     * done_with_level: every out-of-date child of the partition worked on one
     * level up was fetched.  The assertions of the source hold: nothing is
     * queued at this level, there is a level above, and what is fetched there
     * is known and not older than the last checkpoint.
     */
    method DoneWithLevel()
      requires fetching && 0 < flevel < LEVELS && Queued(stalep, flevel - 1) && Working(flevel - 1) && High(stalep[flevel - 1]).c >= 0
      requires exact ==> ExactUpTo(h, m, mem[..], tree, stalep, flevel, lc, loose) && (0, 0) !in loose
      modifies this
      ensures Valid() && loose == old(loose) && LastKept(old(Last()))
      ensures Comes(Climb(old(stalep), old(flevel) - 1), old(exact), old(refetches))
      ensures Goal() == old(Goal()) && (!fetching ==> |tree.parts[0]| == 1 && sd == tree.parts[0][0].d)
      ensures Newer(tree, stalep) <= Newer(old(tree), old(stalep)) && (!fetching ==> tree.parts[0][0].lm <= lc)
      ensures var l := old(flevel) - 1; var e := High(old(stalep)[l]);
              e.c >= e.lm ==> (l, e.index) !in Newer(tree, stalep)
      decreases flevel
    {
      hide Newer, FetchTree, HashesInto, ExactUpTo, EntryOK, QueueOK, QueueWork, SetHigh, PutPart, AllFresh, Finish, Climb, Raised, WithoutHigh, Discipline;
      EntryFactsIn(stalep, flevel - 1, mem.Length, m, lc);
      flevel := flevel - 1;
      var l := flevel;
      var wp := High(stalep[l]);
      ClimbIs(stalep, l);
      FinishIs(stalep, l, wp.lm);
      if wp.c >= wp.lm {
        // The partition is consistent.
        if exact {
          ChildrenDone(h, m, mem[..], tree, stalep, lc, l, loose);
        }
        FinishPart(l, Part(wp.lm, wp.d));
        if l == 0 {
          EndFetch(wp.c);
        } else if stalep[l] == [] {
          DoneWithLevel();
        }
      } else {
        // The partition is inconsistent: it is fetched again.
        SetHighAges(tree, stalep, l, wp.(lu := wp.c));
        SetHighOK(stalep, l, mem.Length, m, lc, l, wp.(lu := wp.c));
        SetHighIs(stalep, l, wp.(lu := wp.c));
        stalep := SetHigh(stalep, l, wp.(lu := wp.c));
        refetches, exact := refetches + 1, false;
      }
    }

    /** The root was fetched: its digest is the one of the last checkpoint. */
    method EndFetch(c: Seqno)
      requires fetching && Finished(0) && |tree.parts| == LEVELS && |tree.parts[0]| == 1
      modifies this`fetching, this`lc, this`sd, this`cowb
      ensures Valid() && !fetching && lc == c && sd == tree.parts[0][0].d && cowb == {}
    {
      hide FetchTree, HashesInto, ExactUpTo, QueueOK, AllFresh, Discipline;
      fetching := false;
      if exact {
        NothingWorkedOn(h, m, mem[..], tree, stalep, lc, loose);
      }
      lc := c;
      sd := tree.parts[0][0].d;
      cowb := {};
    }

    /** The block asked for is put into the memory, and its partition is finished. */
    method TakeBlock(i: nat, lm: Seqno, b: B)
      requires Valid() && fetching && flevel == LEAF && Queued(stalep, LEAF) && High(stalep[LEAF]).index == i < mem.Length
      requires High(stalep[LEAF]).d == h.block(b, i, lm)
      modifies this`tree, this`stalep, this`exact, this`cowb, mem
      ensures Finished(LEAF) && (exact ==> (0, 0) !in loose) && mem[..] == old(mem[..])[i := b] && cowb == old(cowb) + {i}
      ensures stalep == WithoutHigh(Raised(old(stalep), LEAF, lm), LEAF)
      ensures exact == (old(exact) && lm <= High(old(stalep)[LEAF - 1]).lm)
      ensures |stalep[0]| == 1 && |tree.parts| == LEVELS && |tree.parts[0]| == 1
      ensures High(stalep[0]).c == High(old(stalep)[0]).c && High(stalep[0]).d == High(old(stalep)[0]).d
      ensures Newer(tree, stalep) <= Newer(old(tree), old(stalep)) - iset{(LEAF, i)}
    {
      hide Newer, FetchTree, HashesInto, ExactUpTo, EntryOK, QueueOK, QueueWork, PutPart, AllFresh, ExactAfter, Discipline, Raised,
           WithoutHigh;
      var wp := High(stalep[LEAF]);
      if exact {
        DataIsExact(h, m, mem[..], tree, stalep, lc, loose, lm, b);
      }
      cowb := cowb + {i};
      mem[i] := b;
      FinishPart(LEAF, Part(lm, wp.d));
    }

    /** A Data message: block b for partition i, last modified at checkpoint lm. */
    method HandleData(i: nat, lm: Seqno, b: B) returns (accepted: bool)
      requires Valid()
      modifies this, mem
      ensures Valid() && loose == old(loose)
      ensures accepted == old(fetching && flevel == LEAF && High(stalep[LEAF]).index == i && High(stalep[LEAF]).c >= 0
                              && High(stalep[LEAF]).d == h.block(b, i, lm))
      ensures accepted ==> i < mem.Length && mem[..] == old(mem[..])[i := b]
      ensures accepted ==> old(Queued(stalep, LEAF)) && Comes(Finish(old(stalep), LEAF, lm), old(exact), old(refetches))
      ensures accepted ==> LastKept((old(lc), old(sd), old(cowb) + {i}))
      ensures accepted && refetches == old(refetches) ==> Left() < old(Left())
      ensures accepted ==> Newer(tree, stalep) <= Newer(old(tree), old(stalep)) - iset{(LEAF, i)}
      ensures accepted && !fetching ==> tree.parts[0][0].lm <= lc
      ensures !accepted ==> Now() == old(Now())
      ensures old(fetching) ==> Goal() == old(Goal()) && (!fetching ==> |tree.parts[0]| == 1 && sd == tree.parts[0][0].d)
    {
      hide Newer, FetchTree, HashesInto, ExactUpTo, EntryOK, QueueOK, QueueWork, PutPart, AllFresh, ExactAfter,
           Discipline, Finish, Climb, Raised, WithoutHigh;
      if !fetching || flevel != LEAF {
        return false;
      }
      AreQueued(stalep, LEAF, mem.Length, m, lc);
      var wp := High(stalep[LEAF]);
      var d := h.block(b, i, lm);
      if wp.index != i || wp.c < 0 || wp.d != d {
        return false;
      }
      EntryFactsIn(stalep, LEAF, mem.Length, m, lc);
      FinishRest(stalep, LEAF, mem.Length, m, lc, lm);
      FinishIs(stalep, LEAF, lm);
      TakeBlock(i, lm, b);
      if stalep[LEAF] == [] {
        DoneWithLevel();
      }
      return true;
    }

    /** check_digest: whether d is the digest of partition i of level l once its children are as "subs" says. */
    method CheckDigest(d: nat, l: nat, i: nat, lm: Seqno, subs: seq<nat>) returns (ok: bool)
      requires HashesInto(h, m) && FetchTree(tree, mem.Length, m) && l < LEAF && i < FullWidth(mem.Length, l)
      requires |subs| == CHILDREN && forall k :: 0 <= k < |subs| ==> subs[k] < m
      ensures ok <==> Checks(h, m, tree, mem.Length, l, i, d, lm, subs)
    {
      hide SumsOK, HashesInto, FullWidth;
      var sum := tree.sums[l][i];
      var parts, base := tree.parts[l + 1], i * CHILDREN;
      for k := 0 to ChildCount(|parts|, i)
        invariant sum < m && sum == CheckSum(m, parts, base, subs, k, tree.sums[l][i])
      {
        if subs[k] != 0 {
          sum := AddDigest(m, SubDigest(m, sum, parts[base + k].d), subs[k]);
        }
      }
      return d == h.sum(sum, i, lm);
    }

    /**
     * A Meta_data message for partition i of level l with digest d, last
     * modified at checkpoint lm: subs has the digests of its children, null
     * for those that are up to date.
     */
    method HandleMetaData(l: nat, i: nat, d: nat, lm: Seqno, subs: seq<nat>) returns (accepted: bool)
      requires Valid() && |subs| == CHILDREN && forall k :: 0 <= k < |subs| ==> subs[k] < m
      modifies this
      ensures Valid() && loose == old(loose)
      ensures accepted <==> old(fetching && flevel == l && l < LEAF && High(stalep[l]).index == i
                                && High(stalep[l]).c >= 0 && High(stalep[l]).d == d && i < FullWidth(mem.Length, l)
                                && Checks(h, m, tree, mem.Length, l, i, d, lm, subs))
      ensures accepted ==> old(Queued(stalep, l)) && old(|tree.parts|) == LEVELS
      ensures accepted ==> var q := OutOfDate(old(tree), l, i, subs, old(High(stalep[l])));
                           Comes(Described(old(stalep), l, lm, q), old(exact), old(refetches)) && (q != [] ==> tree == old(tree))
      ensures accepted ==> LastKept(old(Last()))
      ensures accepted && refetches == old(refetches) ==> Left() < old(Left())
      ensures accepted ==>
                Newer(tree, stalep) <= Newer(old(tree), old(stalep))
                                       + LeftNewer(old(tree), l, i, lm, OutOfDate(old(tree), l, i, subs, old(High(stalep[l]))))
      ensures accepted && !fetching ==> tree.parts[0][0].lm <= lc
      ensures !accepted ==> Now() == old(Now())
      ensures old(fetching) ==> Goal() == old(Goal()) && (!fetching ==> |tree.parts[0]| == 1 && sd == tree.parts[0][0].d)
    {
      hide AsInTree, Newer, LeftNewer, FetchTree, HashesInto, ExactUpTo, EntryOK, QueueOK, QueueWork, AllFresh, Checks, FullWidth, Expand, ChildQueue,
           Replaced, Weight, Expanded, ChildrenOf, Discipline, Finish, Climb, Work;
      if !fetching || flevel >= LEAF || flevel != l {
        return false;
      }
      AreQueued(stalep, l, mem.Length, m, lc);
      var wp := High(stalep[l]);
      if wp.index != i || wp.c < 0 || wp.d != d {
        return false;
      }
      EntryFactsIn(stalep, l, mem.Length, m, lc);
      var ok := CheckDigest(d, l, i, lm, subs);
      if !ok {
        return false;
      }
      ChildrenOfTree(tree, mem.Length, m, l, i);
      var q := OutOfDate(tree, l, i, subs, wp);
      OutOfDateOK(tree, mem.Length, m, l, i, subs, wp, lc);
      if exact {
        CheckedOnTarget(h, m, tree, mem.Length, l, i, d, lm, subs, wp.lu, wp.c, q, lc);
        ExpandExact(h, m, mem[..], tree, stalep, l, lc, loose, lm, q);
      }
      ExpandOK(stalep, l, mem.Length, m, lc, lm, q);
      ExpandAges(tree, stalep, l, mem.Length, m, lc, lm, q);
      stalep := Expand(stalep, l, lm, q);
      flevel := flevel + 1;
      AreQueued(stalep, if q == [] then l else l + 1, mem.Length, m, lc);
      if stalep[flevel] == [] {
        ClimbRest(stalep, l, mem.Length, m, lc);
        DoneWithLevel();
      }
      return true;
    }

    /**
     * A Meta_data_d certificate for the partition being fetched: its digest at
     * checkpoint cc, not older than the last one, is cd.
     */
    method Certified(cc: Seqno, cd: nat)
      requires Valid() && fetching && cd < m && cc >= lc && cc >= 0 && cc >= High(stalep[flevel]).lu
      modifies this
      ensures Valid() && loose == old(loose) && old(Queued(stalep, flevel)) && old(HasPart(tree, flevel, High(stalep[flevel]).index))
      ensures var l, e := old(flevel), High(old(stalep)[old(flevel)]);
              var s := SetHigh(old(stalep), l, e.(c := cc, d := cd));
              Comes(if cd == old(tree).parts[l][e.index].d then Found(s, l) else Aftermath(s, l, false, false, false),
                    old(exact) && (l > 0 ==> cd == e.d), old(refetches))
      ensures LastKept(old(Last()))
      ensures var l, e := old(flevel), High(old(stalep)[old(flevel)]);
              Newer(tree, stalep) <= Newer(old(tree), old(stalep))
                + if l > 0 && cd == old(tree).parts[l][e.index].d
                  then FoundNewer(old(tree), SetHigh(old(stalep), l, e.(c := cc, d := cd)), l, e.index) else iset{}
      ensures !fetching ==> |tree.parts[0]| == 1 && tree.parts[0][0].lm <= lc && sd == tree.parts[0][0].d
      ensures old(flevel) == 0 ==> Goal() == (cc, cd)
      ensures old(flevel) > 0 ==> Goal() == old(Goal())
    {
      hide Newer, FoundNewer, FetchTree, HashesInto, ExactUpTo, EntryOK, QueueOK, QueueWork, AllFresh, FullWidth, SetHigh;
      var l := flevel;
      EntryFacts(stalep, l, mem.Length, m, lc);
      var wp := High(stalep[l]);
      PartInTree(tree, mem.Length, m, l, wp.index);
      var e := wp.(c := cc, d := cd);
      SetHighOK(stalep, l, mem.Length, m, lc, l, e);
      SetHighIs(stalep, l, e);
      if l > 0 && cd != wp.d {
        exact := false;
      }
      if exact {
        RecertifiedExact(h, m, mem[..], tree, stalep, l, lc, loose, e);
      }
      SetHighAges(tree, stalep, l, e);
      stalep := SetHigh(stalep, l, e);
      if cd == tree.parts[l][wp.index].d {
        // The partition is up to date.
        if l > 0 {
          DropHigh(stalep, l, mem.Length, m, lc);
          FoundAges(tree, stalep, l, mem.Length, m, lc);
          if exact {
            UpToDateExact(h, m, mem[..], tree, stalep, l, lc, loose);
          }
          stalep := WithoutHigh(stalep, l);
          if stalep[l] == [] {
            DoneWithLevel();
          }
        } else {
          if exact {
            RootUpToDate(h, m, mem[..], tree, stalep, lc, loose);
          }
          flevel := 1;
          DoneWithLevel();
        }
      }
    }
  }

  /** The partitions whose digest is not that of what they consist of. */
  ghost function WrongDigests<B(!new)>(h: Hasher<B>, m: nat, mem: seq<B>, t: Tree): set<(nat, nat)>
    requires FetchTree(t, |mem|, m)
  {
    set l, i | 0 <= l < LEVELS && 0 <= i < |t.parts[l]| && !IsFresh(h, mem, t, l, i) :: (l, i)
  }

  /** With the root alone queued nothing is expected of any partition that is wrong already. */
  lemma StartsExact<B(!new)>(h: Hasher<B>, m: nat, mem: seq<B>, t: Tree, lc: Seqno, root: FPart)
    requires FetchTree(t, |mem|, m) && root.index == 0 && root.d < m && (root.c == -1 || (root.c >= lc && root.c >= 0))
    ensures Discipline([[root], [], [], []], 0, |mem|, m, lc)
    ensures ExactUpTo(h, m, mem, t, [[root], [], [], []], 0, lc, WrongDigests(h, m, mem, t))
    ensures IsFresh(h, mem, t, 0, 0) ==> (0, 0) !in WrongDigests(h, m, mem, t)
  {
    hide IsFresh, FetchTree;
  }

  predicate HasPart(t: Tree, l: nat, i: nat) {
    l < |t.parts| && i < |t.parts[l]|
  }

  /** Meta-data says that the children in q of the partition worked on at level l are out of date. */
  function Described(stalep: seq<seq<FPart>>, l: nat, lm: Seqno, q: seq<FPart>): Aftermath
    requires Queued(stalep, l) && l < LEAF
  {
    var next := Expand(stalep, l, lm, q);
    if q != [] then Aftermath(next, l + 1, false, false, false) else Climb(next, l)
  }

  /** The partition worked on at level l is found to be up to date. */
  function Found(stalep: seq<seq<FPart>>, l: nat): Aftermath
    requires Queued(stalep, l)
  {
    if l == 0 then Climb(stalep, 0)
    else
      var next := WithoutHigh(stalep, l);
      if next[l] != [] then Aftermath(next, l, false, false, false) else Climb(next, l - 1)
  }

  /** The children of partition i of level l that are not as subs says. */
  function OutOfDate(t: Tree, l: nat, i: nat, subs: seq<nat>, wp: FPart): seq<FPart>
    requires |t.parts| == LEVELS && l < LEAF && |subs| == CHILDREN
  {
    ChildQueue(t.parts[l + 1], i * CHILDREN, subs, ChildCount(|t.parts[l + 1]|, i), wp.lu, wp.c)
  }

  lemma OutOfDateOK(t: Tree, nb: nat, m: nat, l: nat, i: nat, subs: seq<nat>, wp: FPart, lc: Seqno)
    requires FetchTree(t, nb, m) && |t.parts| == LEVELS && l < LEAF && i < FullWidth(nb, l)
    requires |subs| == CHILDREN && (forall k :: 0 <= k < |subs| ==> subs[k] < m) && wp.c >= lc && wp.c >= 0
    ensures var q := OutOfDate(t, l, i, subs, wp);
            && QueueOK(q, nb, m, l + 1, lc) && ChildrenOf(q, i) && |q| <= CHILDREN
            && (forall k :: 0 <= k < |q| ==> q[k].index < |t.parts[l + 1]| && q[k].d < m)
            && AsInTree(t.parts[l + 1], q)
  {
    hide AsInTree, FetchTree, QueueOK, FullWidth, ChildQueue, ChildrenOf;
    ChildrenOfTree(t, nb, m, l, i);
    var n := ChildCount(|t.parts[l + 1]|, i);
    ChildQueueOK(t.parts[l + 1], i, subs, n, wp.lu, wp.c, nb, m, l + 1, lc);
    QueueInTree(t, nb, m, OutOfDate(t, l, i, subs, wp), l + 1, lc);
    QueueAges(t.parts[l + 1], i * CHILDREN, subs, n, wp.lu, wp.c);
  }

  /** What check_digest checks. */
  ghost predicate Checks<B(!new)>(h: Hasher<B>, m: nat, t: Tree, nb: nat, l: nat, i: nat, d: nat, lm: Seqno, subs: seq<nat>)
    requires FetchTree(t, nb, m) && l < LEAF && i < FullWidth(nb, l)
    requires |subs| == CHILDREN && forall k :: 0 <= k < |subs| ==> subs[k] < m
  {
    ChildrenOfTree(t, nb, m, l, i);
    d == h.sum(CheckSum(m, t.parts[l + 1], i * CHILDREN, subs, ChildCount(|t.parts[l + 1]|, i), t.sums[l][i]), i, lm)
  }

  lemma ChildrenOfTree(t: Tree, nb: nat, m: nat, l: nat, i: nat)
    requires FetchTree(t, nb, m) && l < LEAF && i < FullWidth(nb, l)
    ensures |t.parts| == LEVELS && |t.sums| == LEAF && i < |t.sums[l]| && t.sums[l][i] < m
    ensures Small(t.parts[l + 1], m) && |t.parts[l + 1]| == FullWidth(nb, l + 1)
    ensures var n := ChildCount(|t.parts[l + 1]|, i); n > 0 ==> i * CHILDREN + n <= |t.parts[l + 1]|
  {
    hide SumsOK;
  }

  lemma PartInTree(t: Tree, nb: nat, m: nat, l: nat, i: nat)
    requires FetchTree(t, nb, m) && l < LEVELS && i < FullWidth(nb, l)
    ensures |t.parts| == LEVELS && i < |t.parts[l]|
  {
    hide SumsOK, FullWidth;
  }

  /** Meta-data that passes the check says what the children add up to once they are fetched. */
  lemma CheckedOnTarget<B(!new)>(h: Hasher<B>, m: nat, t: Tree, nb: nat, l: nat, i: nat, d: nat, lm: Seqno, subs: seq<nat>,
                                 lu: Seqno, c: Seqno, q: seq<FPart>, lc: Seqno)
    requires FetchTree(t, nb, m) && l < LEAF && i < FullWidth(nb, l)
    requires |subs| == CHILDREN && (forall k :: 0 <= k < |subs| ==> subs[k] < m) && Checks(h, m, t, nb, l, i, d, lm, subs)
    requires |t.parts[l + 1]| == FullWidth(nb, l + 1)
    requires q == ChildQueue(t.parts[l + 1], i * CHILDREN, subs, ChildCount(|t.parts[l + 1]|, i), lu, c)
    requires forall k :: 0 <= k < |q| ==> q[k].index < |t.parts[l + 1]| && q[k].d < m
    ensures i < |t.sums[l]| && d == h.sum(Replaced(m, t.parts[l + 1], t.sums[l][i], q), i, lm)
  {
    hide SumsOK, FullWidth, CheckSum, Replaced, ChildQueue;
    ChildrenOfTree(t, nb, m, l, i);
    CheckedIsReplaced(m, t.parts[l + 1], i * CHILDREN, subs, ChildCount(|t.parts[l + 1]|, i), t.sums[l][i], lu, c);
  }

  /** A certificate that confirms the digest, or one for the root, moves no target. */
  lemma RecertifiedExact<B(!new)>(h: Hasher<B>, m: nat, mem: seq<B>, t: Tree, stalep: seq<seq<FPart>>, l: nat, lc: Seqno,
                                  loose: set<(nat, nat)>, e: FPart)
    requires FetchTree(t, |mem|, m) && Discipline(stalep, l, |mem|, m, lc)
    requires ExactUpTo(h, m, mem, t, stalep, l, lc, loose)
    requires e == High(stalep[l]).(c := e.c, d := e.d) && (l > 0 ==> e.d == High(stalep[l]).d)
    requires Discipline(SetHigh(stalep, l, e), l, |mem|, m, lc)
    ensures ExactUpTo(h, m, mem, t, SetHigh(stalep, l, e), l, lc, loose)
  {
    hide SumsOK, FullWidth, EntryOK, IsFresh, SetHigh;
    SetHighIs(stalep, l, e);
    var stalep' := SetHigh(stalep, l, e);
    forall k | 0 <= k < l ensures OnTarget(h, m, t, stalep', |mem|, lc, k) {
      assert OnTarget(h, m, t, stalep, |mem|, lc, k);
      if k == l - 1 {
        QueueInTree(t, |mem|, m, stalep[l], l, lc);
        EntryFacts(stalep, k, |mem|, m, lc);
        ReplacedIgnores(m, t.parts[l], t.sums[k][High(stalep[k]).index], stalep[l], stalep'[l]);
      }
    }
  }

  lemma UpToDateExact<B(!new)>(h: Hasher<B>, m: nat, mem: seq<B>, t: Tree, stalep: seq<seq<FPart>>, l: nat, lc: Seqno,
                               loose: set<(nat, nat)>)
    requires FetchTree(t, |mem|, m) && Discipline(stalep, l, |mem|, m, lc) && l > 0
    requires ExactUpTo(h, m, mem, t, stalep, l, lc, loose)
    requires High(stalep[l]).index < |t.parts[l]| && High(stalep[l]).d == t.parts[l][High(stalep[l]).index].d
    requires forall k :: 0 <= k < LEVELS ==> QueueOK(WithoutHigh(stalep, l)[k], |mem|, m, k, lc)
    ensures ExactUpTo(h, m, mem, t, WithoutHigh(stalep, l), l, lc, loose)
  {
    hide SumsOK, FullWidth, EntryOK, IsFresh;
    var stalep' := WithoutHigh(stalep, l);
    forall k | 0 <= k < l ensures OnTarget(h, m, t, stalep', |mem|, lc, k) {
      assert OnTarget(h, m, t, stalep, |mem|, lc, k);
      if k == l - 1 {
        QueueInTree(t, |mem|, m, stalep[l], l, lc);
        EntryFacts(stalep, k, |mem|, m, lc);
        UpToDateStays(m, t.parts[l], t.sums[k][High(stalep[k]).index], stalep[l]);
      }
    }
  }

  /** A root that is up to date is on target with nothing to fetch below it. */
  lemma RootUpToDate<B(!new)>(h: Hasher<B>, m: nat, mem: seq<B>, t: Tree, stalep: seq<seq<FPart>>, lc: Seqno,
                              loose: set<(nat, nat)>)
    requires FetchTree(t, |mem|, m) && Discipline(stalep, 0, |mem|, m, lc)
    requires ExactUpTo(h, m, mem, t, stalep, 0, lc, loose) && (0, 0) !in loose
    requires |t.parts[0]| == 1 && High(stalep[0]).index == 0
    requires High(stalep[0]).d == t.parts[0][0].d && High(stalep[0]).lm == t.parts[0][0].lm
    ensures ExactUpTo(h, m, mem, t, stalep, 1, lc, loose)
  {
    hide SumsOK, EntryOK;
    assert IsFresh(h, mem, t, 0, 0);
    assert Replaced(m, t.parts[1], t.sums[0][0], []) == t.sums[0][0];
    assert OnTarget(h, m, t, stalep, |mem|, lc, 0);
  }

  /** A block whose digest is the one asked for can take its place. */
  lemma DataIsExact<B(!new)>(h: Hasher<B>, m: nat, mem: seq<B>, t: Tree, stalep: seq<seq<FPart>>, lc: Seqno,
                             loose: set<(nat, nat)>, lm: Seqno, b: B)
    requires FetchTree(t, |mem|, m) && |mem| <= CHILDREN * CHILDREN * CHILDREN && Discipline(stalep, LEAF, |mem|, m, lc)
    requires ExactUpTo(h, m, mem, t, stalep, LEAF, lc, loose)
    requires var e := High(stalep[LEAF]); e.index < |mem| && e.d == h.block(b, e.index, lm)
    ensures ExactAfter(h, m, mem[High(stalep[LEAF]).index := b], t, stalep, LEAF, lc, loose, Part(lm, High(stalep[LEAF]).d))
  {
    hide SumsOK, AddDigest, SubDigest, FullWidth, EntryOK, QueueOK, FreshAround, FreshBelow, PutPart;
    var e, p := High(stalep[LEAF]), Part(lm, High(stalep[LEAF]).d);
    var mem' := mem[e.index := b];
    EntryFacts(stalep, LEAF, |mem|, m, lc);
    PutPartDefined(t, |mem|, m, LEAF, e.index);
    PutPartOK(t, |mem|, m, LEAF, e.index, p);
    DropHigh(stalep, LEAF, |mem|, m, lc);
    AroundIsBelowLeaf(h, m, mem, t, stalep, loose);
    FinishedIsFresh(h, m, mem, mem', t, stalep, lc, LEAF, p, loose);
    forall k | 0 <= k < LEAF ensures OnTarget(h, m, PutPart(m, t, LEAF, e.index, p), WithoutHigh(stalep, LEAF), |mem|, lc, k) {
      assert OnTarget(h, m, t, stalep, |mem|, lc, k);
      FinishedOnTarget(h, m, t, stalep, |mem|, lc, LEAF, p, k);
    }
  }

  lemma AroundIsBelowLeaf<B(!new)>(h: Hasher<B>, m: nat, mem: seq<B>, t: Tree, stalep: seq<seq<FPart>>,
                                   loose: set<(nat, nat)>)
    requires FetchTree(t, |mem|, m) && |stalep| == LEVELS && FreshAround(h, m, mem, t, stalep, LEAF, loose)
    ensures FreshBelow(h, m, mem, t, stalep, LEAF, loose)
  {
    hide IsFresh, FetchTree;
  }

  /** Once p takes the place of the partition worked on at level l, the levels above are on target and all else is fresh. */
  ghost predicate ExactAfter<B(!new)>(h: Hasher<B>, m: nat, mem: seq<B>, t: Tree, stalep: seq<seq<FPart>>, l: nat,
                                      lc: Seqno, loose: set<(nat, nat)>, p: Part)
    requires FetchTree(t, |mem|, m) && Discipline(stalep, l, |mem|, m, lc) && l < LEVELS
  {
    var i, stalep' := High(stalep[l]).index, WithoutHigh(stalep, l);
    && i < |t.parts[l]| && p.d < m && (l > 0 ==> Parent(i) < |t.sums[l - 1]|)
    && FetchTree(PutPart(m, t, l, i, p), |mem|, m)
    && (forall k :: 0 <= k < LEVELS ==> QueueOK(stalep'[k], |mem|, m, k, lc))
    && ExactUpTo(h, m, mem, PutPart(m, t, l, i, p), stalep', l, lc, loose)
  }

  lemma NothingWorkedOn<B(!new)>(h: Hasher<B>, m: nat, mem: seq<B>, t: Tree, stalep: seq<seq<FPart>>, lc: Seqno,
                                 loose: set<(nat, nat)>)
    requires FetchTree(t, |mem|, m) && |stalep| == LEVELS
    requires forall l :: 0 <= l < LEVELS ==> QueueOK(stalep[l], |mem|, m, l, lc)
    requires ExactUpTo(h, m, mem, t, stalep, 0, lc, loose)
    ensures AllFresh(h, m, mem, t, loose)
  {
    hide IsFresh, FetchTree, OnTarget;
  }

  ghost predicate AllFresh<B(!new)>(h: Hasher<B>, m: nat, mem: seq<B>, t: Tree, loose: set<(nat, nat)>)
    requires FetchTree(t, |mem|, m)
  {
    forall l, i :: 0 <= l < LEVELS && 0 <= i < |t.parts[l]| ==> IsFresh(h, mem, t, l, i) || (l, i) in loose
  }
}
