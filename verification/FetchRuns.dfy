/**
 * Whole fetches: what a state transfer ends with when the messages that it
 * accepts all describe one state.
 */
module FetchRuns {
  import opened Types
  import opened DigestTree
  import opened FetchPlan
  import opened FetchAges
  import opened Fetching

  /** Messages of a state transfer, as the handlers of src/State.cc take them. */
  datatype FetchMessage<B> =
    | Certificate(l: nat, i: nat, cc: Seqno, cd: nat)
    | MetaData(l: nat, i: nat, d: nat, lm: Seqno, subs: seq<nat>)
    | Data(i: nat, lm: Seqno, b: B)

  /** A state that is fetched: the digest of every partition and when it was last modified. */
  datatype Target = Target(d: (nat, nat) -> nat, lm: (nat, nat) -> Seqno)

  /** A partition is last modified no earlier than its children. */
  ghost predicate Descending(t: Target) {
    forall l: nat, i: nat :: l > 0 ==> t.lm(l, i) <= t.lm(l - 1, Parent(i))
  }

  /** The message says of the state what is so; a certificate is for a checkpoint at which the partition was as it is. */
  ghost predicate Describes<B(!new)>(msg: FetchMessage<B>, t: Target) {
    match msg
    case Certificate(l, i, cc, cd) => cd == t.d(l, i) && cc >= t.lm(l, i)
    case MetaData(l, i, d, lm, subs) =>
      && d == t.d(l, i) && lm == t.lm(l, i)
      && forall k :: 0 <= k < |subs| ==> subs[k] == 0 || subs[k] == t.d(l + 1, i * CHILDREN + k)
    case Data(i, lm, b) => lm == t.lm(LEAF, i)
  }

  /** An entry of the queue of level l is for the state t. */
  ghost predicate For(e: FPart, l: nat, t: Target) {
    (l == 0 && e.c == -1) || (e.d == t.d(l, e.index) && e.c >= t.lm(l, e.index))
  }

  ghost predicate AllFor(q: seq<FPart>, l: nat, t: Target) {
    forall k :: 0 <= k < |q| ==> For(q[k], l, t)
  }

  /** The partition worked on at level l is known to be last modified when the state says. */
  ghost predicate Timed(stalep: seq<seq<FPart>>, l: nat, t: Target)
    requires |stalep| == LEVELS && l < LEVELS
  {
    stalep[l] != [] && High(stalep[l]).lm == t.lm(l, High(stalep[l]).index)
  }

  /** The queues are those of a fetch of the state t, at level f. */
  ghost predicate Following(stalep: seq<seq<FPart>>, f: nat, t: Target) {
    && |stalep| == LEVELS && f < LEVELS
    && (forall l :: 0 <= l < LEVELS ==> AllFor(stalep[l], l, t))
    && (forall l :: 0 <= l < f ==> Timed(stalep, l, t))
  }

  /** Afterwards the fetch still follows t, and nothing was given up on the way. */
  ghost predicate Follows(o: Aftermath, t: Target) {
    !o.again && !o.newer && (!o.done ==> o.flevel > 0 && Following(o.stalep, o.flevel, t))
  }

  /** Finishing a partition that is as old as t says: nothing is newer than the partition above it. */
  lemma {:induction false} FinishFollows(stalep: seq<seq<FPart>>, f: nat, nb: nat, m: nat, lc: Seqno, lm: Seqno, t: Target)
    requires Discipline(stalep, f, nb, m, lc) && Following(stalep, f, t) && Descending(t)
    requires Queued(stalep, f) && (f > 0 ==> lm <= t.lm(f, High(stalep[f]).index))
    ensures Follows(Finish(stalep, f, lm), t)
    decreases f, 0
  {
    hide QueueOK, Finish, Climb, For;
    FinishIs(stalep, f, lm);
    if f > 0 {
      assert Linked(stalep, f);
      assert Timed(stalep, f - 1, t);
      assert t.lm(f, High(stalep[f]).index) <= t.lm(f - 1, Parent(High(stalep[f]).index));
      assert Raised(stalep, f, lm) == stalep;
      FinishQueues(stalep, f, nb, m, lc, lm);
      var next := WithoutHigh(stalep, f);
      forall l | 0 <= l < f ensures Timed(next, l, t) {
        assert Timed(stalep, l, t);
      }
      if next[f] == [] {
        ClimbFollows(next, f - 1, nb, m, lc, t);
      }
    }
  }

  /** The children being done, so is the partition: it is not newer than its checkpoint. */
  lemma {:induction false} ClimbFollows(stalep: seq<seq<FPart>>, f: nat, nb: nat, m: nat, lc: Seqno, t: Target)
    requires Discipline(stalep, f, nb, m, lc) && f < LEAF && Following(stalep, f, t) && Descending(t)
    requires Queued(stalep, f) && High(stalep[f]).c >= 0
    requires Timed(stalep, f, t) || (f == 0 && High(stalep[0]).lm <= High(stalep[0]).c)
    ensures Follows(Climb(stalep, f), t)
    decreases f, 1
  {
    hide QueueOK, Finish, Climb;
    assert For(stalep[f][|stalep[f]| - 1], f, t);
    ClimbIs(stalep, f);
    FinishFollows(stalep, f, nb, m, lc, High(stalep[f]).lm, t);
  }

  /** Meta-data that describes the state queues children for it. */
  lemma DescribedFollows(stalep: seq<seq<FPart>>, l: nat, nb: nat, m: nat, lc: Seqno, lm: Seqno, q: seq<FPart>, t: Target)
    requires Discipline(stalep, l, nb, m, lc) && l < LEAF && Following(stalep, l, t) && Descending(t)
    requires Queued(stalep, l) && High(stalep[l]).c >= 0 && lm == t.lm(l, High(stalep[l]).index)
    requires QueueOK(q, nb, m, l + 1, lc) && ChildrenOf(q, High(stalep[l]).index) && |q| <= CHILDREN && AllFor(q, l + 1, t)
    ensures Follows(Described(stalep, l, lm, q), t)
  {
    hide QueueOK, Finish, Climb, SetHigh;
    var e := High(stalep[l]).(lm := lm);
    ExpandOK(stalep, l, nb, m, lc, lm, q);
    SetHighIs(stalep, l, e);
    SetHighFollows(stalep, l, e, t);
    var next := Expand(stalep, l, lm, q);
    forall k | 0 <= k <= l ensures Timed(next, k, t) {
      if k < l {
        assert Timed(stalep, k, t);
      }
    }
    if q == [] {
      AreQueued(next, l, nb, m, lc);
      ClimbFollows(next, l, nb, m, lc, t);
    }
  }

  /** An entry for the state may take the place of the last one. */
  lemma SetHighFollows(stalep: seq<seq<FPart>>, f: nat, e: FPart, t: Target)
    requires Following(stalep, f, t) && stalep[f] != []
    requires For(High(stalep[f]), f, t) ==> For(e, f, t)
    ensures Following(SetHigh(stalep, f, e), f, t)
  {
    hide For;
    var next := SetHigh(stalep, f, e);
    SetHighIs(stalep, f, e);
    assert For(stalep[f][|stalep[f]| - 1], f, t);
    forall k | 0 <= k < LEVELS ensures AllFor(next[k], k, t) {
      assert AllFor(stalep[k], k, t);
    }
    forall k | 0 <= k < f ensures Timed(next, k, t) {
      assert Timed(stalep, k, t);
    }
  }

  /** A partition that a certificate shows to be up to date leaves the queue. */
  lemma FoundFollows(stalep: seq<seq<FPart>>, l: nat, nb: nat, m: nat, lc: Seqno, t: Target)
    requires Discipline(stalep, l, nb, m, lc) && Following(stalep, l, t) && Descending(t)
    requires Queued(stalep, l) && High(stalep[l]).c >= 0 && (l == 0 ==> High(stalep[0]).lm <= High(stalep[0]).c)
    ensures Follows(Found(stalep, l), t)
    ensures Rest(Found(stalep, l)) < Work(stalep, l)
  {
    hide QueueOK, Finish, Climb, For, QueueWork;
    if l == 0 {
      ClimbFollows(stalep, 0, nb, m, lc, t);
      ClimbIs(stalep, 0);
      FinishRest(stalep, 0, nb, m, lc, High(stalep[0]).lm);
    } else {
      var next := WithoutHigh(stalep, l);
      DropHigh(stalep, l, nb, m, lc);
      WorkDrops(stalep, l);
      forall k | 0 <= k < l ensures Timed(next, k, t) {
        assert Timed(stalep, k, t);
      }
      if next[l] == [] {
        AreQueued(next, l - 1, nb, m, lc);
        ClimbFollows(next, l - 1, nb, m, lc, t);
        ClimbRest(next, l - 1, nb, m, lc);
      }
    }
  }

  /** The children queued by meta-data that describes the state are for it. */
  lemma ChildrenFor(tree: Tree, l: nat, i: nat, subs: seq<nat>, wp: FPart, t: Target)
    requires |tree.parts| == LEVELS && l < LEAF && |subs| == CHILDREN && Descending(t)
    requires wp.c >= t.lm(l, i)
    requires forall k :: 0 <= k < |subs| ==> subs[k] == 0 || subs[k] == t.d(l + 1, i * CHILDREN + k)
    ensures AllFor(OutOfDate(tree, l, i, subs, wp), l + 1, t)
  {
    var n := ChildCount(|tree.parts[l + 1]|, i);
    NonNull(tree.parts[l + 1], i * CHILDREN, subs, n, wp.lu, wp.c);
    var q := OutOfDate(tree, l, i, subs, wp);
    forall k | 0 <= k < |q| ensures For(q[k], l + 1, t) {
      assert Parent(q[k].index) == i;
      assert t.lm(l + 1, q[k].index) <= t.lm(l, i);
      assert q[k].index == i * CHILDREN + (q[k].index - i * CHILDREN);
    }
  }

  lemma {:induction false} NonNull(parts: seq<Part>, base: nat, subs: seq<nat>, n: nat, lu: Seqno, c: Seqno)
    requires n <= |subs| && (n > 0 ==> base + n <= |parts|)
    ensures forall k :: 0 <= k < |ChildQueue(parts, base, subs, n, lu, c)| ==> ChildQueue(parts, base, subs, n, lu, c)[k].d != 0
  {
    if n > 0 {
      NonNull(parts, base, subs, n - 1, lu, c);
    }
  }

  /** The root is fetched for the state t. */
  lemma RootFor(stalep: seq<seq<FPart>>, f: nat, nb: nat, m: nat, lc: Seqno, t: Target)
    requires Discipline(stalep, f, nb, m, lc) && Following(stalep, f, t) && Queued(stalep, f)
    requires f > 0 || High(stalep[0]).c >= 0
    ensures var e := High(stalep[0]); e.c >= 0 && e.index == 0 && e.d == t.d(0, 0) && e.c >= t.lm(0, 0)
  {
    hide EntryOK;
    EntryFacts(stalep, 0, nb, m, lc);
    assert For(stalep[0][|stalep[0]| - 1], 0, t);
    if f > 0 {
      assert Linked(stalep, 1);
    }
  }

  /** What the handlers ask of a message: digests are reduced, and meta-data is about CHILDREN children. */
  predicate WellFormedMessage<B(!new)>(msg: FetchMessage<B>, m: nat) {
    match msg
    case Certificate(_, _, _, cd) => cd < m
    case MetaData(_, _, _, _, subs) => |subs| == CHILDREN && forall k :: 0 <= k < |subs| ==> subs[k] < m
    case Data(_, _, _) => true
  }

  /** The fetch is one of the state t so far, or it ended with the digest of that state. */
  ghost predicate OnCourse<B(!new)>(fetch: Fetch<B>, t: Target)
    reads fetch
  {
    fetch.exact
    && (fetch.fetching ==>
          Following(fetch.stalep, fetch.flevel, t)
          && (fetch.flevel == 0 && fetch.stalep[0] != [] ==> High(fetch.stalep[0]).lm <= fetch.lc))
    && (!fetch.fetching ==> fetch.sd == t.d(0, 0) && fetch.lc >= t.lm(0, 0) && RootDigest(fetch.tree, fetch.sd))
  }

  predicate RootNoNewer(tree: Tree, lc: Seqno) {
    |tree.parts| == LEVELS && |tree.parts[0]| == 1 && tree.parts[0][0].lm <= lc
  }

  predicate RootDigest(tree: Tree, d: nat) {
    |tree.parts| == LEVELS && |tree.parts[0]| == 1 && tree.parts[0][0].d == d
  }

  /** Messages that are fetched data or meta-data. */
  function Fetched<B(!new)>(msgs: seq<FetchMessage<B>>): nat {
    if msgs == [] then 0 else Fetched(msgs[..|msgs| - 1]) + if msgs[|msgs| - 1].Certificate? then 0 else 1
  }

  /** What a handler checks before it takes a message. */
  ghost predicate Acceptable<B(!new)>(h: Hasher<B>, m: nat, at: Moment<B>, msg: FetchMessage<B>) {
    && at.fetching && Queued(at.stalep, at.flevel)
    && var e := High(at.stalep[at.flevel]);
       match msg
       case Certificate(l, i, cc, cd) => at.flevel == l && e.index == i && cc >= at.last.0 && cc >= 0 && cc >= e.lu
       case MetaData(l, i, d, lm, subs) =>
         && at.flevel == l && l < LEAF && e.index == i && e.c >= 0 && e.d == d && i < FullWidth(|at.mem|, l)
         && WellFormedMessage(msg, m) && FetchTree(at.tree, |at.mem|, m) && Checks(h, m, at.tree, |at.mem|, l, i, d, lm, subs)
       case Data(i, lm, b) => at.flevel == LEAF && e.index == i && e.c >= 0 && e.d == h.block(b, i, lm)
  }

  /** The partitions that an accepted message leaves newer than the one they are part of, though they were not fetched. */
  ghost function LeftBy<B(!new)>(at: Moment<B>, msg: FetchMessage<B>): iset<(nat, nat)> {
    match msg
    case Certificate(l, i, cc, cd) =>
      if 0 < l < |at.tree.parts| && i < |at.tree.parts[l]| && cd == at.tree.parts[l][i].d then FoundNewer(at.tree, at.stalep, l, i)
      else iset{}
    case MetaData(l, i, d, lm, subs) =>
      if Queued(at.stalep, l) && l < LEAF && |at.tree.parts| == LEVELS && |subs| == CHILDREN then
        LeftNewer(at.tree, l, i, lm, OutOfDate(at.tree, l, i, subs, High(at.stalep[l])))
      else iset{}
    case Data(i, lm, b) => iset{}
  }

  /** What holds of ages after an accepted message. */
  ghost predicate Aged<B(!new)>(was: Moment<B>, now: Moment<B>, msg: FetchMessage<B>) {
    && Newer(now.tree, now.stalep) <= Newer(was.tree, was.stalep) + LeftBy(was, msg)
    && (!now.fetching ==>
          now.stalep == [[], [], [], []] && |now.tree.parts| == LEVELS && |now.tree.parts[0]| == 1
          && now.tree.parts[0][0].lm <= now.last.0)
  }

  /** A certificate for partition i of level l: digest cd at checkpoint cc. */
  method DeliverCertificate<B(!new)>(fetch: Fetch<B>, l: nat, i: nat, cc: Seqno, cd: nat, ghost t: Target) returns (taken: bool)
    requires fetch.Valid() && cd < fetch.m
    modifies fetch
    ensures fetch.Valid() && fetch.loose == old(fetch.loose)
    ensures taken <==> Acceptable(fetch.h, fetch.m, old(fetch.Now()), Certificate(l, i, cc, cd))
    ensures taken ==> Aged(old(fetch.Now()), fetch.Now(), Certificate(l, i, cc, cd))
    ensures !taken ==> fetch.Now() == old(fetch.Now())
    ensures taken && Describes<B>(Certificate(l, i, cc, cd), t) && Descending(t) && old(OnCourse(fetch, t)) ==>
              OnCourse(fetch, t) && fetch.refetches == old(fetch.refetches) && fetch.Left() <= old(fetch.Left())
  {
    hide Newer, FoundNewer, QueueOK, FetchTree, HashesInto, ExactUpTo, AllFresh, Finish, Climb, SetHigh, Following, Found, Work,
         QueueWork;
    if !fetch.fetching || fetch.flevel != l {
      return false;
    }
    AreQueued(fetch.stalep, l, fetch.mem.Length, fetch.m, fetch.lc);
    var wp := High(fetch.stalep[l]);
    if wp.index != i || cc < fetch.lc || cc < 0 || cc < wp.lu {
      return false;
    }
    if cd == t.d(l, i) && cc >= t.lm(l, i) && Descending(t) && OnCourse(fetch, t) {
      if l > 0 {
        RootFor(fetch.stalep, l, fetch.mem.Length, fetch.m, fetch.lc, t);
      }
      CertificateFollows(fetch.stalep, l, fetch.mem.Length, fetch.m, fetch.lc, cc, cd, t);
    }
    CertificateEnds(fetch.tree, fetch.stalep, l, fetch.mem.Length, fetch.m, fetch.lc, cc, cd);
    fetch.Certified(cc, cd);
    RootRow(fetch.tree, fetch.mem.Length, fetch.m);
    return true;
  }

  /** A certificate that describes the state keeps the fetch on it, whether or not the partition is up to date. */
  lemma CertificateFollows(stalep: seq<seq<FPart>>, l: nat, nb: nat, m: nat, lc: Seqno, cc: Seqno, cd: nat, t: Target)
    requires Discipline(stalep, l, nb, m, lc) && Following(stalep, l, t) && Descending(t)
    requires Queued(stalep, l) && cc >= lc && cc >= 0 && cd < m
    requires cd == t.d(l, High(stalep[l]).index) && cc >= t.lm(l, High(stalep[l]).index)
    requires l == 0 ==> High(stalep[0]).lm <= lc
    ensures l == 0 ==> High(stalep[0]).index == 0
    ensures l > 0 ==> cd == High(stalep[l]).d
    ensures var s := SetHigh(stalep, l, High(stalep[l]).(c := cc, d := cd));
            && Queued(s, l) && Following(s, l, t) && (l == 0 ==> High(s[0]).lm <= lc) && Work(s, l) == Work(stalep, l)
            && Follows(Found(s, l), t) && Rest(Found(s, l)) < Work(stalep, l)
  {
    hide QueueOK, Finish, Climb, SetHigh, Found, QueueWork;
    var e := High(stalep[l]).(c := cc, d := cd);
    assert For(stalep[l][|stalep[l]| - 1], l, t);
    EntryFacts(stalep, l, nb, m, lc);
    SetHighOK(stalep, l, nb, m, lc, l, e);
    SetHighIs(stalep, l, e);
    SetHighFollows(stalep, l, e, t);
    FoundFollows(SetHigh(stalep, l, e), l, nb, m, lc, t);
  }

  /** Finding a partition up to date leaves what it leaves whatever the certificate says of its checkpoint; at the end nothing is queued. */
  lemma CertificateEnds(t: Tree, stalep: seq<seq<FPart>>, l: nat, nb: nat, m: nat, lc: Seqno, cc: Seqno, cd: nat)
    requires Discipline(stalep, l, nb, m, lc) && Queued(stalep, l) && cc >= lc && cc >= 0 && cd < m
    ensures var s := SetHigh(stalep, l, High(stalep[l]).(c := cc, d := cd));
            && Queued(s, l)
            && FoundNewer(t, s, l, High(stalep[l]).index) == FoundNewer(t, stalep, l, High(stalep[l]).index)
            && (Found(s, l).done ==> Found(s, l).stalep == [[], [], [], []])
  {
    hide QueueOK, Finish, Climb, SetHigh, QueuedBefore, Discipline;
    var e := High(stalep[l]).(c := cc, d := cd);
    EntryFactsIn(stalep, l, nb, m, lc);
    SetHighOK(stalep, l, nb, m, lc, l, e);
    SetHighIs(stalep, l, e);
    var s := SetHigh(stalep, l, e);
    AreQueued(s, l, nb, m, lc);
    if l == 0 {
      ClimbEnds(s, 0, nb, m, lc);
    } else {
      DropHigh(s, l, nb, m, lc);
      if WithoutHigh(s, l)[l] == [] {
        AreQueued(WithoutHigh(s, l), l - 1, nb, m, lc);
        ClimbEnds(WithoutHigh(s, l), l - 1, nb, m, lc);
      }
    }
  }

  lemma DescribedEnds(stalep: seq<seq<FPart>>, l: nat, nb: nat, m: nat, lc: Seqno, lm: Seqno, q: seq<FPart>)
    requires Discipline(stalep, l, nb, m, lc) && l < LEAF && Queued(stalep, l) && High(stalep[l]).c >= 0
    requires QueueOK(q, nb, m, l + 1, lc) && ChildrenOf(q, High(stalep[l]).index) && |q| <= CHILDREN
    ensures Described(stalep, l, lm, q).done ==> Described(stalep, l, lm, q).stalep == [[], [], [], []]
  {
    hide QueueOK, Finish, Climb, Discipline, ChildrenOf;
    ExpandOK(stalep, l, nb, m, lc, lm, q);
    if q == [] {
      AreQueued(Expand(stalep, l, lm, q), l, nb, m, lc);
      ClimbEnds(Expand(stalep, l, lm, q), l, nb, m, lc);
    }
  }

  lemma MetaDataFollows(tree: Tree, stalep: seq<seq<FPart>>, l: nat, i: nat, nb: nat, m: nat, lc: Seqno, lm: Seqno,
                        subs: seq<nat>, t: Target)
    requires Discipline(stalep, l, nb, m, lc) && l < LEAF && Following(stalep, l, t) && Descending(t)
    requires FetchTree(tree, nb, m) && |tree.parts| == LEVELS && i < FullWidth(nb, l)
    requires Queued(stalep, l) && High(stalep[l]).index == i && High(stalep[l]).c >= 0 && lm == t.lm(l, i)
    requires |subs| == CHILDREN && forall k :: 0 <= k < |subs| ==> subs[k] < m
    requires forall k :: 0 <= k < |subs| ==> subs[k] == 0 || subs[k] == t.d(l + 1, i * CHILDREN + k)
    ensures Follows(Described(stalep, l, lm, OutOfDate(tree, l, i, subs, High(stalep[l]))), t)
  {
    hide QueueOK, FetchTree, FullWidth, Described, ChildQueue, ChildrenOf;
    EntryFactsIn(stalep, l, nb, m, lc);
    var wp := High(stalep[l]);
    assert For(stalep[l][|stalep[l]| - 1], l, t);
    ChildrenOfTree(tree, nb, m, l, i);
    ChildQueueOK(tree.parts[l + 1], i, subs, ChildCount(|tree.parts[l + 1]|, i), wp.lu, wp.c, nb, m, l + 1, lc);
    ChildrenFor(tree, l, i, subs, wp, t);
    DescribedFollows(stalep, l, nb, m, lc, lm, OutOfDate(tree, l, i, subs, wp), t);
  }

  /** Meta-data for partition i of level l. */
  method DeliverMetaData<B(!new)>(fetch: Fetch<B>, l: nat, i: nat, d: nat, lm: Seqno, subs: seq<nat>, ghost t: Target)
    returns (taken: bool)
    requires fetch.Valid() && |subs| == CHILDREN && forall k :: 0 <= k < |subs| ==> subs[k] < fetch.m
    modifies fetch
    ensures fetch.Valid() && fetch.loose == old(fetch.loose)
    ensures taken <==> Acceptable(fetch.h, fetch.m, old(fetch.Now()), MetaData(l, i, d, lm, subs))
    ensures taken ==> Aged(old(fetch.Now()), fetch.Now(), MetaData(l, i, d, lm, subs))
    ensures !taken ==> fetch.Now() == old(fetch.Now())
    ensures taken && Describes<B>(MetaData(l, i, d, lm, subs), t) && Descending(t) && old(OnCourse(fetch, t)) ==>
              OnCourse(fetch, t) && fetch.refetches == old(fetch.refetches) && fetch.Left() < old(fetch.Left())
  {
    hide Newer, LeftNewer, QueueOK, FetchTree, HashesInto, ExactUpTo, AllFresh, Finish, Climb, SetHigh, Following, Described, OutOfDate, Work,
         QueueWork, Checks, FullWidth;
    ghost var was, tree := fetch.stalep, fetch.tree;
    taken := fetch.HandleMetaData(l, i, d, lm, subs);
    RootRow(fetch.tree, fetch.mem.Length, fetch.m);
    if taken {
      var wp := High(was[l]);
      EntryFactsIn(was, l, fetch.mem.Length, fetch.m, old(fetch.lc));
      OutOfDateOK(tree, fetch.mem.Length, fetch.m, l, i, subs, wp, old(fetch.lc));
      DescribedEnds(was, l, fetch.mem.Length, fetch.m, old(fetch.lc), lm, OutOfDate(tree, l, i, subs, wp));
    }
    if taken && Describes<B>(MetaData(l, i, d, lm, subs), t) && Descending(t) && old(OnCourse(fetch, t)) {
      RootFor(was, l, fetch.mem.Length, fetch.m, old(fetch.lc), t);
      MetaDataFollows(tree, was, l, i, fetch.mem.Length, fetch.m, old(fetch.lc), lm, subs, t);
    }
  }

  /** Block b for partition i. */
  method DeliverData<B(!new)>(fetch: Fetch<B>, i: nat, lm: Seqno, b: B, ghost t: Target) returns (taken: bool)
    requires fetch.Valid()
    modifies fetch, fetch.mem
    ensures fetch.Valid() && fetch.loose == old(fetch.loose)
    ensures taken <==> Acceptable(fetch.h, fetch.m, old(fetch.Now()), Data(i, lm, b))
    ensures taken ==> Aged(old(fetch.Now()), fetch.Now(), Data(i, lm, b))
    ensures !taken ==> fetch.Now() == old(fetch.Now())
    ensures taken && Describes(Data(i, lm, b), t) && Descending(t) && old(OnCourse(fetch, t)) ==>
              OnCourse(fetch, t) && fetch.refetches == old(fetch.refetches) && fetch.Left() < old(fetch.Left())
  {
    hide Newer, QueueOK, FetchTree, HashesInto, ExactUpTo, AllFresh, Finish, Climb, Following, Work, QueueWork;
    ghost var was := fetch.stalep;
    taken := fetch.HandleData(i, lm, b);
    RootRow(fetch.tree, fetch.mem.Length, fetch.m);
    if taken {
      FinishEnds(was, LEAF, fetch.mem.Length, fetch.m, old(fetch.lc), lm);
    }
    if taken && Describes(Data(i, lm, b), t) && Descending(t) && old(OnCourse(fetch, t)) {
      RootFor(was, LEAF, fetch.mem.Length, fetch.m, old(fetch.lc), t);
      FinishFollows(was, LEAF, fetch.mem.Length, fetch.m, old(fetch.lc), lm, t);
    }
  }

  /** A message arrives; "taken" says whether it was accepted. */
  method Deliver<B(!new)>(fetch: Fetch<B>, msg: FetchMessage<B>, ghost t: Target) returns (taken: bool)
    requires fetch.Valid() && WellFormedMessage(msg, fetch.m)
    modifies fetch, fetch.mem
    ensures fetch.Valid() && fetch.loose == old(fetch.loose)
    ensures taken <==> Acceptable(fetch.h, fetch.m, old(fetch.Now()), msg)
    ensures taken ==> Aged(old(fetch.Now()), fetch.Now(), msg)
    ensures !taken ==> fetch.Now() == old(fetch.Now())
    ensures taken && Describes(msg, t) && Descending(t) && old(OnCourse(fetch, t)) ==>
              OnCourse(fetch, t) && fetch.refetches == old(fetch.refetches)
              && fetch.Left() + (if msg.Certificate? then 0 else 1) <= old(fetch.Left())
  {
    hide Describes, OnCourse, Descending, Acceptable, Aged;
    match msg
    case Certificate(l, i, cc, cd) => taken := DeliverCertificate(fetch, l, i, cc, cd, t);
    case MetaData(l, i, d, lm, subs) => taken := DeliverMetaData(fetch, l, i, d, lm, subs, t);
    case Data(i, lm, b) => taken := DeliverData(fetch, i, lm, b, t);
  }

  /** The fetch is started for the state t, or for one still to be certified, and the messages describe t. */
  ghost predicate OnState<B(!new)>(c: Seqno, cd: nat, taken: seq<FetchMessage<B>>, t: Target) {
    && Descending(t) && (c == -1 || (cd == t.d(0, 0) && c >= t.lm(0, 0)))
    && forall k :: 0 <= k < |taken| ==> Describes(taken[k], t)
  }

  lemma TakenAppend<B(!new)>(c: Seqno, cd: nat, taken: seq<FetchMessage<B>>, msg: FetchMessage<B>, t: Target)
    ensures OnState(c, cd, taken + [msg], t) ==> OnState(c, cd, taken, t) && Describes(msg, t) && Descending(t)
    ensures Fetched(taken + [msg]) == Fetched(taken) + if msg.Certificate? then 0 else 1
  {
    hide Describes, Descending;
    assert (taken + [msg])[..|taken|] == taken;
    if OnState(c, cd, taken + [msg], t) {
      assert (taken + [msg])[|taken|] == msg;
      forall k | 0 <= k < |taken| ensures Describes(taken[k], t) {
        assert (taken + [msg])[k] == taken[k];
      }
    }
  }

  /** start_fetch for checkpoint c with digest cd, when nothing was fetched. */
  ghost predicate Starts<B(!new)>(was: Moment<B>, now: Moment<B>, c: Seqno, cd: nat)
    requires |was.tree.parts| == LEVELS && |was.tree.parts[0]| == 1
  {
    var root := FPart(0, was.last.0, was.tree.parts[0][0].lm, c, cd);
    now == Moment(was.mem, was.tree, [[root], [], [], []], 0, true, true, 0, was.last)
  }

  /** start_fetch has all the work before it. */
  method Begin<B(!new)>(fetch: Fetch<B>, c: Seqno, cd: nat, ghost t: Target)
    requires fetch.Valid() && !fetch.fetching && cd < fetch.m && (c == -1 || (c >= fetch.lc && c >= 0))
    requires IsFresh(fetch.h, fetch.mem[..], fetch.tree, 0, 0) && fetch.tree.parts[0][0].lm <= fetch.lc
    modifies fetch
    ensures fetch.Valid() && fetch.fetching && fetch.refetches == 0 && fetch.Left() == Weight(0)
    ensures old(|fetch.tree.parts| == LEVELS && |fetch.tree.parts[0]| == 1) && Starts(old(fetch.Now()), fetch.Now(), c, cd)
    ensures OnState<B>(c, cd, [], t) ==> OnCourse(fetch, t)
    ensures Newer(fetch.tree, fetch.stalep) == NewerInTree(old(fetch.tree))
  {
    hide Newer, NewerInTree, FetchTree, HashesInto, ExactUpTo, AllFresh, IsFresh, Descending;
    RootRow(fetch.tree, fetch.mem.Length, fetch.m);
    fetch.StartFetch(c, cd);
    RootQueued(fetch.tree, fetch.stalep[0][0]);
  }

  /** The messages among the first k that are accepted, the fetch being as at[j] when message j arrives. */
  ghost function Taken<B(!new)>(h: Hasher<B>, m: nat, at: seq<Moment<B>>, msgs: seq<FetchMessage<B>>, k: nat): seq<FetchMessage<B>>
    requires k <= |at| && k <= |msgs|
  {
    if k == 0 then []
    else Taken(h, m, at, msgs, k - 1) + if Acceptable(h, m, at[k - 1], msgs[k - 1]) then [msgs[k - 1]] else []
  }

  lemma {:induction false} TakenSame<B(!new)>(h: Hasher<B>, m: nat, at: seq<Moment<B>>, at': seq<Moment<B>>,
                                              msgs: seq<FetchMessage<B>>, k: nat)
    requires k <= |at| && at <= at' && k <= |msgs|
    ensures Taken(h, m, at', msgs, k) == Taken(h, m, at, msgs, k)
  {
    hide Acceptable;
    if k > 0 {
      TakenSame(h, m, at, at', msgs, k - 1);
    }
  }

  /** at has the states of the fetch between the first |at| - 1 messages: those that are not accepted change nothing. */
  ghost predicate Course<B(!new)>(h: Hasher<B>, m: nat, at: seq<Moment<B>>, msgs: seq<FetchMessage<B>>) {
    && 0 < |at| <= |msgs| + 1
    && forall k :: 0 <= k < |at| - 1 && !Acceptable(h, m, at[k], msgs[k]) ==> at[k + 1] == at[k]
  }

  /** What the messages among the first k that are accepted leave newer than the partition it is part of. */
  ghost function LeftUpTo<B(!new)>(h: Hasher<B>, m: nat, at: seq<Moment<B>>, msgs: seq<FetchMessage<B>>, k: nat): iset<(nat, nat)>
    requires k <= |at| && k <= |msgs|
  {
    if k == 0 then iset{}
    else LeftUpTo(h, m, at, msgs, k - 1) + if Acceptable(h, m, at[k - 1], msgs[k - 1]) then LeftBy(at[k - 1], msgs[k - 1]) else iset{}
  }

  lemma {:induction false} LeftSame<B(!new)>(h: Hasher<B>, m: nat, at: seq<Moment<B>>, at': seq<Moment<B>>,
                                             msgs: seq<FetchMessage<B>>, k: nat)
    requires k <= |at| && at <= at' && k <= |msgs|
    ensures LeftUpTo(h, m, at', msgs, k) == LeftUpTo(h, m, at, msgs, k)
  {
    hide Acceptable, LeftBy;
    if k > 0 {
      LeftSame(h, m, at, at', msgs, k - 1);
    }
  }

  lemma {:induction false} NullsSay(m: nat, parts: seq<Part>, base: nat, subs: seq<nat>, n: nat, sum: nat, lu: Seqno, c: Seqno)
    requires sum < m && Small(parts, m) && n <= |subs| && forall k :: 0 <= k < |subs| ==> subs[k] == 0
    requires n > 0 ==> base + n <= |parts|
    ensures CheckSum(m, parts, base, subs, n, sum) == sum && ChildQueue(parts, base, subs, n, lu, c) == []
  {
    if n > 0 {
      NullsSay(m, parts, base, subs, n - 1, sum, lu, c);
    }
  }

  /**
   * Such messages are possible as far as the hash function allows: if the root
   * has the digest asked for with another age as well, a message that gives it
   * that age and says that no child differs is accepted, and leaves every
   * child of the root that is newer than that.
   */
  lemma AgesByHash<B(!new)>(h: Hasher<B>, m: nat, at: Moment<B>, lm: Seqno) returns (msg: FetchMessage<B>)
    requires at.fetching && at.flevel == 0 && Queued(at.stalep, 0) && FetchTree(at.tree, |at.mem|, m)
    requires var e := High(at.stalep[0]); e.index == 0 && e.c >= 0 && e.d == h.sum(at.tree.sums[0][0], 0, lm)
    ensures Acceptable(h, m, at, msg)
    ensures forall k: nat :: k < |at.tree.parts[1]| && Parent(k) == 0 && lm < at.tree.parts[1][k].lm ==> (1, k) in LeftBy(at, msg)
  {
    hide FetchTree, SumsOK;
    var e, subs := High(at.stalep[0]), seq(CHILDREN, _ => 0);
    msg := MetaData(0, 0, e.d, lm, subs);
    ChildrenOfTree(at.tree, |at.mem|, m, 0, 0);
    NullsSay(m, at.tree.parts[1], 0, subs, ChildCount(|at.tree.parts[1]|, 0), at.tree.sums[0][0], e.lu, e.c);
  }

  /**
   * A child that meta-data describing a state leaves newer than its parent is
   * newer than it is in that state, where no child is newer than its parent.
   */
  lemma LeftBeyondState<B(!new)>(at: Moment<B>, msg: FetchMessage<B>, t: Target)
    requires msg.MetaData? && Describes(msg, t) && Descending(t)
    ensures forall p :: p in LeftBy(at, msg) ==>
              |at.tree.parts| == LEVELS && p.0 < LEVELS && p.1 < |at.tree.parts[p.0]| && at.tree.parts[p.0][p.1].lm > t.lm(p.0, p.1)
  {
    forall p | p in LeftBy(at, msg)
      ensures |at.tree.parts| == LEVELS && p.0 < LEVELS && p.1 < |at.tree.parts[p.0]| && at.tree.parts[p.0][p.1].lm > t.lm(p.0, p.1)
    {
      assert t.lm(p.0, p.1) <= t.lm(p.0 - 1, Parent(p.1));
    }
  }

  /**
   * A whole fetch: start_fetch, then any messages.  If those accepted, in
   * whatever order and among whatever others, describe one state, then no
   * partition is fetched twice, at most as many messages of data and meta-data
   * are accepted as there are partitions to fetch, and when the fetch is over
   * every digest is that of what its partition consists of, but for those
   * that were wrong before.  "at" has the states in between.  Whatever the
   * messages say, the root is then no newer than the last checkpoint, and no
   * partition is newer than the one it is part of but those that were before
   * and those that a message left so without having them fetched.
   */
  method FetchAll<B(!new)>(fetch: Fetch<B>, c: Seqno, cd: nat, msgs: seq<FetchMessage<B>>, ghost t: Target)
    returns (taken: seq<FetchMessage<B>>, ghost at: seq<Moment<B>>)
    requires fetch.Valid() && !fetch.fetching && cd < fetch.m && (c == -1 || (c >= fetch.lc && c >= 0))
    requires IsFresh(fetch.h, fetch.mem[..], fetch.tree, 0, 0) && fetch.tree.parts[0][0].lm <= fetch.lc
    requires forall k :: 0 <= k < |msgs| ==> WellFormedMessage(msgs[k], fetch.m)
    modifies fetch, fetch.mem
    ensures fetch.Valid()
    ensures |at| == |msgs| + 1 && Course(fetch.h, fetch.m, at, msgs) && at[|msgs|] == fetch.Now()
    ensures old(|fetch.tree.parts| == LEVELS && |fetch.tree.parts[0]| == 1) && Starts(old(fetch.Now()), at[0], c, cd)
    ensures taken == Taken(fetch.h, fetch.m, at, msgs, |msgs|)
    ensures !fetch.fetching ==>
              RootNoNewer(fetch.tree, fetch.lc)
              && NewerInTree(fetch.tree) <= NewerInTree(old(fetch.tree)) + LeftUpTo(fetch.h, fetch.m, at, msgs, |msgs|)
    ensures OnState(c, cd, taken, t) ==>
              && fetch.refetches == 0 && Fetched(taken) + fetch.Left() <= Weight(0)
              && (!fetch.fetching ==>
                    && AllFresh(fetch.h, fetch.m, fetch.mem[..], fetch.tree, fetch.loose)
                    && RootDigest(fetch.tree, t.d(0, 0))
                    && fetch.sd == t.d(0, 0) && fetch.lc >= t.lm(0, 0))
  {
    hide Describes, Descending, FetchTree, HashesInto, ExactUpTo, AllFresh, IsFresh, WellFormedMessage, Discipline, OnState, Following, Work,
         Weight, Acceptable, Starts, Newer, NewerInTree, LeftBy;
    taken := [];
    Begin(fetch, c, cd, t);
    at := [fetch.Now()];
    for k := 0 to |msgs|
      invariant fetch.Valid() && |at| == k + 1 && Course(fetch.h, fetch.m, at, msgs) && at[k] == fetch.Now()
      invariant Newer(fetch.tree, fetch.stalep) <= NewerInTree(old(fetch.tree)) + LeftUpTo(fetch.h, fetch.m, at, msgs, k)
      invariant !fetch.fetching ==> fetch.stalep == [[], [], [], []] && RootNoNewer(fetch.tree, fetch.lc)
      invariant Starts(old(fetch.Now()), at[0], c, cd) && taken == Taken(fetch.h, fetch.m, at, msgs, k)
      invariant OnState(c, cd, taken, t) ==> OnCourse(fetch, t) && fetch.refetches == 0 && Fetched(taken) + fetch.Left() <= Weight(0)
    {
      var ok := Deliver(fetch, msgs[k], t);
      ghost var was := at;
      at := at + [fetch.Now()];
      TakenSame(fetch.h, fetch.m, was, at, msgs, k);
      LeftSame(fetch.h, fetch.m, was, at, msgs, k);
      if ok {
        TakenAppend(c, cd, taken, msgs[k], t);
        taken := taken + [msgs[k]];
      }
    }
    NothingQueued(fetch.tree);
  }
}
