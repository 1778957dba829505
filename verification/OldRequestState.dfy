/**
 * What a replica remembers of a sequence number across views: OReq_info of
 * src/View_info.h, updated by add_complete and add_incomplete of
 * src/View_info.cc.
 *
 * The record is bounded; the history of what happened at the sequence number
 * is not.  The lemmas say exactly what of the history the record keeps.
 */
module OldRequestState {
  import opened Types

  /** The part of OReq_info that a view-change reports; prepared stands for m != null. */
  datatype Record = Record(lv: View, v: View, d: Digest, prepared: bool)

  const EMPTY_RECORD := Record(-1, -1, NULL_DIGEST, false)

  /** A request prepared in view v with digest d. */
  function AddComplete(r: Record, v: View, d: Digest): Record {
    Record(v, v, d, true)
  }

  /** A pre-prepare or prepare with digest d was sent in view v and the request did not prepare. */
  function AddIncomplete(r: Record, v: View, d: Digest): Record {
    if r.d == d then
      if r.prepared then r.(lv := v) else r.(v := v)
    else
      Record(if r.prepared then r.lv else r.v, v, d, false)
  }

  /** What happened at a sequence number in one view. */
  datatype Event = Event(view: View, d: Digest, prepared: bool)

  function Step(r: Record, e: Event): Record {
    if e.prepared then AddComplete(r, e.view, e.d) else AddIncomplete(r, e.view, e.d)
  }

  function Replay(events: seq<Event>): Record {
    if events == [] then EMPTY_RECORD
    else Step(Replay(events[..|events| - 1]), events[|events| - 1])
  }

  /** Views increase and digests are never null. */
  ghost predicate IsHistory(events: seq<Event>) {
    && (forall i :: 0 <= i < |events| ==> events[i].view >= 0 && events[i].d != NULL_DIGEST)
    && (forall i, j :: 0 <= i < j < |events| ==> events[i].view < events[j].view)
  }

  /** From index k on, every event has digest d and none but possibly the first prepared. */
  ghost predicate Tail(events: seq<Event>, k: int, d: Digest) {
    && 0 <= k < |events|
    && (forall i :: k <= i < |events| ==> events[i].d == d)
    && (forall i :: k < i < |events| ==> !events[i].prepared)
  }

  /**
   * Case (1): the request prepared last at index k, and every later event
   * repeats its digest, the last one in view lv.
   */
  ghost predicate SummaryPrepared(events: seq<Event>, r: Record, k: int) {
    && Tail(events, k, r.d)
    && events[k].prepared
    && r.v == events[k].view
    && r.lv == events[|events| - 1].view
  }

  /**
   * Case (2): the events from index k on did not prepare and have the last
   * digest, the last one in view v; the event before k, if any, is in view lv
   * and has another digest.
   */
  ghost predicate SummaryPending(events: seq<Event>, r: Record, k: int) {
    && Tail(events, k, r.d)
    && !events[k].prepared
    && r.v == events[|events| - 1].view
    && (if k == 0 then r.lv == -1 else events[k - 1].d != r.d && r.lv == events[k - 1].view)
  }

  /** r is what there is to know about the events. */
  ghost predicate Summarises(events: seq<Event>, r: Record) {
    if events == [] then r == EMPTY_RECORD
    else exists k :: if r.prepared then SummaryPrepared(events, r, k) else SummaryPending(events, r, k)
  }

  lemma SummaryStep(events: seq<Event>, r: Record, e: Event)
    requires IsHistory(events + [e]) && Summarises(events, r)
    ensures Summarises(events + [e], Step(r, e))
  {
    var all, s := events + [e], Step(r, e);
    var n := |events|;
    assert all[n] == e;
    if e.prepared {
      assert SummaryPrepared(all, s, n);
    } else if events == [] {
      assert SummaryPending(all, s, 0);
    } else {
      var k :| if r.prepared then SummaryPrepared(events, r, k) else SummaryPending(events, r, k);
      assert all[n - 1] == events[n - 1];
      if r.d == e.d {
        assert if s.prepared then SummaryPrepared(all, s, k) else SummaryPending(all, s, k);
      } else {
        assert SummaryPending(all, s, n);
      }
    }
  }

  /** The record kept by the two operations summarises the whole history. */
  lemma {:induction false} ReplaySummarises(events: seq<Event>)
    requires IsHistory(events)
    ensures Summarises(events, Replay(events))
  {
    hide Step, Tail, SummaryPrepared, SummaryPending;
    if events != [] {
      var before := events[..|events| - 1];
      ReplaySummarises(before);
      assert before + [events[|events| - 1]] == events;
      SummaryStep(before, Replay(before), events[|events| - 1]);
    }
  }

  /** A history has one summary, so the record says exactly this much and no less. */
  lemma SummaryIsExact(events: seq<Event>, r: Record, r': Record)
    requires IsHistory(events) && Summarises(events, r) && Summarises(events, r')
    ensures r == r'
  {
    if events != [] {
      var k :| if r.prepared then SummaryPrepared(events, r, k) else SummaryPending(events, r, k);
      var k' :| if r'.prepared then SummaryPrepared(events, r', k') else SummaryPending(events, r', k');
      assert r.d == events[|events| - 1].d == r'.d;
      assert k == k';
    }
  }

  /** Both directions together: a record summarises a history iff it is its replay. */
  lemma SummarisesIffReplay(events: seq<Event>, r: Record)
    requires IsHistory(events)
    ensures Summarises(events, r) <==> r == Replay(events)
  {
    ReplaySummarises(events);
    if Summarises(events, r) {
      SummaryIsExact(events, r, Replay(events));
    }
  }

  // ------------------------------------------------------------------
  // What a record keeps of a decided request
  // ------------------------------------------------------------------

  /** A request with digest d prepared in view v, and no later event has another digest. */
  ghost predicate DecidedAt(events: seq<Event>, v: View, d: Digest) {
    && (exists k :: 0 <= k < |events| && events[k] == Event(v, d, true))
    && LaterAgree(events, v, d)
  }

  ghost predicate LaterAgree(events: seq<Event>, v: View, d: Digest) {
    forall i :: 0 <= i < |events| && events[i].view > v ==> events[i].d == d
  }

  /** The bounded record never loses a decided request: it is still reported as prepared. */
  lemma DecidedIsKept(events: seq<Event>, v: View, d: Digest)
    requires IsHistory(events) && DecidedAt(events, v, d)
    ensures var r := Replay(events); r.prepared && r.d == d && r.v >= v
  {
    ReplaySummarises(events);
    var r := Replay(events);
    var j :| 0 <= j < |events| && events[j] == Event(v, d, true);
    var k :| if r.prepared then SummaryPrepared(events, r, k) else SummaryPending(events, r, k);
    if !r.prepared {
      assert false;
    }
  }

  /** The record's word for digest cd in view cv, as the new primary weighs it. */
  predicate RecordVouches(r: Record, cv: View, cd: Digest) {
    if r.v < 0 then cv < 0
    else if r.prepared then r.lv >= cv && r.d == cd
    else (r.v >= cv && r.d == cd) || cv <= r.lv
  }

  /** A record only vouches for digests of the views it has seen. */
  lemma VouchedIsLater(events: seq<Event>, v: View, d: Digest, cv: View, cd: Digest)
    requires IsHistory(events) && LaterAgree(events, v, d) && 0 <= v < cv
    requires RecordVouches(Replay(events), cv, cd)
    ensures cd == d
  {
    ReplaySummarises(events);
    var r := Replay(events);
    var n := |events|;
    assert events != [];
    var k :| if r.prepared then SummaryPrepared(events, r, k) else SummaryPending(events, r, k);
    assert r.d == events[n - 1].d;
    if !r.prepared && cv <= r.lv {
      assert false;
    }
  }
}
