/** Replay events, and the oracle that answers "when is this session next resumed?". */
module Traces {
  import opened Types
  import opened Sorting

  datatype Action = Start | Resume | End

  datatype Event = Event(timestamp: real, sid: Sid, userId: string, tokenCount: nat, action: Action)

  /** Is a strictly later than b?  None stands for "never", which is later than any time. */
  predicate Later(a: Option<real>, b: Option<real>) {
    match (a, b)
    case (_, None) => false
    case (None, Some(_)) => true
    case (Some(x), Some(y)) => x > y
  }

  predicate ResumesAfter(e: Event, sid: Sid, t: real) {
    e.action == Resume && e.sid == sid && e.timestamp > t
  }

  /** The first resume of sid strictly after t: the least such timestamp in the trace, in whatever order. */
  function NextResume(events: seq<Event>, sid: Sid, t: real): (r: Option<real>)
    ensures r.Some? ==> exists e :: e in events && ResumesAfter(e, sid, t) && e.timestamp == r.value
    ensures forall e :: e in events && ResumesAfter(e, sid, t) ==> r.Some? && r.value <= e.timestamp
  {
    if events == [] then None
    else
      var rest := NextResume(events[1..], sid, t);
      var here := Some(events[0].timestamp);
      if ResumesAfter(events[0], sid, t) && Later(rest, here) then here
      else rest
  }

  /** Times at which sid is resumed, in trace order. */
  function ResumeTimes(events: seq<Event>, sid: Sid): (r: seq<real>)
    ensures forall x :: x in r <==> exists e :: e in events && e.action == Resume && e.sid == sid && e.timestamp == x
  {
    if events == [] then []
    else
      var rest := ResumeTimes(events[1..], sid);
      if events[0].action == Resume && events[0].sid == sid then
        var r := [events[0].timestamp] + rest;
        assert events[0] in events && r[0] == events[0].timestamp;
        r
      else rest
  }

  ghost predicate Ascending(xs: seq<real>) {
    forall i, j :: 0 <= i < j < |xs| ==> xs[i] <= xs[j]
  }

  predicate Before(x: real, y: real) {
    x < y
  }

  function Sorted(xs: seq<real>): (r: seq<real>)
    ensures Ascending(r) && |r| == |xs|
    ensures forall y :: y in r <==> y in xs
  {
    SortInOrder(xs, Before);
    SortMembers(xs, Before);
    Sort(xs, Before)
  }

  /** Per-session sorted resume times, answered by binary search. */
  class TraceOracle {
    ghost const events: seq<Event>
    var resumes: map<Sid, seq<real>>

    ghost predicate Valid()
      reads this
    {
      forall sid ::
        var times := ResumeTimes(events, sid);
        if sid in resumes then Ascending(resumes[sid]) && forall x :: x in resumes[sid] <==> x in times
        else times == []
    }

    constructor (events: seq<Event>)
      ensures Valid() && this.events == events
    {
      var acc: map<Sid, seq<real>> := map[];
      for i := 0 to |events|
        invariant forall sid :: ResumeTimes(events[..i], sid) == if sid in acc then acc[sid] else []
      {
        var e := events[i];
        forall sid
          ensures ResumeTimes(events[..i + 1], sid)
               == ResumeTimes(events[..i], sid) + if e.action == Resume && e.sid == sid then [e.timestamp] else []
        {
          assert events[..i + 1] == events[..i] + [e];
          ResumeTimesSnoc(events[..i], e, sid);
        }
        if e.action == Resume {
          acc := acc[e.sid := (if e.sid in acc then acc[e.sid] else []) + [e.timestamp]];
        }
      }
      assert events[..|events|] == events;
      this.events := events;
      resumes := map sid | sid in acc :: Sorted(acc[sid]);
    }

    /** Searching to the right of t excludes a resume at exactly t. */
    method NextResumeAfter(sid: Sid, t: real) returns (r: Option<real>)
      requires Valid()
      ensures r == NextResume(events, sid, t)
    {
      ghost var times := ResumeTimes(events, sid);
      ghost var next := NextResume(events, sid, t);
      assert next.Some? ==> next.value in times;
      if sid !in resumes {
        return None;
      }
      var arr := resumes[sid];
      var lo, hi := 0, |arr|;
      while lo < hi
        invariant 0 <= lo <= hi <= |arr|
        invariant forall i :: 0 <= i < lo ==> arr[i] <= t
        invariant forall i :: hi <= i < |arr| ==> arr[i] > t
      {
        var mid := (lo + hi) / 2;
        if arr[mid] <= t {
          lo := mid + 1;
        } else {
          hi := mid;
        }
      }
      if lo == |arr| {
        return None;
      }
      assert arr[lo] in times;
      r := Some(arr[lo]);
    }
  }

  lemma {:induction false} ResumeTimesSnoc(a: seq<Event>, e: Event, sid: Sid)
    ensures ResumeTimes(a + [e], sid)
         == ResumeTimes(a, sid) + if e.action == Resume && e.sid == sid then [e.timestamp] else []
  {
    if a != [] {
      ResumeTimesSnoc(a[1..], e, sid);
      assert (a + [e])[1..] == a[1..] + [e];
    }
  }
}
