/** In a plain demand cache of equal-sized slots nothing misses less than Belady's policy. */
module BeladyOptimality {
  import opened Types
  import opened Traces
  import opened Policies

  // ---- A demand cache: a victim is needed only on a miss when full ----

  ghost function Serve(cache: set<Sid>, slots: nat, s: Sid, victim: Sid): set<Sid> {
    if s in cache then cache
    else if |cache| < slots then cache + {s}
    else cache - {victim} + {s}
  }

  ghost predicate Evicts(cache: set<Sid>, slots: nat, s: Sid) {
    s !in cache && |cache| >= slots
  }

  /** One victim per request; those that are needed are in the cache. */
  ghost predicate Legal(cache: set<Sid>, slots: nat, requests: seq<Sid>, victims: seq<Sid>)
    decreases |requests|
  {
    |victims| == |requests| &&
    (requests != [] ==>
       && (Evicts(cache, slots, requests[0]) ==> victims[0] in cache)
       && Legal(Serve(cache, slots, requests[0], victims[0]), slots, requests[1..], victims[1..]))
  }

  ghost function Misses(cache: set<Sid>, slots: nat, requests: seq<Sid>, victims: seq<Sid>): nat
    requires |victims| == |requests|
    decreases |requests|
  {
    if requests == [] then 0
    else
      (if requests[0] in cache then 0 else 1)
      + Misses(Serve(cache, slots, requests[0], victims[0]), slots, requests[1..], victims[1..])
  }

  /** Position of the next request for s; the number of requests if there is none. */
  function NextUse(requests: seq<Sid>, s: Sid): nat {
    if requests == [] || requests[0] == s then 0 else 1 + NextUse(requests[1..], s)
  }

  /** The other schedule, one step in. */
  lemma Prepend(cache: set<Sid>, slots: nat, requests: seq<Sid>, victim: Sid, later: seq<Sid>)
    requires requests != [] && (Evicts(cache, slots, requests[0]) ==> victim in cache)
    requires Legal(Serve(cache, slots, requests[0], victim), slots, requests[1..], later)
    ensures Legal(cache, slots, requests, [victim] + later)
    ensures Misses(cache, slots, requests, [victim] + later)
         == (if requests[0] in cache then 0 else 1)
            + Misses(Serve(cache, slots, requests[0], victim), slots, requests[1..], later)
  {
  }

  // ---- Exchanging one cached session ----

  ghost function Swapped(cache: set<Sid>, x: Sid, y: Sid): set<Sid> {
    cache - {x} + {y}
  }

  lemma SwapSize(cache: set<Sid>, x: Sid, y: Sid)
    requires x in cache && y !in cache
    ensures |Swapped(cache, x, y)| == |cache|
  {
  }

  /** Whom the cache holding y in place of x evicts, to follow the other one. */
  function Follow(cache: set<Sid>, x: Sid, y: Sid, r: Sid, v: Sid): Sid {
    if r == x || r == y || (r !in cache && v == x) then y else v
  }

  /** After one request the two caches are equal, or still differ in one session. */
  lemma SwapStep(cache: set<Sid>, x: Sid, y: Sid, slots: nat, r: Sid, v: Sid)
    requires |cache| == slots && x in cache && y !in cache && (r !in cache ==> v in cache)
    ensures var other, next := Swapped(cache, x, y), Serve(cache, slots, r, v);
      var pick := Follow(cache, x, y, r, v);
      var after := Serve(other, slots, r, pick);
      && |next| == slots && (Evicts(other, slots, r) ==> pick in other)
      && (if r == x then after == next
          else if r in cache then next == cache && after == other
          else if v == x then after == next
          else if r == y then after == Swapped(next, x, v) && x in next && v !in next
          else after == Swapped(next, x, y) && x in next && y !in next)
  {
    var other, next := Swapped(cache, x, y), Serve(cache, slots, r, v);
    SwapSize(cache, x, y);
    if r !in cache {
      SwapSize(cache, v, r);
      assert next == Swapped(cache, v, r);
    }
    if r == x {
      assert other - {y} + {x} == cache;
    } else if r in cache {
    } else if v == x {
      assert r != y ==> other - {y} + {r} == next;
      assert r == y ==> other == next;
    } else if r == y {
      assert Swapped(next, x, v) == other;
    } else {
      assert Swapped(next, x, y) == other - {v} + {r};
    }
  }

  /** Holding y in place of x costs at most one miss more. */
  lemma {:induction false} SwapCostsOne(cache: set<Sid>, x: Sid, y: Sid, slots: nat, requests: seq<Sid>,
          victims: seq<Sid>)
    returns (better: seq<Sid>)
    requires |cache| == slots && x in cache && y !in cache && Legal(cache, slots, requests, victims)
    ensures Legal(Swapped(cache, x, y), slots, requests, better)
    ensures Misses(Swapped(cache, x, y), slots, requests, better) <= Misses(cache, slots, requests, victims) + 1
    decreases |requests|
  {
    better := [];
    if requests != [] {
      var r, v, rest, later := requests[0], victims[0], requests[1..], victims[1..];
      var other, next, pick := Swapped(cache, x, y), Serve(cache, slots, r, v), Follow(cache, x, y, r, v);
      SwapStep(cache, x, y, slots, r, v);
      hide Serve;
      hide Follow;
      if r in cache && r != x {
        later := SwapCostsOne(cache, x, y, slots, rest, later);
      } else if r == y && v != x {
        later := SwapCostsOne(next, x, v, slots, rest, later);
      } else if r !in cache && v != x {
        later := SwapCostsOne(next, x, y, slots, rest, later);
      }
      Prepend(other, slots, requests, pick, later);
      better := [pick] + later;
    }
  }

  /** Holding y in place of x costs nothing when y is requested no later than x. */
  lemma {:induction false} SoonerIsNoWorse(cache: set<Sid>, x: Sid, y: Sid, slots: nat, requests: seq<Sid>,
          victims: seq<Sid>)
    returns (better: seq<Sid>)
    requires |cache| == slots && x in cache && y !in cache && Legal(cache, slots, requests, victims)
    requires NextUse(requests, y) <= NextUse(requests, x)
    ensures Legal(Swapped(cache, x, y), slots, requests, better)
    ensures Misses(Swapped(cache, x, y), slots, requests, better) <= Misses(cache, slots, requests, victims)
    decreases |requests|
  {
    better := [];
    if requests != [] {
      var r, v, rest, later := requests[0], victims[0], requests[1..], victims[1..];
      var other, next, pick := Swapped(cache, x, y), Serve(cache, slots, r, v), Follow(cache, x, y, r, v);
      SwapStep(cache, x, y, slots, r, v);
      hide Serve;
      hide Follow;
      assert r != x;
      if r in cache {
        later := SoonerIsNoWorse(cache, x, y, slots, rest, later);
      } else if r == y && v != x {
        later := SwapCostsOne(next, x, v, slots, rest, later);
      } else if v != x {
        later := SoonerIsNoWorse(next, x, y, slots, rest, later);
      }
      Prepend(other, slots, requests, pick, later);
      better := [pick] + later;
    }
  }

  // ---- Belady's schedule ----

  /** The events a cache serves: a start and a resume both ask for the session, an end asks for nothing. */
  function Served(events: seq<Event>): (r: seq<Event>)
    ensures forall e :: e in r <==> e in events && e.action != End
  {
    if events == [] then []
    else if events[0].action == End then Served(events[1..])
    else [events[0]] + Served(events[1..])
  }

  function OnlyResumes(events: seq<Event>): (r: seq<Event>)
    ensures forall e :: e in r <==> e in events && e.action == Resume
  {
    if events == [] then []
    else if events[0].action != Resume then OnlyResumes(events[1..])
    else [events[0]] + OnlyResumes(events[1..])
  }

  /** The oracle filters the trace itself: leaving out events it does not count changes none of its answers. */
  lemma {:induction false} SameFuture(events: seq<Event>, s: Sid, t: real)
    ensures NextResume(Served(events), s, t) == NextResume(events, s, t)
    ensures NextResume(OnlyResumes(events), s, t) == NextResume(events, s, t)
  {
    if events != [] {
      SameFuture(events[1..], s, t);
      assert events[0].action == Resume ==> Served(events)[1..] == Served(events[1..]);
      assert events[0].action == Start ==> Served(events)[1..] == Served(events[1..]);
      assert events[0].action == Resume ==> OnlyResumes(events)[1..] == OnlyResumes(events[1..]);
    }
  }

  ghost predicate SameAnswers(oracle: seq<Event>, events: seq<Event>) {
    forall s, t :: NextResume(oracle, s, t) == NextResume(events, s, t)
  }

  /** In order of time, and no resume at the time of an earlier event. */
  ghost predicate Timed(events: seq<Event>) {
    forall i, j :: 0 <= i < j < |events| ==>
      && events[i].timestamp <= events[j].timestamp
      && (events[j].action == Resume ==> events[i].timestamp < events[j].timestamp)
  }

  /** From event `from` on, s is only ever resumed. */
  ghost predicate OnlyResumed(events: seq<Event>, from: nat, s: Sid) {
    forall j :: from <= j < |events| && events[j].sid == s ==> events[j].action == Resume
  }

  /** A session is started, if at all, before anything else is asked of it, and before it is cached. */
  ghost predicate StartsFirst(cache: set<Sid>, events: seq<Event>, from: nat) {
    && (forall s :: s in cache ==> OnlyResumed(events, from, s))
    && (forall i :: from <= i < |events| ==> OnlyResumed(events, i + 1, events[i].sid))
  }

  function Requests(events: seq<Event>, from: nat): seq<Sid>
    requires from <= |events|
    decreases |events| - from
  {
    if from == |events| then [] else [events[from].sid] + Requests(events, from + 1)
  }

  /** Misses at resumes, the ones that lower the hit rate; a start finds nothing whatever the policy. */
  ghost function ResumeMisses(cache: set<Sid>, slots: nat, events: seq<Event>, from: nat, victims: seq<Sid>): nat
    requires from <= |events| && |victims| == |events| - from
    decreases |events| - from
  {
    if from == |events| then 0
    else
      (if events[from].action == Resume && events[from].sid !in cache then 1 else 0)
      + ResumeMisses(Serve(cache, slots, events[from].sid, victims[0]), slots, events, from + 1, victims[1..])
  }

  function Starts(events: seq<Event>, from: nat): nat
    requires from <= |events|
    decreases |events| - from
  {
    if from == |events| then 0 else (if events[from].action == Resume then 0 else 1) + Starts(events, from + 1)
  }

  /** At every eviction the policy, told the whole trace, was shown the cached sessions in some order and picked it. */
  ghost predicate BeladySchedule(cache: set<Sid>, slots: nat, oracle: seq<Event>, events: seq<Event>, from: nat,
          victims: seq<Sid>)
    requires from <= |events|
    decreases |events| - from
  {
    |victims| == |events| - from &&
    (from < |events| ==>
       var e := events[from];
       && (Evicts(cache, slots, e.sid) ==> BeladyPicks(cache, oracle, e.timestamp, victims[0]))
       && BeladySchedule(Serve(cache, slots, e.sid, victims[0]), slots, oracle, events, from + 1, victims[1..]))
  }

  ghost predicate BeladyPicks(cache: set<Sid>, events: seq<Event>, now: real, victim: Sid) {
    exists cands: seq<Candidate> ::
      && cands != [] && (forall s :: s in Sids(cands) <==> s in cache)
      && Select(Belady(events), [], now, cands) == Some(victim)
  }

  lemma {:induction false} NextUseIndex(events: seq<Event>, from: nat, s: Sid)
    requires from <= |events|
    ensures var use := from + NextUse(Requests(events, from), s);
      && use <= |events|
      && (use < |events| ==> events[use].sid == s)
      && (forall j :: from <= j < use ==> events[j].sid != s)
    decreases |events| - from
  {
    if from < |events| && events[from].sid != s {
      assert Requests(events, from)[1..] == Requests(events, from + 1);
      NextUseIndex(events, from + 1, s);
    }
  }

  /** In such a trace the next resume of a session not started again after event i is the event at its next use. */
  lemma NextResumeIsNextUse(events: seq<Event>, i: nat, s: Sid)
    requires Timed(events) && i < |events| && OnlyResumed(events, i + 1, s)
    ensures var use := i + 1 + NextUse(Requests(events, i + 1), s);
      use <= |events| && (use < |events| ==> events[use].action == Resume)
      && NextResume(events, s, events[i].timestamp) == if use < |events| then Some(events[use].timestamp) else None
  {
    hide NextUse;
    hide Requests;
    hide Timed;
    var now, use := events[i].timestamp, i + 1 + NextUse(Requests(events, i + 1), s);
    NextUseIndex(events, i + 1, s);
    if NextResume(events, s, now).Some? {
      var j := ResumeIndex(events, s, now);
      InOrder(events, i, j);
      if use < |events| {
        InOrder(events, use, j);
      }
    }
    if use < |events| {
      InOrder(events, i, use);
      ResumeBound(events, s, now, use);
    }
  }

  lemma InOrder(events: seq<Event>, i: nat, j: nat)
    requires Timed(events) && i < |events| && j < |events| && events[j].action == Resume
    ensures events[i].timestamp < events[j].timestamp <==> i < j
  {
  }

  lemma ResumeBound(events: seq<Event>, s: Sid, now: real, k: nat)
    requires k < |events| && ResumesAfter(events[k], s, now)
    ensures NextResume(events, s, now).Some? && NextResume(events, s, now).value <= events[k].timestamp
  {
  }

  lemma ResumeIndex(events: seq<Event>, s: Sid, now: real) returns (j: nat)
    requires NextResume(events, s, now).Some?
    ensures j < |events| && ResumesAfter(events[j], s, now) && events[j].timestamp == NextResume(events, s, now).value
  {
    var e :| e in events && ResumesAfter(e, s, now) && e.timestamp == NextResume(events, s, now).value;
    j :| 0 <= j < |events| && events[j] == e;
  }

  lemma BeladyPicksLatest(cache: set<Sid>, events: seq<Event>, now: real, victim: Sid, y: Sid)
    requires BeladyPicks(cache, events, now, victim) && y in cache
    ensures victim in cache && !Later(NextResume(events, y, now), NextResume(events, victim, now))
  {
  }

  /** Of the cached sessions the policy evicts one whose next request is farthest away. */
  lemma BeladyPicksFarthest(cache: set<Sid>, oracle: seq<Event>, events: seq<Event>, i: nat, victim: Sid, y: Sid)
    requires SameAnswers(oracle, events) && Timed(events) && i < |events| && StartsFirst(cache, events, i)
    requires BeladyPicks(cache, oracle, events[i].timestamp, victim) && y in cache
    ensures victim in cache
    ensures NextUse(Requests(events, i + 1), y) <= NextUse(Requests(events, i + 1), victim)
  {
    hide BeladyPicks;
    hide Timed;
    hide NextUse;
    hide Requests;
    hide Later;
    hide NextResume;
    BeladyPicksLatest(cache, oracle, events[i].timestamp, victim, y);
    assert OnlyResumed(events, i, y) && OnlyResumed(events, i, victim);
    NotLaterIsNotFarther(events, i, y, victim);
  }

  /** Comparing the next resumes after event i is comparing the next uses after it. */
  lemma NotLaterIsNotFarther(events: seq<Event>, i: nat, x: Sid, y: Sid)
    requires Timed(events) && i < |events| && OnlyResumed(events, i + 1, x) && OnlyResumed(events, i + 1, y)
    requires !Later(NextResume(events, x, events[i].timestamp), NextResume(events, y, events[i].timestamp))
    ensures NextUse(Requests(events, i + 1), x) <= NextUse(Requests(events, i + 1), y)
  {
    hide Timed;
    hide NextUse;
    hide Requests;
    hide NextResume;
    hide OnlyResumed;
    NextResumeIsNextUse(events, i, x);
    NextResumeIsNextUse(events, i, y);
    var a, b := i + 1 + NextUse(Requests(events, i + 1), x), i + 1 + NextUse(Requests(events, i + 1), y);
    if a < |events| && b < |events| {
      InOrder(events, b, a);
    }
  }

  lemma ServeKeepsStartsFirst(cache: set<Sid>, slots: nat, events: seq<Event>, from: nat, v: Sid)
    requires from < |events| && StartsFirst(cache, events, from)
    ensures StartsFirst(Serve(cache, slots, events[from].sid, v), events, from + 1)
    ensures events[from].sid in cache ==> events[from].action == Resume
  {
    assert events[from].sid in cache ==> OnlyResumed(events, from, events[from].sid);
  }

  /** What Belady picks in such a trace is a farthest-next-use schedule of its requests. */
  lemma {:induction false} BeladyIsFarthestUse(cache: set<Sid>, slots: nat, oracle: seq<Event>, events: seq<Event>,
          from: nat, victims: seq<Sid>)
    requires SameAnswers(oracle, events) && Timed(events) && from <= |events| && StartsFirst(cache, events, from)
    requires BeladySchedule(cache, slots, oracle, events, from, victims)
    ensures FarthestUse(cache, slots, Requests(events, from), victims)
    decreases |events| - from
  {
    hide SameAnswers;
    hide BeladyPicks;
    hide Timed;
    hide Serve;
    hide NextUse;
    hide StartsFirst;
    if from < |events| {
      var e, rest := events[from], Requests(events, from + 1);
      assert Requests(events, from)[0] == e.sid && Requests(events, from)[1..] == rest;
      ServeKeepsStartsFirst(cache, slots, events, from, victims[0]);
      BeladyIsFarthestUse(Serve(cache, slots, e.sid, victims[0]), slots, oracle, events, from + 1, victims[1..]);
      if Evicts(cache, slots, e.sid) {
        forall y | y in cache
          ensures victims[0] in cache && NextUse(rest, y) <= NextUse(rest, victims[0])
        {
          BeladyPicksFarthest(cache, oracle, events, from, victims[0], y);
        }
        PickIsCached(cache, oracle, e.timestamp, victims[0]);
      }
    }
  }

  lemma PickIsCached(cache: set<Sid>, events: seq<Event>, now: real, victim: Sid)
    requires BeladyPicks(cache, events, now, victim)
    ensures victim in cache
  {
  }

  /** Every start misses, so schedules differ in their misses at resumes only. */
  lemma {:induction false} MissesSplit(cache: set<Sid>, slots: nat, events: seq<Event>, from: nat, victims: seq<Sid>)
    requires from <= |events| && |victims| == |events| - from && StartsFirst(cache, events, from)
    ensures |Requests(events, from)| == |victims|
    ensures Misses(cache, slots, Requests(events, from), victims)
         == ResumeMisses(cache, slots, events, from, victims) + Starts(events, from)
    decreases |events| - from
  {
    hide Serve;
    hide StartsFirst;
    if from < |events| {
      ServeKeepsStartsFirst(cache, slots, events, from, victims[0]);
      MissesSplit(Serve(cache, slots, events[from].sid, victims[0]), slots, events, from + 1, victims[1..]);
      assert Requests(events, from)[1..] == Requests(events, from + 1);
    }
  }

  lemma ScheduleIsBest(cache: set<Sid>, slots: nat, oracle: seq<Event>, events: seq<Event>, belady: seq<Sid>,
          victims: seq<Sid>)
    requires slots >= 1 && |cache| <= slots
    requires SameAnswers(oracle, events) && Timed(events) && StartsFirst(cache, events, 0)
    requires BeladySchedule(cache, slots, oracle, events, 0, belady)
    requires Legal(cache, slots, Requests(events, 0), victims)
    ensures Legal(cache, slots, Requests(events, 0), belady) && |belady| == |victims| == |events|
    ensures ResumeMisses(cache, slots, events, 0, belady) <= ResumeMisses(cache, slots, events, 0, victims)
  {
    hide SameAnswers;
    hide Timed;
    hide StartsFirst;
    hide Misses;
    hide ResumeMisses;
    hide FarthestUse;
    hide Requests;
    MissesSplit(cache, slots, events, 0, belady);
    BeladyIsFarthestUse(cache, slots, oracle, events, 0, belady);
    FarthestUseIsOptimal(cache, slots, Requests(events, 0), belady, victims);
    MissesSplit(cache, slots, events, 0, victims);
  }

  /** A cache that starts and resumes both fill, as the generated traces do: Belady's schedule is legal, and no legal
      schedule misses fewer resumes. */
  lemma BeladyIsOptimal(cache: set<Sid>, slots: nat, events: seq<Event>, belady: seq<Sid>, victims: seq<Sid>)
    requires slots >= 1 && |cache| <= slots
    requires Timed(Served(events)) && StartsFirst(cache, Served(events), 0)
    requires BeladySchedule(cache, slots, events, Served(events), 0, belady)
    requires Legal(cache, slots, Requests(Served(events), 0), victims)
    ensures Legal(cache, slots, Requests(Served(events), 0), belady) && |belady| == |victims| == |Served(events)|
    ensures ResumeMisses(cache, slots, Served(events), 0, belady)
         <= ResumeMisses(cache, slots, Served(events), 0, victims)
  {
    forall s, t
      ensures NextResume(events, s, t) == NextResume(Served(events), s, t)
    {
      SameFuture(events, s, t);
    }
    hide NextResume;
    hide Served;
    ScheduleIsBest(cache, slots, events, Served(events), belady, victims);
  }

  /** A cache that only resumes fill, for every trace whose resumes have distinct times. */
  lemma BeladyIsOptimalOnResumes(cache: set<Sid>, slots: nat, events: seq<Event>, belady: seq<Sid>, victims: seq<Sid>)
    requires slots >= 1 && |cache| <= slots && Timed(OnlyResumes(events))
    requires BeladySchedule(cache, slots, events, OnlyResumes(events), 0, belady)
    requires Legal(cache, slots, Requests(OnlyResumes(events), 0), victims)
    ensures Legal(cache, slots, Requests(OnlyResumes(events), 0), belady)
    ensures |belady| == |victims| == |OnlyResumes(events)|
    ensures ResumeMisses(cache, slots, OnlyResumes(events), 0, belady)
         <= ResumeMisses(cache, slots, OnlyResumes(events), 0, victims)
  {
    forall s, t
      ensures NextResume(events, s, t) == NextResume(OnlyResumes(events), s, t)
    {
      SameFuture(events, s, t);
    }
    hide NextResume;
    assert forall e :: e in OnlyResumes(events) ==> e.action == Resume;
    hide OnlyResumes;
    ScheduleIsBest(cache, slots, events, OnlyResumes(events), belady, victims);
  }

  // ---- Farthest next use is optimal ----

  ghost predicate Latest(cache: set<Sid>, rest: seq<Sid>, victim: Sid) {
    victim in cache && forall y :: y in cache ==> NextUse(rest, y) <= NextUse(rest, victim)
  }

  /** Every victim needed is a cached session whose next use is farthest away. */
  ghost predicate FarthestUse(cache: set<Sid>, slots: nat, requests: seq<Sid>, victims: seq<Sid>)
    decreases |requests|
  {
    |victims| == |requests| &&
    (requests != [] ==>
       && (Evicts(cache, slots, requests[0]) ==> Latest(cache, requests[1..], victims[0]))
       && FarthestUse(Serve(cache, slots, requests[0], victims[0]), slots, requests[1..], victims[1..]))
  }

  lemma {:induction false} FarthestUseIsOptimal(cache: set<Sid>, slots: nat, requests: seq<Sid>, best: seq<Sid>,
          victims: seq<Sid>)
    requires slots >= 1 && |cache| <= slots
    requires FarthestUse(cache, slots, requests, best) && Legal(cache, slots, requests, victims)
    ensures Legal(cache, slots, requests, best)
    ensures Misses(cache, slots, requests, best) <= Misses(cache, slots, requests, victims)
    decreases |requests|
  {
    hide Serve;
    hide Swapped;
    hide NextUse;
    if requests != [] {
      var r, b, v, rest, later := requests[0], best[0], victims[0], requests[1..], victims[1..];
      var mine, theirs := Serve(cache, slots, r, b), Serve(cache, slots, r, v);
      if Evicts(cache, slots, r) {
        EvictionsSwap(cache, slots, r, b, v);
      } else {
        NoEviction(cache, slots, r, b, v);
      }
      if mine != theirs {
        later := SoonerIsNoWorse(theirs, b, v, slots, rest, later);
      }
      FarthestUseIsOptimal(mine, slots, rest, best[1..], later);
    }
  }

  lemma NoEviction(cache: set<Sid>, slots: nat, r: Sid, b: Sid, v: Sid)
    requires |cache| <= slots && !Evicts(cache, slots, r)
    ensures Serve(cache, slots, r, b) == Serve(cache, slots, r, v) && |Serve(cache, slots, r, b)| <= slots
  {
  }

  /** Two evictions from the same cache leave caches that differ in the two victims. */
  lemma EvictionsSwap(cache: set<Sid>, slots: nat, r: Sid, b: Sid, v: Sid)
    requires |cache| <= slots && Evicts(cache, slots, r) && b in cache && v in cache
    ensures var mine, theirs := Serve(cache, slots, r, b), Serve(cache, slots, r, v);
      |mine| == |theirs| == slots
      && if b == v then mine == theirs else b in theirs && v !in theirs && mine == Swapped(theirs, b, v)
  {
  }

  // ---- Belady always has a schedule ----

  ghost function Listed(cache: set<Sid>): (r: seq<Candidate>)
    ensures forall s :: s in Sids(r) <==> s in cache
  {
    if cache == {} then []
    else
      var s :| s in cache;
      var rest := Listed(cache - {s});
      assert Sids([Candidate(s, DUMMY)] + rest) == [s] + Sids(rest);
      [Candidate(s, DUMMY)] + rest
  }

  const DUMMY := Entry("", 0.0, 0.0, 0, 0, Hot, 0, 1)

  lemma {:induction false} BeladyScheduleExists(cache: set<Sid>, slots: nat, oracle: seq<Event>, events: seq<Event>,
          from: nat)
    returns (victims: seq<Sid>)
    requires slots >= 1 && |cache| <= slots && from <= |events|
    ensures BeladySchedule(cache, slots, oracle, events, from, victims)
    decreases |events| - from
  {
    hide BeladyPicks;
    hide Serve;
    hide Evicts;
    victims := [];
    if from < |events| {
      var e := events[from];
      var v := PickIfNeeded(cache, slots, oracle, e);
      ServeFits(cache, slots, e.sid, v);
      var later := BeladyScheduleExists(Serve(cache, slots, e.sid, v), slots, oracle, events, from + 1);
      victims := [v] + later;
      assert victims[1..] == later;
    }
  }

  lemma PickIfNeeded(cache: set<Sid>, slots: nat, oracle: seq<Event>, e: Event) returns (v: Sid)
    requires slots >= 1
    ensures Evicts(cache, slots, e.sid) ==> v in cache && BeladyPicks(cache, oracle, e.timestamp, v)
  {
    v := if Evicts(cache, slots, e.sid) then PolicyPick(cache, oracle, e.timestamp) else "";
  }

  lemma ServeFits(cache: set<Sid>, slots: nat, s: Sid, v: Sid)
    requires slots >= 1 && |cache| <= slots && (Evicts(cache, slots, s) ==> v in cache)
    ensures |Serve(cache, slots, s, v)| <= slots
  {
  }

  ghost function PolicyPick(cache: set<Sid>, events: seq<Event>, now: real): (v: Sid)
    requires cache != {}
    ensures v in cache && BeladyPicks(cache, events, now, v)
  {
    var cands := Listed(cache);
    assert cands != [] by {
      var s :| s in cache;
      assert s in Sids(cands);
    }
    var v := Select(Belady(events), [], now, cands).value;
    assert v in Sids(cands);
    v
  }

  // ---- Neither condition on the trace can be dropped ----

  /** A legal schedule misses fewer resumes than one of Belady's. */
  ghost predicate Beaten(cache: set<Sid>, slots: nat, events: seq<Event>, belady: seq<Sid>, victims: seq<Sid>) {
    && |belady| == |victims| == |events|
    && BeladySchedule(cache, slots, events, events, 0, belady) && Legal(cache, slots, Requests(events, 0), victims)
    && ResumeMisses(cache, slots, events, 0, victims) < ResumeMisses(cache, slots, events, 0, belady)
  }

  lemma FarthestOfTwo(events: seq<Event>, now: real, c: Candidate, d: Candidate)
    ensures Farthest(events, now, [c, d])
        == if Later(NextResume(events, d.sid, now), NextResume(events, c.sid, now)) then d else c
  {
    hide NextResume;
    hide Later;
    assert [c, d][..1] == [c];
  }

  lemma OfferOfTwo(cands: seq<Candidate>, a: Sid, b: Sid)
    requires |cands| == 2 && cands[0].sid == a && cands[1].sid == b
    ensures forall s :: s in Sids(cands) <==> s in {a, b}
  {
  }

  lemma PickOffered(cache: set<Sid>, events: seq<Event>, now: real, cands: seq<Candidate>)
    requires cands != [] && forall s :: s in Sids(cands) <==> s in cache
    ensures BeladyPicks(cache, events, now, Farthest(events, now, cands).sid)
  {
    hide Farthest;
    hide Sids;
    assert Select(Belady(events), [], now, cands) == Some(Farthest(events, now, cands).sid);
  }

  /** Shown two sessions in this order, Belady prefers the first unless the second returns later. */
  lemma PicksOfTwo(events: seq<Event>, now: real, a: Sid, b: Sid)
    ensures BeladyPicks({a, b}, events, now,
              if Later(NextResume(events, b, now), NextResume(events, a, now)) then b else a)
  {
    hide *;
    var c, d := Candidate(a, DUMMY), Candidate(b, DUMMY);
    FarthestOfTwo(events, now, c, d);
    OfferOfTwo([c, d], a, b);
    PickOffered({a, b}, events, now, [c, d]);
  }

  lemma SwapOfTwo(a: Sid, b: Sid, s: Sid, v: Sid)
    requires a != b && s != a && s != b
    ensures Evicts({a, b}, 2, s)
    ensures Serve({a, b}, 2, s, a) == {b, s} && Serve({a, b}, 2, s, b) == {a, s}
    ensures Serve({a, b}, 2, a, v) == {a, b} && Serve({a, b}, 2, b, v) == {a, b}
  {
    assert |{a, b}| == 2;
    assert {a, b} - {a} + {s} == {b, s} && {a, b} - {b} + {s} == {a, s};
  }

  lemma ScheduleStep(cache: set<Sid>, slots: nat, events: seq<Event>, from: nat, victims: seq<Sid>)
    requires from < |events| && |victims| == |events| - from
    requires Evicts(cache, slots, events[from].sid) ==> BeladyPicks(cache, events, events[from].timestamp, victims[0])
    requires var next := Serve(cache, slots, events[from].sid, victims[0]);
      BeladySchedule(next, slots, events, events, from + 1, victims[1..])
    ensures BeladySchedule(cache, slots, events, events, from, victims)
    ensures ResumeMisses(cache, slots, events, from, victims)
         == (if events[from].action == Resume && events[from].sid !in cache then 1 else 0)
            + ResumeMisses(Serve(cache, slots, events[from].sid, victims[0]), slots, events, from + 1, victims[1..])
  {
  }

  lemma LegalStep(cache: set<Sid>, slots: nat, events: seq<Event>, from: nat, victims: seq<Sid>)
    requires from < |events| && |victims| == |events| - from
    requires Evicts(cache, slots, events[from].sid) ==> victims[0] in cache
    requires Legal(Serve(cache, slots, events[from].sid, victims[0]), slots, Requests(events, from + 1), victims[1..])
    ensures Legal(cache, slots, Requests(events, from), victims)
    ensures ResumeMisses(cache, slots, events, from, victims)
         == (if events[from].action == Resume && events[from].sid !in cache then 1 else 0)
            + ResumeMisses(Serve(cache, slots, events[from].sid, victims[0]), slots, events, from + 1, victims[1..])
  {
    assert Requests(events, from)[1..] == Requests(events, from + 1);
  }

  function ResumeAt(t: real, s: Sid): Event {
    Event(t, s, "", 0, Resume)
  }

  lemma StepsEnd(cache: set<Sid>, slots: nat, events: seq<Event>)
    ensures BeladySchedule(cache, slots, events, events, |events|, [])
    ensures Legal(cache, slots, Requests(events, |events|), [])
    ensures ResumeMisses(cache, slots, events, |events|, []) == 0
  {
  }

  /** Two events at one time: while the first is served the oracle does not count the second. */
  lemma TiesBeatBelady(a: Sid, b: Sid, z: Sid)
    requires a != b && a != z && b != z
    ensures var events := [ResumeAt(0.0, z), ResumeAt(0.0, a)];
      Beaten({a, b}, 2, events, [a, b], [b, b]) && StartsFirst({a, b}, events, 0) && !Timed(events)
  {
    var events := [ResumeAt(0.0, z), ResumeAt(0.0, a)];
    hide BeladySchedule;
    hide Legal;
    hide Requests;
    hide ResumeMisses;
    hide StartsFirst;
    hide Timed;
    TiedSchedule(events, a, b, z);
    TiedAlternative(events, a, b, z);
    TiedTrace(events, a, b, z);
  }

  lemma TiedTrace(events: seq<Event>, a: Sid, b: Sid, z: Sid)
    requires events == [ResumeAt(0.0, z), ResumeAt(0.0, a)]
    ensures StartsFirst({a, b}, events, 0) && !Timed(events)
  {
    assert events[0].timestamp == events[1].timestamp;
  }

  lemma TiedSchedule(events: seq<Event>, a: Sid, b: Sid, z: Sid)
    requires a != b && a != z && b != z && events == [ResumeAt(0.0, z), ResumeAt(0.0, a)]
    ensures BeladySchedule({a, b}, 2, events, events, 0, [a, b]) && ResumeMisses({a, b}, 2, events, 0, [a, b]) == 2
  {
    hide *;
    TiedAnswers(events, a, b, z);
    SwapOfTwo(a, b, z, a);
    SwapOfTwo(b, z, a, b);
    StepsEnd({z, a}, 2, events);
    assert [a, b][1..] == [b] && [b][1..] == [];
    ScheduleStep({b, z}, 2, events, 1, [b]);
    ScheduleStep({a, b}, 2, events, 0, [a, b]);
  }

  lemma TiedAnswers(events: seq<Event>, a: Sid, b: Sid, z: Sid)
    requires events == [ResumeAt(0.0, z), ResumeAt(0.0, a)]
    ensures events[0].sid == z && events[1].sid == a && events[0].action == events[1].action == Resume
    ensures events[0].timestamp == events[1].timestamp == 0.0
    ensures BeladyPicks({a, b}, events, 0.0, a) && BeladyPicks({b, z}, events, 0.0, b)
  {
    assert forall s :: NextResume(events[1..], s, 0.0) == None && NextResume(events, s, 0.0) == None;
    PicksOfTwo(events, 0.0, a, b);
    PicksOfTwo(events, 0.0, b, z);
    hide BeladyPicks;
  }

  lemma TiedAlternative(events: seq<Event>, a: Sid, b: Sid, z: Sid)
    requires a != b && a != z && b != z && events == [ResumeAt(0.0, z), ResumeAt(0.0, a)]
    ensures Legal({a, b}, 2, Requests(events, 0), [b, b]) && ResumeMisses({a, b}, 2, events, 0, [b, b]) == 1
  {
    hide *;
    TiedAnswers(events, a, b, z);
    SwapOfTwo(a, b, z, a);
    SwapOfTwo(a, z, b, b);
    StepsEnd({a, z}, 2, events);
    assert [b, b][1..] == [b] && [b][1..] == [];
    NoEvictionOfCached({a, z}, 2, a);
    LegalStep({a, z}, 2, events, 1, [b]);
    LegalStep({a, b}, 2, events, 0, [b, b]);
  }

  lemma NoEvictionOfCached(cache: set<Sid>, slots: nat, s: Sid)
    requires s in cache
    ensures !Evicts(cache, slots, s)
  {
  }

  /** A cached session that is started again: the oracle keeps it for a resume that its start would serve anyway. */
  lemma RestartsBeatBelady(x: Sid, y: Sid, z: Sid)
    requires x != y && x != z && y != z
    ensures var events := [ResumeAt(1.0, z), Event(2.0, y, "", 0, Start), ResumeAt(3.0, y), ResumeAt(4.0, x)];
      Beaten({x, y}, 2, events, [x, x, x, y], [y, z, z, z]) && Timed(events) && !StartsFirst({x, y}, events, 0)
  {
    var events := [ResumeAt(1.0, z), Event(2.0, y, "", 0, Start), ResumeAt(3.0, y), ResumeAt(4.0, x)];
    hide BeladySchedule;
    hide Legal;
    hide Requests;
    hide ResumeMisses;
    hide StartsFirst;
    hide Timed;
    RestartSchedule(events, x, y, z);
    RestartAlternative(events, x, y, z);
    RestartTrace(events, x, y, z);
  }

  lemma RestartTrace(events: seq<Event>, x: Sid, y: Sid, z: Sid)
    requires events == [ResumeAt(1.0, z), Event(2.0, y, "", 0, Start), ResumeAt(3.0, y), ResumeAt(4.0, x)]
    ensures Timed(events) && !StartsFirst({x, y}, events, 0)
  {
    assert events[1].sid == y && events[1].action == Start;
    assert !OnlyResumed(events, 0, y);
  }

  lemma RestartSchedule(events: seq<Event>, x: Sid, y: Sid, z: Sid)
    requires x != y && x != z && y != z
    requires events == [ResumeAt(1.0, z), Event(2.0, y, "", 0, Start), ResumeAt(3.0, y), ResumeAt(4.0, x)]
    ensures BeladySchedule({x, y}, 2, events, events, 0, [x, x, x, y])
    ensures ResumeMisses({x, y}, 2, events, 0, [x, x, x, y]) == 2
  {
    hide *;
    RestartAnswers(events, x, y, z);
    SwapOfTwo(x, y, z, x);
    SwapOfTwo(y, z, x, x);
    StepsEnd({z, x}, 2, events);
    NoEvictionOfCached({y, z}, 2, y);
    assert [x, x, x, y][1..] == [x, x, y] && [x, x, y][1..] == [x, y] && [x, y][1..] == [y] && [y][1..] == [];
    ScheduleStep({y, z}, 2, events, 3, [y]);
    ScheduleStep({y, z}, 2, events, 2, [x, y]);
    ScheduleStep({y, z}, 2, events, 1, [x, x, y]);
    ScheduleStep({x, y}, 2, events, 0, [x, x, x, y]);
  }

  lemma RestartAlternative(events: seq<Event>, x: Sid, y: Sid, z: Sid)
    requires x != y && x != z && y != z
    requires events == [ResumeAt(1.0, z), Event(2.0, y, "", 0, Start), ResumeAt(3.0, y), ResumeAt(4.0, x)]
    ensures Legal({x, y}, 2, Requests(events, 0), [y, z, z, z]) && ResumeMisses({x, y}, 2, events, 0, [y, z, z, z]) == 1
  {
    hide *;
    RestartAnswers(events, x, y, z);
    SwapOfTwo(x, y, z, z);
    SwapOfTwo(x, z, y, z);
    StepsEnd({x, y}, 2, events);
    NoEvictionOfCached({x, y}, 2, x);
    NoEvictionOfCached({x, y}, 2, y);
    assert [y, z, z, z][1..] == [z, z, z] && [z, z, z][1..] == [z, z] && [z, z][1..] == [z] && [z][1..] == [];
    LegalStep({x, y}, 2, events, 3, [z]);
    LegalStep({x, y}, 2, events, 2, [z, z]);
    LegalStep({x, z}, 2, events, 1, [z, z, z]);
    LegalStep({x, y}, 2, events, 0, [y, z, z, z]);
  }

  lemma RestartAnswers(events: seq<Event>, x: Sid, y: Sid, z: Sid)
    requires x != y && x != z && y != z
    requires events == [ResumeAt(1.0, z), Event(2.0, y, "", 0, Start), ResumeAt(3.0, y), ResumeAt(4.0, x)]
    ensures events[0].sid == z && events[1].sid == events[2].sid == y && events[3].sid == x
    ensures events[0].action == events[2].action == events[3].action == Resume && events[1].action == Start
    ensures BeladyPicks({x, y}, events, 1.0, x) && BeladyPicks({y, z}, events, 4.0, y)
    ensures events[0].timestamp == 1.0 && events[3].timestamp == 4.0
  {
    hide NextResume;
    hide BeladyPicks;
    RestartResumes(events, x, y, z);
    PicksOfTwo(events, 1.0, x, y);
    PicksOfTwo(events, 4.0, y, z);
  }

  lemma RestartResumes(events: seq<Event>, x: Sid, y: Sid, z: Sid)
    requires x != y && x != z && y != z
    requires events == [ResumeAt(1.0, z), Event(2.0, y, "", 0, Start), ResumeAt(3.0, y), ResumeAt(4.0, x)]
    ensures NextResume(events, x, 1.0) == Some(4.0) && NextResume(events, y, 1.0) == Some(3.0)
    ensures NextResume(events, y, 4.0) == None && NextResume(events, z, 4.0) == None
  {
    hide NextResume;
    assert events[2] in events && events[3] in events;
    assert ResumesAfter(events[3], x, 1.0) && ResumesAfter(events[2], y, 1.0);
  }
}
