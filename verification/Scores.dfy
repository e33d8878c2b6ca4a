/** Whom the scoring policies give up: the farthest, the least likely, the longest idle, the least worth its bytes. */
module Scores {
  import opened Types
  import opened Traces
  import opened CostModel
  import opened Policies
  import Reals

  // ---- The first of the lowest ----

  /** Of candidates with the same lowest score the one offered first is chosen. */
  lemma {:induction false} LowestIsFirst(p: Policy, calls: seq<Call>, now: real, field: Field, cands: seq<Candidate>,
          i: nat)
    requires i < |cands|
    requires forall j :: 0 <= j < i ==> Score(p, calls, now, field, cands[j]) > Score(p, calls, now, field, cands[i])
    requires forall j :: i < j < |cands| ==>
               Score(p, calls, now, field, cands[j]) >= Score(p, calls, now, field, cands[i])
    ensures LowestScore(p, calls, now, field, cands) == cands[i]
    decreases |cands|
  {
    hide Score;
    if |cands| > 1 {
      var init := cands[..|cands| - 1];
      if i < |init| {
        assert forall j :: 0 <= j < |init| ==> init[j] == cands[j];
        LowestIsFirst(p, calls, now, field, init, i);
      } else {
        var best := LowestScore(p, calls, now, field, init);
        var j :| 0 <= j < |init| && init[j] == best;
        assert init[j] == cands[j];
      }
    }
  }

  /** So it is of candidates resumed equally late. */
  lemma {:induction false} FarthestIsFirst(events: seq<Event>, now: real, cands: seq<Candidate>, i: nat)
    requires i < |cands|
    requires forall j :: 0 <= j < i ==>
               Later(NextResume(events, cands[i].sid, now), NextResume(events, cands[j].sid, now))
    requires forall j :: i < j < |cands| ==>
               !Later(NextResume(events, cands[j].sid, now), NextResume(events, cands[i].sid, now))
    ensures Farthest(events, now, cands) == cands[i]
    decreases |cands|
  {
    hide NextResume;
    if |cands| > 1 {
      var init := cands[..|cands| - 1];
      if i < |init| {
        assert forall j :: 0 <= j < |init| ==> init[j] == cands[j];
        FarthestIsFirst(events, now, init, i);
      } else {
        var best := Farthest(events, now, init);
        var j :| 0 <= j < |init| && init[j] == best;
        assert init[j] == cands[j];
      }
    }
  }

  lemma {:induction false} SameScoresSamePick(p: Policy, q: Policy, calls: seq<Call>, heard: seq<Call>, now: real,
          moment: real, field: Field, cands: seq<Candidate>)
    requires cands != []
    requires forall c :: c in cands ==> Score(p, calls, now, field, c) == Score(q, heard, moment, field, c)
    ensures LowestScore(p, calls, now, field, cands) == LowestScore(q, heard, moment, field, cands)
    decreases |cands|
  {
    hide Score;
    if |cands| > 1 {
      SameScoresSamePick(p, q, calls, heard, now, moment, field, cands[..|cands| - 1]);
    }
  }

  // ---- Oracles have no epoch ----

  function Shifted(events: seq<Event>, shift: real): seq<Event> {
    if events == [] then []
    else [events[0].(timestamp := events[0].timestamp + shift)] + Shifted(events[1..], shift)
  }

  function Plus(t: Option<real>, shift: real): Option<real> {
    if t.Some? then Some(t.value + shift) else None
  }

  lemma {:induction false} NextResumeShifts(events: seq<Event>, sid: Sid, t: real, shift: real)
    ensures NextResume(Shifted(events, shift), sid, t + shift) == Plus(NextResume(events, sid, t), shift)
    decreases |events|
  {
    if events != [] {
      var shifted := Shifted(events, shift);
      var later, rest := NextResume(Shifted(events[1..], shift), sid, t + shift), NextResume(events[1..], sid, t);
      assert shifted[1..] == Shifted(events[1..], shift);
      NextResumeShifts(events[1..], sid, t, shift);
      assert Later(later, Some(shifted[0].timestamp)) == Later(rest, Some(events[0].timestamp));
    }
  }

  lemma SpaceTimeShifts(events: seq<Event>, prices: CostModel, now: real, shift: real, c: Candidate)
    ensures SpaceTimeScore(Shifted(events, shift), prices, now + shift, c) == SpaceTimeScore(events, prices, now, c)
  {
    hide NextResume;
    hide RecomputeTime;
    hide ByteSeconds;
    hide Shifted;
    NextResumeShifts(events, c.sid, now, shift);
    var t := NextResume(events, c.sid, now);
    if t.Some? {
      assert t.value + shift - (now + shift) == t.value - now;
    }
  }

  lemma ClassifierShifts(events: seq<Event>, window: real, now: real, shift: real, s: Sid)
    ensures ClassifierScore(Shifted(events, shift), window, now + shift, s) == ClassifierScore(events, window, now, s)
  {
    hide NextResume;
    hide TieBreak;
    hide Shifted;
    NextResumeShifts(events, s, now, shift);
    var t := NextResume(events, s, now);
    if t.Some? {
      assert t.value + shift - (now + shift) == t.value - now;
    }
  }

  lemma {:induction false} FarthestShifts(events: seq<Event>, now: real, shift: real, cands: seq<Candidate>)
    requires cands != []
    ensures Farthest(Shifted(events, shift), now + shift, cands) == Farthest(events, now, cands)
    decreases |cands|
  {
    hide NextResume;
    if |cands| > 1 {
      var init, last := cands[..|cands| - 1], cands[|cands| - 1];
      FarthestShifts(events, now, shift, init);
      NextResumeShifts(events, last.sid, now, shift);
      NextResumeShifts(events, Farthest(events, now, init).sid, now, shift);
    }
  }

  lemma ClassifierScoreShifts(events: seq<Event>, window: real, calls: seq<Call>, heard: seq<Call>, now: real,
          shift: real, field: Field, c: Candidate)
    ensures Score(OracleClassifier(Shifted(events, shift), window), heard, now + shift, field, c)
         == Score(OracleClassifier(events, window), calls, now, field, c)
  {
    hide ClassifierScore;
    hide Shifted;
    ClassifierShifts(events, window, now, shift, c.sid);
  }

  lemma SpaceTimeScoreShifts(events: seq<Event>, prices: CostModel, calls: seq<Call>, heard: seq<Call>, now: real,
          shift: real, field: Field, c: Candidate)
    ensures Score(OracleSpaceTime(Shifted(events, shift), prices), heard, now + shift, field, c)
         == Score(OracleSpaceTime(events, prices), calls, now, field, c)
  {
    hide SpaceTimeScore;
    hide Shifted;
    SpaceTimeShifts(events, prices, now, shift, c);
  }

  lemma LowestSelected(p: Policy, calls: seq<Call>, now: real, cands: seq<Candidate>)
    requires !p.Lru? && !p.Belady? && !p.Custom? && cands != []
    ensures Select(p, calls, now, cands) == Some(LowestScore(p, calls, now, FieldOf(cands), cands).sid)
  {
    hide LowestScore;
    hide FieldOf;
  }

  lemma ClassifierHasNoEpoch(events: seq<Event>, window: real, calls: seq<Call>, heard: seq<Call>, now: real,
          shift: real, cands: seq<Candidate>)
    requires cands != []
    ensures Select(OracleClassifier(Shifted(events, shift), window), heard, now + shift, cands)
         == Select(OracleClassifier(events, window), calls, now, cands)
  {
    hide *;
    var p, q := OracleClassifier(Shifted(events, shift), window), OracleClassifier(events, window);
    var field := FieldOf(cands);
    LowestSelected(p, heard, now + shift, cands);
    LowestSelected(q, calls, now, cands);
    forall c | c in cands
      ensures Score(p, heard, now + shift, field, c) == Score(q, calls, now, field, c)
    {
      ClassifierScoreShifts(events, window, calls, heard, now, shift, field, c);
    }
    SameScoresSamePick(p, q, heard, calls, now + shift, now, field, cands);
  }

  lemma SpaceTimeHasNoEpoch(events: seq<Event>, prices: CostModel, calls: seq<Call>, heard: seq<Call>, now: real,
          shift: real, cands: seq<Candidate>)
    requires cands != []
    ensures Select(OracleSpaceTime(Shifted(events, shift), prices), heard, now + shift, cands)
         == Select(OracleSpaceTime(events, prices), calls, now, cands)
  {
    hide *;
    var p, q, field := OracleSpaceTime(Shifted(events, shift), prices), OracleSpaceTime(events, prices), FieldOf(cands);
    LowestSelected(p, heard, now + shift, cands);
    LowestSelected(q, calls, now, cands);
    forall c | c in cands
      ensures Score(p, heard, now + shift, field, c) == Score(q, calls, now, field, c)
    {
      SpaceTimeScoreShifts(events, prices, calls, heard, now, shift, field, c);
    }
    SameScoresSamePick(p, q, heard, calls, now + shift, now, field, cands);
  }

  /** Moving the trace and the clock together, whatever the policy has been told, changes no oracle's choice. */
  lemma OraclesHaveNoEpoch(events: seq<Event>, prices: CostModel, window: real, calls: seq<Call>, heard: seq<Call>,
          now: real, shift: real, cands: seq<Candidate>)
    requires cands != []
    ensures Select(Belady(Shifted(events, shift)), heard, now + shift, cands)
         == Select(Belady(events), calls, now, cands)
    ensures Select(OracleClassifier(Shifted(events, shift), window), heard, now + shift, cands)
         == Select(OracleClassifier(events, window), calls, now, cands)
    ensures Select(OracleSpaceTime(Shifted(events, shift), prices), heard, now + shift, cands)
         == Select(OracleSpaceTime(events, prices), calls, now, cands)
  {
    FarthestShifts(events, now, shift, cands);
    ClassifierHasNoEpoch(events, window, calls, heard, now, shift, cands);
    SpaceTimeHasNoEpoch(events, prices, calls, heard, now, shift, cands);
    hide LowestScore;
    hide Farthest;
    hide Shifted;
  }

  /** The classifier's score reaches one exactly for the sessions resumed within the window. */
  lemma ClassifierClassifies(events: seq<Event>, window: real, now: real, s: Sid)
    ensures var t := NextResume(events, s, now);
      ClassifierScore(events, window, now, s) >= 1.0 <==> t.Some? && t.value <= now + window
    ensures 0.0 <= ClassifierScore(events, window, now, s) < 1.000001
  {
    hide NextResume;
    var t := NextResume(events, s, now);
    if t.Some? {
      TieBreakIsTiny(t.value - now);
    }
  }

  lemma TieBreakIsTiny(gap: real)
    requires gap > 0.0
    ensures 0.0 < TieBreak(gap) < 0.000001
  {
    var d := 1.0 + gap / 3600.0;
    assert d > 1.0;
    assert 0.000001 / d * d == 0.000001;
  }

  // ---- Perfect space-time ----

  /** Seconds until a time, but at least one. */
  function Wait(t: real, now: real): real {
    if t - now >= 1.0 then t - now else 1.0
  }

  function Size(e: Entry): real {
    if e.sizeBytes >= 1 then e.sizeBytes as real else 1.0
  }

  lemma SpaceTimeIs(events: seq<Event>, prices: CostModel, now: real, c: Candidate)
    requires prices.Positive()
    ensures var t := NextResume(events, c.sid, now);
      var score := SpaceTimeScore(events, prices, now, c);
      && score >= 0.0
      && (score == 0.0 <==> t == None || c.entry.tokenCount == 0)
      && (t.Some? ==>
            && Size(c.entry) * Wait(t.value, now) > 0.0
            && score == RecomputeTime(prices, c.entry.tokenCount) / (Size(c.entry) * Wait(t.value, now)))
  {
    hide NextResume;
    hide RecomputeTime;
    var n, t := c.entry.tokenCount, NextResume(events, c.sid, now);
    RecomputeSign(prices, n);
    if t.Some? {
      var d := Size(c.entry) * Wait(t.value, now);
      assert d == ByteSeconds(c.entry.sizeBytes, t.value - now);
      Reals.Quotient(RecomputeTime(prices, n), d);
    }
  }

  lemma RecomputeSign(prices: CostModel, n: nat)
    requires prices.Positive()
    ensures RecomputeTime(prices, n) >= 0.0 && (RecomputeTime(prices, n) == 0.0 <==> n == 0)
  {
    RecomputeAt(prices, n);
    CoefficientSigns(prices, Hot);
    hide RecomputeTime;
    hide PerToken;
    hide PerPair;
    if n > 0 {
      Reals.Positive(PerToken(prices), n as real);
      Reals.Positive(PerPair(prices), n as real);
      Reals.Positive(PerPair(prices) * n as real, n as real);
    }
  }

  /** Scores rank by recompute time against bytes times the wait until the next resume, at any clock. */
  lemma SpaceTimeRanks(events: seq<Event>, prices: CostModel, now: real, c: Candidate, d: Candidate)
    requires prices.Positive() && NextResume(events, c.sid, now).Some? && NextResume(events, d.sid, now).Some?
    ensures var x := Size(c.entry) * Wait(NextResume(events, c.sid, now).value, now);
      var y := Size(d.entry) * Wait(NextResume(events, d.sid, now).value, now);
      SpaceTimeScore(events, prices, now, c) < SpaceTimeScore(events, prices, now, d)
      <==> RecomputeTime(prices, c.entry.tokenCount) * y < RecomputeTime(prices, d.entry.tokenCount) * x
  {
    hide NextResume;
    hide RecomputeTime;
    hide SpaceTimeScore;
    hide Wait;
    hide Size;
    SpaceTimeIs(events, prices, now, c);
    SpaceTimeIs(events, prices, now, d);
    var x := Size(c.entry) * Wait(NextResume(events, c.sid, now).value, now);
    var y := Size(d.entry) * Wait(NextResume(events, d.sid, now).value, now);
    Reals.CrossOrder(RecomputeTime(prices, c.entry.tokenCount), x, RecomputeTime(prices, d.entry.tokenCount), y);
  }

  /** Among sessions of one length and size that all return, none waits longer than the victim. */
  lemma SpaceTimeEvictsFarthest(events: seq<Event>, prices: CostModel, calls: seq<Call>, now: real,
          cands: seq<Candidate>, tokens: nat, bytes: nat)
    requires prices.Positive() && cands != [] && tokens >= 1
    requires forall c :: c in cands ==> c.entry.tokenCount == tokens && c.entry.sizeBytes == bytes
    requires forall c :: c in cands ==> NextResume(events, c.sid, now).Some?
    ensures var victim := LowestScore(OracleSpaceTime(events, prices), calls, now, FieldOf(cands), cands);
      && Select(OracleSpaceTime(events, prices), calls, now, cands) == Some(victim.sid)
      && victim in cands
      && forall c :: c in cands ==>
           Wait(NextResume(events, c.sid, now).value, now) <= Wait(NextResume(events, victim.sid, now).value, now)
  {
    hide NextResume;
    hide RecomputeTime;
    hide SpaceTimeScore;
    hide FieldOf;
    hide Wait;
    hide Size;
    var p := OracleSpaceTime(events, prices);
    var victim := LowestScore(p, calls, now, FieldOf(cands), cands);
    forall c | c in cands
      ensures Wait(NextResume(events, c.sid, now).value, now) <= Wait(NextResume(events, victim.sid, now).value, now)
    {
      var x, y := Wait(NextResume(events, c.sid, now).value, now), Wait(NextResume(events, victim.sid, now).value, now);
      SpaceTimeRanks(events, prices, now, c, victim);
      RecomputeSign(prices, tokens);
      SameSize(c.entry, victim.entry);
      assert Score(p, calls, now, FieldOf(cands), victim) <= Score(p, calls, now, FieldOf(cands), c);
      Reals.TimesOrder(Size(c.entry), y, x);
      Reals.TimesOrder(RecomputeTime(prices, tokens), Size(c.entry) * y, Size(c.entry) * x);
    }
  }

  lemma SameSize(a: Entry, b: Entry)
    requires a.sizeBytes == b.sizeBytes
    ensures Size(a) == Size(b) > 0.0
  {
  }

  /** While some candidate never returns, the victim is one that does not, or one that costs nothing to recompute. */
  lemma SpaceTimeEvictsTheDead(events: seq<Event>, prices: CostModel, calls: seq<Call>, now: real,
          cands: seq<Candidate>, dead: Candidate)
    requires prices.Positive() && dead in cands && NextResume(events, dead.sid, now) == None
    ensures var victim := LowestScore(OracleSpaceTime(events, prices), calls, now, FieldOf(cands), cands);
      && Select(OracleSpaceTime(events, prices), calls, now, cands) == Some(victim.sid)
      && victim in cands && (NextResume(events, victim.sid, now) == None || victim.entry.tokenCount == 0)
  {
    hide NextResume;
    hide SpaceTimeScore;
    hide FieldOf;
    var p := OracleSpaceTime(events, prices);
    var victim := LowestScore(p, calls, now, FieldOf(cands), cands);
    SpaceTimeIs(events, prices, now, dead);
    SpaceTimeIs(events, prices, now, victim);
    assert Score(p, calls, now, FieldOf(cands), victim) <= Score(p, calls, now, FieldOf(cands), dead);
  }

  // ---- Predicted chances ----

  /** The predicted policy gives up one of the least likely. */
  lemma PredictedEvictsLeastLikely(predict: (seq<Call>, real, Candidate) -> real, calls: seq<Call>, now: real,
          cands: seq<Candidate>)
    requires cands != []
    ensures exists victim :: victim in cands
              && Select(Predicted(predict), calls, now, cands) == Some(victim.sid)
              && forall c :: c in cands ==> predict(calls, now, victim) <= predict(calls, now, c)
  {
    var p, field := Predicted(predict), FieldOf(cands);
    var victim := LowestScore(p, calls, now, field, cands);
    forall c | c in cands
      ensures predict(calls, now, victim) <= predict(calls, now, c)
    {
      assert Score(p, calls, now, field, victim) <= Score(p, calls, now, field, c);
    }
  }

  lemma RecomputeGrows(prices: CostModel, m: nat, n: nat)
    requires prices.Positive() && m <= n
    ensures 0.0 <= RecomputeTime(prices, m) <= RecomputeTime(prices, n)
  {
    hide *;
    RecomputeAt(prices, m);
    RecomputeAt(prices, n);
    RecomputeSign(prices, m);
    CoefficientSigns(prices, Hot);
    var w, q, x, y := PerToken(prices), PerPair(prices), m as real, n as real;
    Reals.TimesUp(w, x, y);
    Reals.TimesUp(q, 0.0, x);
    Reals.TimesUp(q, x, y);
    Reals.ProductsUp(q * x, q * y, x, y);
  }

  lemma SizesFall(a: Entry, b: Entry)
    requires b.sizeBytes <= a.sizeBytes
    ensures 0.0 < AtLeastOne(b.sizeBytes as real) <= AtLeastOne(a.sizeBytes as real)
  {
  }

  lemma DensityIs(prices: CostModel, chance: real, gap: real, e: Entry, x: real, m: real)
    requires gap >= 1.0 && x == RecomputeTime(prices, e.tokenCount) && m == AtLeastOne(e.sizeBytes as real)
    ensures m > 0.0 && Density(prices, chance, e) == chance * x / m
    ensures m * gap > 0.0 && GapDensity(prices, chance, gap, e) == chance * x / (m * gap)
  {
    hide RecomputeTime;
    Reals.Positive(m, gap);
  }

  /** Less likely to return, cheaper to recompute, larger and slower never scores higher. */
  lemma WorthRises(prices: CostModel, low: real, high: real, slow: real, quick: real, a: Entry, b: Entry)
    requires prices.Positive() && 0.0 <= low <= high && 1.0 <= quick <= slow
    requires a.tokenCount <= b.tokenCount && b.sizeBytes <= a.sizeBytes
    ensures Density(prices, low, a) <= Density(prices, high, b)
    ensures GapDensity(prices, low, slow, a) <= GapDensity(prices, high, quick, b)
  {
    hide *;
    RecomputeGrows(prices, a.tokenCount, b.tokenCount);
    SizesFall(a, b);
    var x, y := RecomputeTime(prices, a.tokenCount), RecomputeTime(prices, b.tokenCount);
    var m, n := AtLeastOne(a.sizeBytes as real), AtLeastOne(b.sizeBytes as real);
    DensityIs(prices, low, slow, a, x, m);
    DensityIs(prices, high, quick, b, y, n);
    Reals.WorthUp(low, high, x, y, m, n);
    Reals.ProductsUp(n, m, quick, slow);
    Reals.WorthUp(low, high, x, y, m * slow, n * quick);
  }

  /** Everything else equal, the strictly less likely scores strictly less. */
  lemma LikelierIsWorthMore(prices: CostModel, low: real, high: real, gap: real, e: Entry)
    requires prices.Positive() && e.tokenCount >= 1 && 0.0 < low < high && gap >= 1.0
    ensures Density(prices, low, e) < Density(prices, high, e)
    ensures GapDensity(prices, low, gap, e) < GapDensity(prices, high, gap, e)
  {
    hide *;
    RecomputeSign(prices, e.tokenCount);
    var r, m := RecomputeTime(prices, e.tokenCount), AtLeastOne(e.sizeBytes as real);
    DensityIs(prices, low, gap, e, r, m);
    DensityIs(prices, high, gap, e, r, m);
    Reals.Positive(low, r);
    Reals.TimesOrder(r, low, high);
    Reals.FractionsStrict(low * r, high * r, m, m);
    Reals.FractionsStrict(low * r, high * r, m * gap, m * gap);
  }

  /** So does the strictly larger. */
  lemma SmallerIsWorthMore(prices: CostModel, chance: real, gap: real, a: Entry, b: Entry)
    requires prices.Positive() && chance > 0.0 && gap >= 1.0
    requires a.tokenCount == b.tokenCount >= 1 && 1 <= b.sizeBytes < a.sizeBytes
    ensures Density(prices, chance, a) < Density(prices, chance, b)
    ensures GapDensity(prices, chance, gap, a) < GapDensity(prices, chance, gap, b)
  {
    hide *;
    RecomputeSign(prices, a.tokenCount);
    var r := RecomputeTime(prices, a.tokenCount);
    var m, n := AtLeastOne(a.sizeBytes as real), AtLeastOne(b.sizeBytes as real);
    SizeIs(a);
    SizeIs(b);
    DensityIs(prices, chance, gap, a, r, m);
    DensityIs(prices, chance, gap, b, r, n);
    Reals.Positive(chance, r);
    Reals.FractionsStrict(chance * r, chance * r, m, n);
    Reals.TimesOrder(gap, n, m);
    Reals.FractionsStrict(chance * r, chance * r, m * gap, n * gap);
  }

  lemma SizeIs(e: Entry)
    requires e.sizeBytes >= 1
    ensures AtLeastOne(e.sizeBytes as real) == e.sizeBytes as real
  {
  }

  /** And so does the one expected to wait strictly longer. */
  lemma SoonerIsWorthMore(prices: CostModel, chance: real, quick: real, slow: real, e: Entry)
    requires prices.Positive() && e.tokenCount >= 1 && chance > 0.0 && 1.0 <= quick < slow
    ensures GapDensity(prices, chance, slow, e) < GapDensity(prices, chance, quick, e)
  {
    hide *;
    RecomputeSign(prices, e.tokenCount);
    var r, m := RecomputeTime(prices, e.tokenCount), AtLeastOne(e.sizeBytes as real);
    DensityIs(prices, chance, slow, e, r, m);
    DensityIs(prices, chance, quick, e, r, m);
    Reals.Positive(chance, r);
    Reals.TimesOrder(m, quick, slow);
    Reals.FractionsStrict(chance * r, chance * r, m * slow, m * quick);
  }

  // ---- Estimated gaps ----

  /** The positive gaps that a session's accesses have shown, in order. */
  function Gaps(calls: seq<Call>, s: Sid): seq<real> {
    if calls == [] then []
    else
      var last, init := calls[|calls| - 1], calls[..|calls| - 1];
      var seen := LastSeen(init, s);
      if last.Accessed? && last.sid == s && seen.Some? && last.at > seen.value then
        Gaps(init, s) + [last.at - seen.value]
      else Gaps(init, s)
  }

  /** The average is known once there is a gap. */
  lemma {:induction false} GapsKnown(alpha: real, calls: seq<Call>, s: Sid)
    ensures GapEma(alpha, calls, s) == None <==> Gaps(calls, s) == []
    decreases |calls|
  {
    hide LastSeen;
    if calls != [] {
      GapsKnown(alpha, calls[..|calls| - 1], s);
    }
  }

  ghost predicate AllBetween(gaps: seq<real>, least: real, most: real) {
    forall i :: 0 <= i < |gaps| ==> least <= gaps[i] <= most
  }

  lemma MoreBetween(gaps: seq<real>, gap: real, least: real, most: real)
    requires AllBetween(gaps + [gap], least, most)
    ensures AllBetween(gaps, least, most) && least <= gap <= most
  {
    assert forall i :: 0 <= i < |gaps| ==> (gaps + [gap])[i] == gaps[i];
    assert (gaps + [gap])[|gaps|] == gap;
  }

  lemma GapsUnfold(calls: seq<Call>, s: Sid)
    ensures Gaps(calls, s)
         == if calls == [] then []
            else
              var last, init := calls[|calls| - 1], calls[..|calls| - 1];
              var seen := LastSeen(init, s);
              if last.Accessed? && last.sid == s && seen.Some? && last.at > seen.value then
                Gaps(init, s) + [last.at - seen.value]
              else Gaps(init, s)
  {
  }

  /** The average lies between the least gap and the greatest; so a regular rhythm is its own average. */
  lemma {:induction false} RhythmIsAverage(alpha: real, calls: seq<Call>, s: Sid, least: real, most: real)
    requires 0.0 <= alpha <= 1.0 && AllBetween(Gaps(calls, s), least, most)
    ensures GapEma(alpha, calls, s).Some? ==> least <= GapEma(alpha, calls, s).value <= most
    decreases |calls|
  {
    hide AllBetween;
    hide LastSeen;
    hide Gaps;
    GapsUnfold(calls, s);
    if calls != [] {
      var last, init := calls[|calls| - 1], calls[..|calls| - 1];
      var ema, seen := GapEma(alpha, init, s), LastSeen(init, s);
      if last.Accessed? && last.sid == s && seen.Some? && last.at > seen.value {
        var gap := last.at - seen.value;
        MoreBetween(Gaps(init, s), gap, least, most);
        RhythmIsAverage(alpha, init, s, least, most);
        if ema.Some? {
          Reals.Between(alpha, gap, ema.value, least, most);
        }
      } else {
        RhythmIsAverage(alpha, init, s, least, most);
      }
    }
  }

  /** The latest gap counts with weight alpha, all that went before with the rest. */
  lemma AverageMoves(alpha: real, calls: seq<Call>, s: Sid, e: Entry, at: real)
    requires LastSeen(calls, s).Some? && at > LastSeen(calls, s).value && GapEma(alpha, calls, s).Some?
    ensures var ema, gap := GapEma(alpha, calls, s).value, at - LastSeen(calls, s).value;
      var next := GapEma(alpha, calls + [Accessed(s, e, at)], s);
      next.Some? && next.value - ema == alpha * (gap - ema)
  {
    var ema, gap := GapEma(alpha, calls, s).value, at - LastSeen(calls, s).value;
    assert (calls + [Accessed(s, e, at)])[..|calls|] == calls;
    assert alpha * gap + (1.0 - alpha) * ema - ema == alpha * (gap - ema);
  }

  /** The first gap is the one since the session was last seen, inserts included, and removals forget nothing. */
  lemma FirstGapCounts(alpha: real, calls: seq<Call>, s: Sid, e: Entry, f: Entry, before: real, now: real)
    requires GapEma(alpha, calls, s) == None && before < now
    ensures GapEma(alpha, calls + [Inserted(s, e, before), Removed(s), Accessed(s, f, now)], s) == Some(now - before)
  {
    var seen := calls + [Inserted(s, e, before)];
    var gone := seen + [Removed(s)];
    var all := gone + [Accessed(s, f, now)];
    assert seen[..|seen| - 1] == calls && gone[..|gone| - 1] == seen && all[..|all| - 1] == gone;
    assert all == calls + [Inserted(s, e, before), Removed(s), Accessed(s, f, now)];
    assert LastSeen(seen, s) == Some(before) && LastSeen(gone, s) == LastSeen(seen, s);
    assert GapEma(alpha, seen, s) == None;
    assert GapEma(alpha, gone, s) == None;
    assert GapEma(alpha, all, s) == Some(now - before);
  }

  /** An expected wait is the rhythm, unless the session has already been idle for longer, and never under a second. */
  lemma ExpectedGapIs(priorGap: real, alpha: real, calls: seq<Call>, now: real, c: Candidate)
    ensures var gap, ema := ExpectedGap(priorGap, alpha, calls, now, c), GapEma(alpha, calls, c.sid);
      var rhythm := if ema.Some? then ema.value else priorGap;
      && gap >= rhythm && gap >= now - c.entry.lastAccessed && gap >= 1.0
      && (gap == rhythm || gap == now - c.entry.lastAccessed || gap == 1.0)
  {
  }

  /** Among sessions of one length, one size and one chance, none is expected to wait longer than the victim. */
  lemma EstimatedEvictsSlowest(p: Policy, calls: seq<Call>, now: real, cands: seq<Candidate>, tokens: nat, bytes: nat,
          chance: real)
    requires p.SpaceTime? && p.prices.Positive() && cands != [] && tokens >= 1 && chance > 0.0
    requires forall c :: c in cands ==> c.entry.tokenCount == tokens && c.entry.sizeBytes == bytes
    requires forall c :: c in cands ==> p.predict(calls, now, c) == chance
    ensures var victim := LowestScore(p, calls, now, FieldOf(cands), cands);
      && Select(p, calls, now, cands) == Some(victim.sid) && victim in cands
      && forall c :: c in cands ==>
           ExpectedGap(p.priorGap, p.emaAlpha, calls, now, c) <= ExpectedGap(p.priorGap, p.emaAlpha, calls, now, victim)
  {
    hide ExpectedGap;
    hide GapDensity;
    hide FieldOf;
    var victim := LowestScore(p, calls, now, FieldOf(cands), cands);
    forall c | c in cands
      ensures ExpectedGap(p.priorGap, p.emaAlpha, calls, now, c)
           <= ExpectedGap(p.priorGap, p.emaAlpha, calls, now, victim)
    {
      var x := ExpectedGap(p.priorGap, p.emaAlpha, calls, now, c);
      var y := ExpectedGap(p.priorGap, p.emaAlpha, calls, now, victim);
      assert Score(p, calls, now, FieldOf(cands), victim) <= Score(p, calls, now, FieldOf(cands), c);
      if x > y {
        SoonerIsWorthMore(p.prices, chance, y, x, c.entry);
        SameWorth(p.prices, chance, y, c.entry, victim.entry);
      }
    }
  }

  lemma SameWorth(prices: CostModel, chance: real, gap: real, a: Entry, b: Entry)
    requires gap >= 1.0 && a.tokenCount == b.tokenCount && a.sizeBytes == b.sizeBytes
    ensures GapDensity(prices, chance, gap, a) == GapDensity(prices, chance, gap, b)
  {
    hide RecomputeTime;
  }

  // ---- The heuristic ----

  /** The normalising counts are those of candidates. */
  lemma {:induction false} FieldIsAttained(cands: seq<Candidate>)
    requires cands != []
    ensures exists c :: c in cands && c.entry.accessCount == FieldOf(cands).accesses
    ensures exists c :: c in cands && c.entry.tokenCount == FieldOf(cands).tokens
    decreases |cands|
  {
    var rest, e := cands[1..], cands[0].entry;
    assert cands[0] in cands;
    if rest != [] {
      FieldIsAttained(rest);
      var c :| c in rest && c.entry.accessCount == FieldOf(rest).accesses;
      var d :| d in rest && d.entry.tokenCount == FieldOf(rest).tokens;
      assert c in cands && d in cands;
      assert FieldOf(cands).accesses == e.accessCount || FieldOf(cands).accesses == c.entry.accessCount;
      assert FieldOf(cands).tokens == e.tokenCount || FieldOf(cands).tokens == d.entry.tokenCount;
    } else {
      assert FieldOf(cands) == Field(e.accessCount, e.tokenCount);
    }
  }

  /** Weights that count for something, and a recency that falls with idleness. */
  ghost predicate Sensible(p: Policy) {
    && p.Heuristic? && p.alpha > 0.0 && p.beta > 0.0 && p.gamma > 0.0
    && forall x: real, y: real :: x < y ==> p.decay(x) > p.decay(y)
  }

  /** No more used, no longer, and idle at least as long. */
  predicate Behind(a: Entry, b: Entry) {
    a.accessCount <= b.accessCount && a.lastAccessed <= b.lastAccessed && a.tokenCount <= b.tokenCount
  }

  /** What is behind in every respect scores no higher, and lower when it is strictly behind in any. */
  lemma HeuristicFalls(p: Policy, now: real, field: Field, a: Entry, b: Entry)
    requires Sensible(p) && Behind(a, b)
    ensures HeuristicScore(p, now, field, a) <= HeuristicScore(p, now, field, b)
    ensures a.accessCount < b.accessCount || a.lastAccessed < b.lastAccessed || a.tokenCount < b.tokenCount ==>
      HeuristicScore(p, now, field, a) < HeuristicScore(p, now, field, b)
  {
    hide AtLeastOne;
    var m, n := AtLeastOne(field.accesses as real), AtLeastOne(field.tokens as real);
    NormIsPositive(field.accesses);
    NormIsPositive(field.tokens);
    Term(p.alpha, a.accessCount, b.accessCount, m);
    Term(p.gamma, a.tokenCount, b.tokenCount, n);
    var x, y := p.decay(now - a.lastAccessed), p.decay(now - b.lastAccessed);
    assert a.lastAccessed < b.lastAccessed ==> x < y;
    Reals.TimesOrder(p.beta, x, y);
    var u, v := p.alpha * (a.accessCount as real / m), p.alpha * (b.accessCount as real / m);
    var w, z := p.gamma * (a.tokenCount as real / n), p.gamma * (b.tokenCount as real / n);
    assert HeuristicScore(p, now, field, a) == u + p.beta * x + w;
    assert HeuristicScore(p, now, field, b) == v + p.beta * y + z;
  }

  lemma NormIsPositive(n: nat)
    ensures AtLeastOne(n as real) >= 1.0
  {
  }

  lemma Term(weight: real, m: nat, n: nat, d: real)
    requires weight > 0.0 && d >= 1.0 && m <= n
    ensures weight * (m as real / d) <= weight * (n as real / d)
    ensures m < n ==> weight * (m as real / d) < weight * (n as real / d)
  {
    var x, y := m as real / d, n as real / d;
    Reals.CrossOrder(m as real, d, n as real, d);
    Reals.TimesOrder(d, m as real, n as real);
    Reals.TimesOrder(weight, x, y);
  }

  /** Each weight is for its own share: of the most accesses, of recency, and of the most tokens. */
  lemma SharesOfScore(p: Policy, now: real, field: Field, e: Entry)
    requires p.Heuristic? && 0 < e.accessCount == field.accesses && 0 < e.tokenCount == field.tokens
    ensures HeuristicScore(p, now, field, e) == p.alpha + p.beta * p.decay(now - e.lastAccessed) + p.gamma
    ensures HeuristicScore(p, now, field, e.(accessCount := 0)) == p.beta * p.decay(now - e.lastAccessed) + p.gamma
    ensures HeuristicScore(p, now, field, e.(tokenCount := 0)) == p.alpha + p.beta * p.decay(now - e.lastAccessed)
  {
    assert e.accessCount as real / AtLeastOne(field.accesses as real) == 1.0;
    assert e.tokenCount as real / AtLeastOne(field.tokens as real) == 1.0;
  }

  /** So nobody offered is behind the victim. */
  lemma HeuristicEvictsTheLast(p: Policy, calls: seq<Call>, now: real, cands: seq<Candidate>, c: Candidate)
    requires Sensible(p) && c in cands
    ensures var victim := LowestScore(p, calls, now, FieldOf(cands), cands);
      && Select(p, calls, now, cands) == Some(victim.sid) && victim in cands
      && (Behind(c.entry, victim.entry) ==>
            c.entry.accessCount == victim.entry.accessCount && c.entry.lastAccessed == victim.entry.lastAccessed
            && c.entry.tokenCount == victim.entry.tokenCount)
  {
    hide HeuristicScore;
    hide FieldOf;
    hide Sensible;
    var field := FieldOf(cands);
    var victim := LowestScore(p, calls, now, field, cands);
    SensibleIsHeuristic(p);
    assert Score(p, calls, now, field, victim) <= Score(p, calls, now, field, c);
    if Behind(c.entry, victim.entry) {
      HeuristicFalls(p, now, field, c.entry, victim.entry);
    }
  }

  lemma SensibleIsHeuristic(p: Policy)
    requires Sensible(p)
    ensures p.Heuristic?
  {
  }
}
