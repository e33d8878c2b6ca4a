/** What the parameters that experiments give their policies amount to. */
module Parameters {
  import opened Types
  import opened Traces
  import opened CostModel
  import opened Policies
  import opened Pricing
  import opened Scores

  /** The heuristic counts use for two fifths, recency for two fifths and length for one. */
  lemma HeuristicShares(decay: real -> real, events: seq<Event>, prices: CostModel, now: real, field: Field, e: Entry)
    requires 0 < e.accessCount == field.accesses && 0 < e.tokenCount == field.tokens
    ensures var p := PolicyFor(NamedHeuristic(decay), events, prices);
      var recency := decay(now - e.lastAccessed);
      && HeuristicScore(p, now, field, e) == 0.4 + 0.4 * recency + 0.2
      && HeuristicScore(p, now, field, e.(accessCount := 0)) == 0.4 * recency + 0.2
      && HeuristicScore(p, now, field, e.(tokenCount := 0)) == 0.4 + 0.4 * recency
  {
    SharesOfScore(PolicyFor(NamedHeuristic(decay), events, prices), now, field, e);
    hide HeuristicScore;
  }

  /** The perfect classifier asks for a resume within the hour; at the hour its tie-break is down to a half. */
  lemma WithinTheHour(events: seq<Event>, prices: CostModel, calls: seq<Call>, now: real, field: Field, c: Candidate)
    ensures Score(PolicyFor(NamedOracleV1, events, prices), calls, now, field, c) >= 1.0
       <==> NextResume(events, c.sid, now).Some? && NextResume(events, c.sid, now).value <= now + 3600.0
    ensures NextResume(events, c.sid, now) == Some(now + 3600.0) ==>
              Score(PolicyFor(NamedOracleV1, events, prices), calls, now, field, c) == 1.0000005
  {
    hide NextResume;
    ClassifierClassifies(events, 3600.0, now, c.sid);
  }

  /** Estimated space-time expects a session in two hours when it has never been seen to return and has not been idle
      for longer; each new gap counts for three tenths of the average. */
  lemma TwoHoursAtFirst(predict: (seq<Call>, real, Candidate) -> real, events: seq<Event>, prices: CostModel,
          calls: seq<Call>, now: real, c: Candidate)
    ensures var p, seen := PolicyFor(NamedSpaceTime(predict), events, prices), LastSeen(calls, c.sid);
      && p.SpaceTime?
      && (Gaps(calls, c.sid) == [] && now - c.entry.lastAccessed <= 7200.0 ==>
            ExpectedGap(p.priorGap, p.emaAlpha, calls, now, c) == 7200.0)
      && (seen.Some? && now > seen.value && GapEma(p.emaAlpha, calls, c.sid).Some? ==>
            var ema, gap := GapEma(p.emaAlpha, calls, c.sid).value, now - seen.value;
            var next := GapEma(p.emaAlpha, calls + [Accessed(c.sid, c.entry, now)], c.sid);
            next.Some? && next.value - ema == 0.3 * (gap - ema))
  {
    hide GapEma;
    hide Gaps;
    hide LastSeen;
    var p := PolicyFor(NamedSpaceTime(predict), events, prices);
    ExpectedGapIs(p.priorGap, p.emaAlpha, calls, now, c);
    hide ExpectedGap;
    GapsKnown(p.emaAlpha, calls, c.sid);
    if LastSeen(calls, c.sid).Some? && now > LastSeen(calls, c.sid).value && GapEma(p.emaAlpha, calls, c.sid).Some? {
      AverageMoves(p.emaAlpha, calls, c.sid, c.entry, now);
    }
  }
}
