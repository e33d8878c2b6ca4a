/** How score-based policies choose, and what that does to large and small sessions. */
module ValueDensity {
  import opened Types
  import opened CostModel
  import opened Policies
  import RawBinary

  /** The scoring policies fill a score table, then take its first minimum. */
  method SelectLowest(p: Policy, calls: seq<Call>, now: real, cands: seq<Candidate>) returns (victim: Option<Sid>)
    ensures victim == if cands == [] then None else Some(LowestScore(p, calls, now, FieldOf(cands), cands).sid)
  {
    if cands == [] {
      return None;
    }
    var scores := Scores(p, calls, now, FieldOf(cands), cands);
    var best := FirstMinimum(p, calls, now, FieldOf(cands), cands, scores);
    victim := Some(cands[best].sid);
  }

  method Scores(p: Policy, calls: seq<Call>, now: real, field: Field, cands: seq<Candidate>) returns (scores: seq<real>)
    ensures |scores| == |cands| && forall j :: 0 <= j < |cands| ==> scores[j] == Score(p, calls, now, field, cands[j])
  {
    hide Score;
    scores := [];
    for i := 0 to |cands|
      invariant |scores| == i && forall j :: 0 <= j < i ==> scores[j] == Score(p, calls, now, field, cands[j])
    {
      scores := scores + [Score(p, calls, now, field, cands[i])];
    }
  }

  method FirstMinimum(p: Policy, calls: seq<Call>, now: real, field: Field, cands: seq<Candidate>, scores: seq<real>)
    returns (best: nat)
    requires cands != [] && |scores| == |cands|
    requires forall j :: 0 <= j < |cands| ==> scores[j] == Score(p, calls, now, field, cands[j])
    ensures best < |cands| && cands[best] == LowestScore(p, calls, now, field, cands)
  {
    hide Score;
    hide LowestScore;
    best := 0;
    assert cands[..1] == [cands[0]];
    LowestOfOne(p, calls, now, field, cands[0]);
    for i := 1 to |cands|
      invariant best < i
      invariant cands[best] == LowestScore(p, calls, now, field, cands[..i])
    {
      assert cands[..i + 1] == cands[..i] + [cands[i]];
      LowestOfMore(p, calls, now, field, cands[..i], cands[i]);
      if scores[i] < scores[best] {
        best := i;
      }
    }
    assert cands[..|cands|] == cands;
  }

  lemma LowestOfOne(p: Policy, calls: seq<Call>, now: real, field: Field, c: Candidate)
    ensures LowestScore(p, calls, now, field, [c]) == c
  {
  }

  lemma LowestOfMore(p: Policy, calls: seq<Call>, now: real, field: Field, cands: seq<Candidate>, last: Candidate)
    requires cands != []
    ensures LowestScore(p, calls, now, field, cands + [last])
         == var best := LowestScore(p, calls, now, field, cands);
            if Score(p, calls, now, field, last) < Score(p, calls, now, field, best) then last else best
  {
    hide Score;
    assert (cands + [last])[..|cands|] == cands;
  }

  // ---- Value per byte grows with length ----

  /** Recompute cost grows faster than a blob of header + perToken * n bytes. */
  lemma DensityGrows(weights: real, scores: real, header: real, perToken: real, small: real, large: real)
    requires weights > 0.0 && scores > 0.0 && header > 0.0 && perToken >= 0.0 && 0.0 <= small < large
    ensures (weights * small + scores * small * small) * (header + perToken * large)
          < (weights * large + scores * large * large) * (header + perToken * small)
  {
  }

  lemma CrossMultiply(a: real, b: real, c: real, d: real)
    requires b > 0.0 && d > 0.0 && a * d < c * b
    ensures a / b < c / d
  {
  }

  const HEADER_BYTES: nat := RawBinary.HEADER_SIZE

  lemma ValuePerByteGrows(prices: CostModel, perToken: nat, small: nat, large: nat)
    requires prices.Positive() && small < large
    ensures RecomputeTime(prices, small) / (HEADER_BYTES + perToken * small) as real
          < RecomputeTime(prices, large) / (HEADER_BYTES + perToken * large) as real
  {
    RecomputeAt(prices, small);
    RecomputeAt(prices, large);
    CoefficientSigns(prices, Hot);
    hide RecomputeTime;
    hide PerToken;
    hide PerPair;
    var w, q, s, l := PerToken(prices), PerPair(prices), small as real, large as real;
    var h, p := HEADER_BYTES as real, perToken as real;
    DensityGrows(w, q, h, p, s, l);
    assert (HEADER_BYTES + perToken * small) as real == h + p * s
      && (HEADER_BYTES + perToken * large) as real == h + p * l;
    assert p * s >= 0.0 && p * l >= 0.0;
    CrossMultiply(w * s + q * s * s, h + p * s, w * l + q * l * l, h + p * l);
  }

  /** Serialized size is a header plus a constant per token, as the uncompressed wire format gives. */
  ghost predicate RawSizes(cands: seq<Candidate>, perToken: nat) {
    forall c :: c in cands ==> c.entry.sizeBytes == HEADER_BYTES + perToken * c.entry.tokenCount
  }

  lemma ScoreGrows(prices: CostModel, chance: real, perToken: nat, a: Entry, b: Entry)
    requires prices.Positive() && chance > 0.0 && a.tokenCount < b.tokenCount
    requires a.sizeBytes == HEADER_BYTES + perToken * a.tokenCount
    requires b.sizeBytes == HEADER_BYTES + perToken * b.tokenCount
    ensures Density(prices, chance, a) < Density(prices, chance, b)
  {
    ValuePerByteGrows(prices, perToken, a.tokenCount, b.tokenCount);
    var x, y := RecomputeTime(prices, a.tokenCount), RecomputeTime(prices, b.tokenCount);
    var m, n := a.sizeBytes as real, b.sizeBytes as real;
    hide RecomputeTime;
    ScaleQuotient(chance, x, m);
    ScaleQuotient(chance, y, n);
    ScaleOrder(chance, x / m, y / n, chance * x / m, chance * y / n);
  }

  /** Among candidates equally likely to return, value density always evicts one with the fewest tokens. */
  lemma EvictsTheShortest(policy: Policy, calls: seq<Call>, now: real, cands: seq<Candidate>, chance: real,
          perToken: nat)
    requires policy.ValueDensity? && policy.prices.Positive()
    requires cands != [] && RawSizes(cands, perToken)
    requires chance > 0.0 && forall c :: c in cands ==> policy.predict(calls, now, c) == chance
    ensures var victim := LowestScore(policy, calls, now, FieldOf(cands), cands);
      && Select(policy, calls, now, cands) == Some(victim.sid)
      && victim in cands && forall c :: c in cands ==> victim.entry.tokenCount <= c.entry.tokenCount
  {
    var victim := LowestScore(policy, calls, now, FieldOf(cands), cands);
    forall c | c in cands
      ensures victim.entry.tokenCount <= c.entry.tokenCount
    {
      if c.entry.tokenCount < victim.entry.tokenCount {
        ScoreGrows(policy.prices, chance, perToken, c.entry, victim.entry);
      }
    }
  }
}
