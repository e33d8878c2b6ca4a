/** Whom the admission gate of value density turns out at maintenance. */
module Admission {
  import opened Types
  import opened CostModel
  import opened Policies
  import opened Pricing
  import opened Scores
  import ValueDensity

  /** An entry as long as the raw simulated blob of that many tokens. */
  predicate RawSized(e: Entry) {
    e.sizeBytes == 64 + 512 * e.tokenCount
  }

  lemma GateIsPositive(prices: CostModel)
    requires prices.Positive()
    ensures AdmissionThreshold(prices) > 0.0
    ensures AdmissionThreshold(prices) * 1048576.0 == 0.4543 * RecomputeTime(prices, 2048)
  {
    RecomputeSign(prices, 2048);
    hide RecomputeTime;
    var half := 0.5 * RecomputeTime(prices, AC_REFERENCE_TOKENS);
    Reals.Quotient(half, 1048576.0);
  }

  /** A session of 2,048 tokens is turned out exactly when its chance is under 0.4543, up to the blob's header. */
  lemma GateAtReference(prices: CostModel, chance: real, e: Entry)
    requires prices.Positive() && RawSized(e) && e.tokenCount == 2048
    ensures Density(prices, chance, e) < AdmissionThreshold(prices) <==> chance * 1048576.0 < 0.4543 * 1048640.0
  {
    RecomputeSign(prices, 2048);
    GateIsPositive(prices);
    hide RecomputeTime;
    hide AdmissionThreshold;
    var r, gate := RecomputeTime(prices, 2048), AdmissionThreshold(prices);
    DensityIs(prices, chance, 1.0, e, r, 1048640.0);
    Reals.Quotient(chance * r, 1048640.0);
    GateCompares(chance, r, gate, Density(prices, chance, e));
  }

  lemma GateCompares(chance: real, r: real, gate: real, density: real)
    requires r > 0.0 && gate * 1048576.0 == 0.4543 * r && density * 1048640.0 == chance * r
    ensures density < gate <==> chance * 1048576.0 < 0.4543 * 1048640.0
  {
    Reals.TimesOrder(r, chance * 1048576.0, 0.4543 * 1048640.0);
    assert r * (chance * 1048576.0) == density * 1048640.0 * 1048576.0;
    assert r * (0.4543 * 1048640.0) == gate * 1048640.0 * 1048576.0;
  }

  /** Value per byte rises with the chance and with the length, header included. */
  lemma RawDensityRises(prices: CostModel, low: real, high: real, a: Entry, b: Entry)
    requires prices.Positive() && 0.0 <= low <= high && RawSized(a) && RawSized(b) && a.tokenCount <= b.tokenCount
    ensures Density(prices, low, a) <= Density(prices, high, b)
  {
    hide *;
    WorthRises(prices, low, high, 1.0, 1.0, b, b);
    if a.tokenCount < b.tokenCount {
      LongerIsDenser(prices, low, a, b);
    } else {
      SameDensity(prices, low, a, b);
    }
  }

  lemma SameDensity(prices: CostModel, chance: real, a: Entry, b: Entry)
    requires RawSized(a) && RawSized(b) && a.tokenCount == b.tokenCount
    ensures Density(prices, chance, a) == Density(prices, chance, b)
  {
    hide RecomputeTime;
  }

  lemma LongerIsDenser(prices: CostModel, chance: real, a: Entry, b: Entry)
    requires prices.Positive() && chance >= 0.0 && RawSized(a) && RawSized(b) && a.tokenCount < b.tokenCount
    ensures Density(prices, chance, a) <= Density(prices, chance, b)
  {
    hide RecomputeTime;
    if chance > 0.0 {
      ValueDensity.ScoreGrows(prices, chance, 512, a, b);
    } else {
      DensityIs(prices, chance, 1.0, a, RecomputeTime(prices, a.tokenCount), AtLeastOne(a.sizeBytes as real));
      DensityIs(prices, chance, 1.0, b, RecomputeTime(prices, b.tokenCount), AtLeastOne(b.sizeBytes as real));
    }
  }

  /** So the gate is closed downwards: with a session it turns out every shorter one that is no likelier to return, and
      with a session it keeps every longer one that is no less likely. */
  lemma GateIsMonotone(policy: Policy, calls: seq<Call>, now: real, a: Candidate, b: Candidate)
    requires policy.ValueDensity? && policy.prices.Positive()
    requires policy.threshold == AdmissionThreshold(policy.prices)
    requires RawSized(a.entry) && RawSized(b.entry) && a.entry.tokenCount <= b.entry.tokenCount
    requires 0.0 <= policy.predict(calls, now, a) <= policy.predict(calls, now, b)
    ensures Expired(policy, calls, now, b) ==> Expired(policy, calls, now, a)
  {
    hide AdmissionThreshold;
    GateIsPositive(policy.prices);
    RawDensityRises(policy.prices, policy.predict(calls, now, a), policy.predict(calls, now, b), a.entry, b.entry);
    hide Density;
  }

  /** What the admission policy asks to be demoted, in terms of chances alone, at the reference length. */
  lemma GateTurnsOut(predict: (seq<Call>, real, Candidate) -> real, prices: CostModel, calls: seq<Call>, now: real,
          c: Candidate)
    requires prices.Positive() && RawSized(c.entry) && c.entry.tokenCount == 2048
    ensures Expired(PolicyFor(NamedValueDensityAc(predict), [], prices), calls, now, c)
       <==> predict(calls, now, c) * 1048576.0 < 0.4543 * 1048640.0
    ensures !Expired(PolicyFor(NamedValueDensity(predict), [], prices), calls, now, c)
  {
    hide AdmissionThreshold;
    hide Density;
    GateIsPositive(prices);
    GateAtReference(prices, predict(calls, now, c), c.entry);
  }
}
