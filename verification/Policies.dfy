/** Eviction policies: what the manager tells them, and whom they pick. */
module Policies {
  import opened Types
  import opened Traces
  import opened CostModel

  datatype Candidate = Candidate(sid: Sid, entry: Entry)

  function Sids(cands: seq<Candidate>): (r: seq<Sid>)
    ensures |r| == |cands| && forall i :: 0 <= i < |r| ==> r[i] == cands[i].sid
    ensures forall s :: s in r <==> exists c :: c in cands && c.sid == s
  {
    if cands == [] then []
    else
      var r := [cands[0].sid] + Sids(cands[1..]);
      assert forall c :: c in cands ==> c == cands[0] || c in cands[1..];
      assert cands[0] in cands;
      r
  }

  /** One message from the manager to its policy.  A policy's state is a function of the messages it has received. */
  datatype Call =
    | Inserted(sid: Sid, entry: Entry, at: real)
    | Accessed(sid: Sid, entry: Entry, at: real)
    | Removed(sid: Sid)
    | Chosen(tier: Tier, sid: Sid, rivals: seq<Sid>)

  datatype Policy =
    | Lru
      // Weighted frequency, recency and length; decay is the halving of recency with time.
    | Heuristic(alpha: real, beta: real, gamma: real, decay: real -> real)
      // The predicted chance of a resume is whatever the predictor makes of the messages so far.
    | Predicted(predict: (seq<Call>, real, Candidate) -> real)
    | Belady(events: seq<Event>)
    | OracleClassifier(events: seq<Event>, window: real)
    | OracleSpaceTime(events: seq<Event>, prices: CostModel)
    | ValueDensity(predict: (seq<Call>, real, Candidate) -> real, prices: CostModel, threshold: real)
    | SpaceTime(predict: (seq<Call>, real, Candidate) -> real, prices: CostModel, priorGap: real, emaAlpha: real)
      // Any other policy; an answer that is not one of the candidates counts as no answer.
    | Custom(pick: (seq<Call>, real, seq<Candidate>) -> Option<Sid>, expire: (seq<Call>, real, Candidate) -> bool)

  // ---- Least recently used ----

  /** One message to the access list: an insert appends a new id, an access moves its id to the end. */
  function Heard(list: seq<Sid>, call: Call): seq<Sid> {
    match call
    case Inserted(s, _, _) => if s in list then list else list + [s]
    case Accessed(s, _, _) => Without(list, s) + [s]
    case Removed(s) => Without(list, s)
    case Chosen(_, _, _) => list
  }

  /** The access list, oldest first. */
  function Recency(calls: seq<Call>): seq<Sid> {
    if calls == [] then [] else Heard(Recency(calls[..|calls| - 1]), calls[|calls| - 1])
  }

  /** First id of the list that is a candidate; the first candidate if the list has none of them. */
  function FirstListed(list: seq<Sid>, cands: seq<Candidate>): (r: Sid)
    requires cands != []
    ensures r in Sids(cands)
  {
    if list == [] then cands[0].sid
    else if list[0] in Sids(cands) then list[0]
    else FirstListed(list[1..], cands)
  }

  /** Of the listed candidates it is the one listed first. */
  lemma {:induction false} FirstListedIsFirst(list: seq<Sid>, cands: seq<Candidate>, i: nat)
    requires cands != [] && i < |list| && list[i] in Sids(cands)
    requires forall j :: 0 <= j < i ==> list[j] !in Sids(cands)
    ensures FirstListed(list, cands) == list[i]
    decreases i
  {
    hide Sids;
    if i > 0 {
      FirstListedIsFirst(list[1..], cands, i - 1);
    }
  }

  /** If none of them is listed it is the first one offered. */
  lemma {:induction false} NoneListed(list: seq<Sid>, cands: seq<Candidate>)
    requires cands != [] && forall s :: s in list ==> s !in Sids(cands)
    ensures FirstListed(list, cands) == cands[0].sid
  {
    hide Sids;
    if list != [] {
      NoneListed(list[1..], cands);
    }
  }

  // ---- Score-based policies ----

  function ClassifierScore(events: seq<Event>, window: real, now: real, s: Sid): real {
    match NextResume(events, s, now)
    case None => 0.0
    case Some(t) =>
      var gap := t - now;
      (if gap <= window then 1.0 else 0.0) + TieBreak(gap)
  }

  /** Too small to cross the window, but sooner scores higher. */
  function TieBreak(gap: real): real
    requires gap > 0.0
  {
    0.000001 / (1.0 + gap / 3600.0)
  }

  function AtLeastOne(x: real): real {
    if x >= 1.0 then x else 1.0
  }

  function ByteSeconds(sizeBytes: nat, gap: real): (r: real)
    ensures r > 0.0
  {
    AtLeastOne(sizeBytes as real) * AtLeastOne(gap)
  }

  function SpaceTimeScore(events: seq<Event>, prices: CostModel, now: real, c: Candidate): real {
    match NextResume(events, c.sid, now)
    case None => 0.0
    case Some(t) =>
      RecomputeTime(prices, c.entry.tokenCount) / ByteSeconds(c.entry.sizeBytes, t - now)
  }

  function Density(prices: CostModel, chance: real, e: Entry): real {
    chance * RecomputeTime(prices, e.tokenCount) / AtLeastOne(e.sizeBytes as real)
  }

  // ---- Estimated gaps ----

  /** When the policy last heard of an insert or access of s; a removal is not forgotten. */
  function LastSeen(calls: seq<Call>, s: Sid): Option<real> {
    if calls == [] then None
    else
      var last := calls[|calls| - 1];
      if (last.Inserted? || last.Accessed?) && last.sid == s then Some(last.at) else LastSeen(calls[..|calls| - 1], s)
  }

  /** Moving average of the positive gaps before each access. */
  function GapEma(alpha: real, calls: seq<Call>, s: Sid): Option<real> {
    if calls == [] then None
    else
      var last, init := calls[|calls| - 1], calls[..|calls| - 1];
      var ema, seen := GapEma(alpha, init, s), LastSeen(init, s);
      if !last.Accessed? || last.sid != s || seen.None? || last.at <= seen.value then ema
      else if ema.None? then Some(last.at - seen.value)
      else Some(alpha * (last.at - seen.value) + (1.0 - alpha) * ema.value)
  }

  function Max(x: real, y: real): real {
    if x >= y then x else y
  }

  /** At least the session's rhythm, at least its current idleness, at least a second. */
  function ExpectedGap(priorGap: real, alpha: real, calls: seq<Call>, now: real, c: Candidate): (r: real)
    ensures r >= 1.0
  {
    var ema := GapEma(alpha, calls, c.sid);
    Max(Max(if ema.Some? then ema.value else priorGap, Max(now - c.entry.lastAccessed, 0.0)), 1.0)
  }

  function GapDensity(prices: CostModel, chance: real, gap: real, e: Entry): real
    requires gap >= 1.0
  {
    chance * RecomputeTime(prices, e.tokenCount) / (AtLeastOne(e.sizeBytes as real) * gap)
  }

  // ---- Heuristic scores ----

  /** The largest access and token counts among the candidates. */
  datatype Field = Field(accesses: nat, tokens: nat)

  function FieldOf(cands: seq<Candidate>): (r: Field)
    ensures forall c :: c in cands ==> c.entry.accessCount <= r.accesses && c.entry.tokenCount <= r.tokens
  {
    if cands == [] then Field(0, 0)
    else
      var rest, e := FieldOf(cands[1..]), cands[0].entry;
      assert forall c :: c in cands ==> c == cands[0] || c in cands[1..];
      Field(if e.accessCount > rest.accesses then e.accessCount else rest.accesses,
            if e.tokenCount > rest.tokens then e.tokenCount else rest.tokens)
  }

  function HeuristicScore(p: Policy, now: real, field: Field, e: Entry): real
    requires p.Heuristic?
  {
    p.alpha * (e.accessCount as real / AtLeastOne(field.accesses as real))
    + p.beta * p.decay(now - e.lastAccessed)
    + p.gamma * (e.tokenCount as real / AtLeastOne(field.tokens as real))
  }

  function Score(p: Policy, calls: seq<Call>, now: real, field: Field, c: Candidate): real {
    match p
    case Heuristic(_, _, _, _) => HeuristicScore(p, now, field, c.entry)
    case Predicted(predict) => predict(calls, now, c)
    case OracleClassifier(events, window) => ClassifierScore(events, window, now, c.sid)
    case OracleSpaceTime(events, prices) => SpaceTimeScore(events, prices, now, c)
    case ValueDensity(predict, prices, _) => Density(prices, predict(calls, now, c), c.entry)
    case SpaceTime(predict, prices, priorGap, alpha) =>
      GapDensity(prices, predict(calls, now, c), ExpectedGap(priorGap, alpha, calls, now, c), c.entry)
    case _ => 0.0
  }

  /** The earliest candidate with the least score. */
  function LowestScore(p: Policy, calls: seq<Call>, now: real, field: Field, cands: seq<Candidate>): (r: Candidate)
    requires cands != []
    ensures r in cands && forall c :: c in cands ==> Score(p, calls, now, field, r) <= Score(p, calls, now, field, c)
  {
    var last := cands[|cands| - 1];
    if |cands| == 1 then last
    else
      var best := LowestScore(p, calls, now, field, cands[..|cands| - 1]);
      assert forall c :: c in cands ==> c == last || c in cands[..|cands| - 1];
      if Score(p, calls, now, field, last) < Score(p, calls, now, field, best) then last else best
  }

  /** The earliest candidate whose next resume is farthest away. */
  function Farthest(events: seq<Event>, now: real, cands: seq<Candidate>): (r: Candidate)
    requires cands != []
    ensures r in cands
    ensures forall c :: c in cands ==> !Later(NextResume(events, c.sid, now), NextResume(events, r.sid, now))
  {
    var last := cands[|cands| - 1];
    if |cands| == 1 then last
    else
      var best := Farthest(events, now, cands[..|cands| - 1]);
      assert forall c :: c in cands ==> c == last || c in cands[..|cands| - 1];
      if Later(NextResume(events, last.sid, now), NextResume(events, best.sid, now)) then last else best
  }

  /** The policy's victim among the entries offered, in the order the index lists them. */
  function Select(p: Policy, calls: seq<Call>, now: real, cands: seq<Candidate>): (r: Option<Sid>)
    requires cands != []
    ensures r.Some? ==> r.value in Sids(cands)
  {
    match p
    case Lru => Some(FirstListed(Recency(calls), cands))
    case Belady(events) => Some(Farthest(events, now, cands).sid)
    case Custom(pick, _) =>
      var answer := pick(calls, now, cands);
      if answer.Some? && answer.value in Sids(cands) then answer else None
    case _ => Some(LowestScore(p, calls, now, FieldOf(cands), cands).sid)
  }

  /** Does the policy ask for an entry to be demoted at maintenance time? */
  predicate Expired(p: Policy, calls: seq<Call>, now: real, c: Candidate) {
    match p
    case ValueDensity(predict, prices, threshold) =>
      threshold > 0.0 && Density(prices, predict(calls, now, c), c.entry) < threshold
    case Custom(_, expire) => expire(calls, now, c)
    case _ => false
  }

  /** Two policies decide alike when they give the same answers to every question. */
  ghost predicate Agree(p: Policy, q: Policy) {
    && (forall calls, now, cands :: cands != [] ==> Select(p, calls, now, cands) == Select(q, calls, now, cands))
    && (forall calls, now, c :: Expired(p, calls, now, c) == Expired(q, calls, now, c))
  }

  // ---- The perfect classifier is Belady ----

  /** A later return scores strictly lower, whatever the window. */
  lemma ClassifierIsAntitone(events: seq<Event>, window: real, now: real, a: Sid, b: Sid)
    ensures ClassifierScore(events, window, now, a) < ClassifierScore(events, window, now, b)
       <==> Later(NextResume(events, a, now), NextResume(events, b, now))
  {
    hide TieBreak;
    var ta, tb := NextResume(events, a, now), NextResume(events, b, now);
    if ta.Some? {
      TieBreakBounds(ta.value - now);
    }
    if tb.Some? {
      TieBreakBounds(tb.value - now);
    }
    if ta.Some? && tb.Some? {
      if ta.value < tb.value {
        TieBreakFalls(ta.value - now, tb.value - now);
      } else if tb.value < ta.value {
        TieBreakFalls(tb.value - now, ta.value - now);
      }
    }
  }

  lemma TieBreakBounds(gap: real)
    requires gap > 0.0
    ensures 0.0 < TieBreak(gap) < 1.0
  {
  }

  lemma TieBreakFalls(near: real, far: real)
    requires 0.0 < near < far
    ensures TieBreak(near) > TieBreak(far)
  {
  }

  lemma {:induction false} LowestClassifierIsFarthest(events: seq<Event>, window: real, calls: seq<Call>, now: real,
          field: Field, cands: seq<Candidate>)
    requires cands != []
    ensures LowestScore(OracleClassifier(events, window), calls, now, field, cands) == Farthest(events, now, cands)
  {
    if |cands| > 1 {
      var init, last := cands[..|cands| - 1], cands[|cands| - 1];
      LowestClassifierIsFarthest(events, window, calls, now, field, init);
      ClassifierIsAntitone(events, window, now, last.sid, Farthest(events, now, init).sid);
    }
  }

  /** The perfect classifier and Belady pick the same victim from every candidate list at every time. */
  lemma ClassifierIsBelady(events: seq<Event>, window: real)
    ensures Agree(OracleClassifier(events, window), Belady(events))
  {
    var p, q := OracleClassifier(events, window), Belady(events);
    forall calls, now, cands | cands != []
      ensures Select(p, calls, now, cands) == Select(q, calls, now, cands)
    {
      LowestClassifierIsFarthest(events, window, calls, now, FieldOf(cands), cands);
    }
  }

  // ---- Which policies feel a change of cost model ----

  /** Recompute times that differ by one positive factor rank every candidate list alike. */
  ghost predicate Proportional(a: CostModel, b: CostModel, factor: real) {
    factor > 0.0 && forall n: int :: RecomputeTime(b, n) == factor * RecomputeTime(a, n)
  }

  function AttentionWidth(spec: ModelSpec): real {
    (spec.layers * spec.qHeads * spec.headDim) as real
  }

  /** As many parameters per unit of attention. */
  ghost predicate SameShape(a: CostModel, b: CostModel) {
    a.spec.paramsB * AttentionWidth(b.spec) == b.spec.paramsB * AttentionWidth(a.spec)
  }

  /** Recompute times are proportional exactly between models of one shape: the GPU, its utilisation, the KV heads and
      every restore price are free. */
  lemma ProportionalIffSameShape(a: CostModel, b: CostModel)
    requires a.Positive() && b.Positive()
    ensures SameShape(a, b) ==> Proportional(a, b, PerToken(b) / PerToken(a))
    ensures (exists factor :: Proportional(a, b, factor)) ==> SameShape(a, b)
  {
    CoefficientSigns(a, Hot);
    CoefficientSigns(b, Hot);
    ShapeCoefficients(a, b);
    if SameShape(a, b) {
      ShapeIsEnough(a, b, PerToken(b) / PerToken(a));
    }
    forall factor | Proportional(a, b, factor)
      ensures SameShape(a, b)
    {
      ProportionalCoefficients(a, b, factor);
    }
  }

  /** The shape, as the ratio of the two coefficients of prefill time. */
  lemma ShapeCoefficients(a: CostModel, b: CostModel)
    requires a.Positive() && b.Positive()
    ensures SameShape(a, b) <==> PerToken(a) * PerPair(b) == PerToken(b) * PerPair(a)
  {
    var fa, fb := a.gpu.EffectiveFlops(), b.gpu.EffectiveFlops();
    var x, y := a.spec.paramsB * AttentionWidth(b.spec), b.spec.paramsB * AttentionWidth(a.spec);
    assert fa > 0.0 && fb > 0.0;
    CoefficientProduct(a, b);
    CoefficientProduct(b, a);
    SameQuotient(8000000000.0 * x, 8000000000.0 * y, fa * fb);
    hide PerToken;
    hide PerPair;
    hide AttentionWidth;
  }

  lemma CoefficientProduct(a: CostModel, b: CostModel)
    requires a.Positive() && b.Positive()
    ensures a.gpu.EffectiveFlops() * b.gpu.EffectiveFlops() > 0.0
    ensures PerToken(a) * PerPair(b)
         == 8000000000.0 * (a.spec.paramsB * AttentionWidth(b.spec)) / (a.gpu.EffectiveFlops() * b.gpu.EffectiveFlops())
  {
    var fa, fb := a.gpu.EffectiveFlops(), b.gpu.EffectiveFlops();
    var x, y := 2.0 * a.spec.paramsB * 1000000000.0, 4.0 * AttentionWidth(b.spec);
    assert fa > 0.0 && fb > 0.0 && fa * fb > 0.0;
    QuotientProduct(x, y, fa, fb);
    assert x * y == 8000000000.0 * (a.spec.paramsB * AttentionWidth(b.spec));
  }

  lemma QuotientProduct(x: real, y: real, d: real, e: real)
    requires d > 0.0 && e > 0.0
    ensures d * e > 0.0 && x / d * (y / e) == x * y / (d * e)
  {
    var p, q := x / d, y / e;
    assert p * d == x && q * e == y;
    assert p * q * (d * e) == x * y;
  }

  lemma SameQuotient(x: real, y: real, d: real)
    requires d > 0.0
    ensures x / d == y / d <==> x == y
  {
    assert x / d * d == x && y / d * d == y;
  }

  lemma ShapeIsEnough(a: CostModel, b: CostModel, factor: real)
    requires PerToken(a) > 0.0 && PerToken(b) > 0.0
    requires PerToken(a) * PerPair(b) == PerToken(b) * PerPair(a) && factor == PerToken(b) / PerToken(a)
    ensures Proportional(a, b, factor)
  {
    var wa, qa, wb, qb := PerToken(a), PerPair(a), PerToken(b), PerPair(b);
    assert factor > 0.0 && wb == factor * wa;
    assert qb == factor * qa;
    hide PerToken;
    hide PerPair;
    forall n: int
      ensures RecomputeTime(b, n) == factor * RecomputeTime(a, n)
    {
      if n > 0 {
        RecomputeAt(a, n);
        RecomputeAt(b, n);
        hide RecomputeTime;
        Distribute(factor, wa, qa, n as real);
      }
    }
  }

  lemma Distribute(k: real, w: real, q: real, x: real)
    ensures k * (w * x + q * x * x) == k * w * x + k * q * x * x
  {
  }

  /** Two lengths determine both coefficients. */
  lemma ProportionalCoefficients(a: CostModel, b: CostModel, factor: real)
    requires Proportional(a, b, factor)
    ensures PerToken(b) == factor * PerToken(a) && PerPair(b) == factor * PerPair(a)
  {
    RecomputeAt(a, 1);
    RecomputeAt(b, 1);
    RecomputeAt(a, 2);
    RecomputeAt(b, 2);
    assert RecomputeTime(b, 1) == factor * RecomputeTime(a, 1) && RecomputeTime(b, 2) == factor * RecomputeTime(a, 2);
    hide RecomputeTime;
    hide PerToken;
    hide PerPair;
  }

  lemma ScaleQuotient(k: real, x: real, d: real)
    requires d > 0.0
    ensures k * x / d == k * (x / d)
  {
  }

  lemma ScaleOrder(k: real, x: real, y: real, kx: real, ky: real)
    requires k > 0.0 && kx == k * x && ky == k * y
    ensures kx < ky <==> x < y
  {
  }

  /** One policy's scores are the other's, times one positive factor. */
  ghost predicate Scaled(p: Policy, q: Policy, factor: real) {
    && factor > 0.0
    && forall calls, now, field, c :: Score(q, calls, now, field, c) == factor * Score(p, calls, now, field, c)
  }

  lemma ScaledOrder(p: Policy, q: Policy, factor: real, calls: seq<Call>, now: real, field: Field, c: Candidate,
          d: Candidate)
    requires Scaled(p, q, factor)
    ensures Score(p, calls, now, field, c) < Score(p, calls, now, field, d)
        <==> Score(q, calls, now, field, c) < Score(q, calls, now, field, d)
  {
    hide Score;
    ScaleOrder(factor, Score(p, calls, now, field, c), Score(p, calls, now, field, d), Score(q, calls, now, field, c),
      Score(q, calls, now, field, d));
  }

  lemma {:induction false} ScaledPick(p: Policy, q: Policy, factor: real, calls: seq<Call>, now: real, field: Field,
          cands: seq<Candidate>)
    requires Scaled(p, q, factor) && cands != []
    ensures LowestScore(p, calls, now, field, cands) == LowestScore(q, calls, now, field, cands)
  {
    hide Score;
    hide Scaled;
    if |cands| > 1 {
      var init, last := cands[..|cands| - 1], cands[|cands| - 1];
      ScaledPick(p, q, factor, calls, now, field, init);
      ScaledOrder(p, q, factor, calls, now, field, last, LowestScore(p, calls, now, field, init));
    }
  }

  lemma SpaceTimeScales(events: seq<Event>, a: CostModel, b: CostModel, factor: real, now: real, c: Candidate)
    requires Proportional(a, b, factor)
    ensures SpaceTimeScore(events, b, now, c) == factor * SpaceTimeScore(events, a, now, c)
  {
    hide RecomputeTime;
    hide ByteSeconds;
    match NextResume(events, c.sid, now)
    case None =>
    case Some(t) =>
      var size, tokens := ByteSeconds(c.entry.sizeBytes, t - now), c.entry.tokenCount;
      ScaleQuotient(factor, RecomputeTime(a, tokens), size);
      assert RecomputeTime(b, tokens) == factor * RecomputeTime(a, tokens);
  }

  lemma DensityScales(a: CostModel, b: CostModel, factor: real, chance: real, e: Entry)
    requires Proportional(a, b, factor)
    ensures Density(b, chance, e) == factor * Density(a, chance, e)
  {
    hide RecomputeTime;
    hide AtLeastOne;
    var cost, size := RecomputeTime(a, e.tokenCount), AtLeastOne(e.sizeBytes as real);
    assert size > 0.0 by {
      AtLeastOnePositive(e.sizeBytes as real);
    }
    assert RecomputeTime(b, e.tokenCount) == factor * cost;
    assert chance * (factor * cost) == factor * (chance * cost);
    ScaleQuotient(factor, chance * cost, size);
  }

  lemma GapDensityScales(a: CostModel, b: CostModel, factor: real, chance: real, gap: real, e: Entry)
    requires Proportional(a, b, factor) && gap >= 1.0
    ensures GapDensity(b, chance, gap, e) == factor * GapDensity(a, chance, gap, e)
  {
    hide RecomputeTime;
    hide AtLeastOne;
    AtLeastOnePositive(e.sizeBytes as real);
    var cost, size := RecomputeTime(a, e.tokenCount), AtLeastOne(e.sizeBytes as real) * gap;
    assert size > 0.0;
    assert RecomputeTime(b, e.tokenCount) == factor * cost;
    assert chance * (factor * cost) == factor * (chance * cost);
    ScaleQuotient(factor, chance * cost, size);
  }

  lemma AtLeastOnePositive(x: real)
    ensures AtLeastOne(x) > 0.0
  {
  }

  /** Perfect space-time reads the cost model, yet its decisions ignore every change but a change of model geometry. */
  lemma SpaceTimeIgnoresScale(events: seq<Event>, a: CostModel, b: CostModel, factor: real)
    requires Proportional(a, b, factor)
    ensures Agree(OracleSpaceTime(events, a), OracleSpaceTime(events, b))
  {
    var p, q := OracleSpaceTime(events, a), OracleSpaceTime(events, b);
    hide SpaceTimeScore;
    hide LowestScore;
    hide Proportional;
    assert factor > 0.0 by {
      ProportionalFactor(a, b, factor);
    }
    forall calls, now, field, c
      ensures Score(q, calls, now, field, c) == factor * Score(p, calls, now, field, c)
    {
      SpaceTimeScales(events, a, b, factor, now, c);
    }
    forall calls, now, cands | cands != []
      ensures Select(p, calls, now, cands) == Select(q, calls, now, cands)
    {
      ScaledPick(p, q, factor, calls, now, FieldOf(cands), cands);
    }
  }

  lemma ProportionalFactor(a: CostModel, b: CostModel, factor: real)
    requires Proportional(a, b, factor)
    ensures factor > 0.0
  {
  }

  /** So do value density's, admission control included, when the threshold is rescaled along. */
  lemma ValueDensityIgnoresScale(predict: (seq<Call>, real, Candidate) -> real, a: CostModel, b: CostModel,
                                 x: real, y: real, factor: real)
    requires Proportional(a, b, factor) && y == factor * x
    ensures Agree(Policy.ValueDensity(predict, a, x), Policy.ValueDensity(predict, b, y))
  {
    var p, q := Policy.ValueDensity(predict, a, x), Policy.ValueDensity(predict, b, y);
    hide Density;
    hide LowestScore;
    hide Proportional;
    ProportionalFactor(a, b, factor);
    forall calls, now, field, c
      ensures Score(q, calls, now, field, c) == factor * Score(p, calls, now, field, c)
    {
      DensityScales(a, b, factor, predict(calls, now, c), c.entry);
    }
    forall calls, now, c
      ensures Expired(p, calls, now, c) == Expired(q, calls, now, c)
    {
      var chance := predict(calls, now, c);
      DensityScales(a, b, factor, chance, c.entry);
      ScaleOrder(factor, Density(a, chance, c.entry), x, Density(b, chance, c.entry), y);
      ScaleOrder(factor, 0.0, x, 0.0, y);
    }
    forall calls, now, cands | cands != []
      ensures Select(p, calls, now, cands) == Select(q, calls, now, cands)
    {
      ScaledPick(p, q, factor, calls, now, FieldOf(cands), cands);
    }
  }

  /** And so do estimated space-time's. */
  lemma EstimatedSpaceTimeIgnoresScale(predict: (seq<Call>, real, Candidate) -> real, a: CostModel, b: CostModel,
                                       priorGap: real, alpha: real, factor: real)
    requires Proportional(a, b, factor)
    ensures Agree(SpaceTime(predict, a, priorGap, alpha), SpaceTime(predict, b, priorGap, alpha))
  {
    var p, q := SpaceTime(predict, a, priorGap, alpha), SpaceTime(predict, b, priorGap, alpha);
    hide GapDensity;
    hide ExpectedGap;
    hide LowestScore;
    hide Proportional;
    ProportionalFactor(a, b, factor);
    forall calls, now, field, c
      ensures Score(q, calls, now, field, c) == factor * Score(p, calls, now, field, c)
    {
      GapDensityScales(a, b, factor, predict(calls, now, c), ExpectedGap(priorGap, alpha, calls, now, c), c.entry);
    }
    forall calls, now, cands | cands != []
      ensures Select(p, calls, now, cands) == Select(q, calls, now, cands)
    {
      ScaledPick(p, q, factor, calls, now, FieldOf(cands), cands);
    }
  }
}
