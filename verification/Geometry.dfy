/** The policies that read the cost model feel the shape of the model and nothing else. */
module Geometry {
  import opened Types
  import opened Traces
  import opened CostModel
  import opened Policies
  import opened Cascade
  import opened Replay
  import opened Pricing
  import opened Contests
  import opened Architectures

  /** An experiment with the policy of that name, built from m's prices and scored with them. */
  ghost function Experiment(name: PolicyName, c: System, m: CostModel, events: seq<Event>): Progress {
    Replayed(c.(policy := PolicyFor(name, events, m)), m, events)
  }

  /** Whichever model an experiment was built with, it logs the same hits. */
  ghost predicate SameHistograms(name: PolicyName, p: CostModel, q: CostModel) {
    forall c: System, events: seq<Event> :: SameHits(name, p, q, c, events)
  }

  ghost predicate SameHits(name: PolicyName, p: CostModel, q: CostModel, c: System, events: seq<Event>) {
    Experiment(name, c, p, events).ok && Experiment(name, c, q, events).ok ==>
      Experiment(name, c, p, events).sim.tally.histogram == Experiment(name, c, q, events).sim.tally.histogram
  }

  /** One histogram, re-priced, is the other experiment's own total. */
  ghost predicate RepricesExactly(name: PolicyName, p: CostModel, q: CostModel, c: System, events: seq<Event>) {
    Experiment(name, c, p, events).ok && Experiment(name, c, q, events).ok ==>
      Priced(q, Experiment(name, c, p, events).sim.tally.histogram)
        == Experiment(name, c, q, events).sim.tally.gpuSeconds
  }

  // ---- Whom a scoring policy picks ----

  function First(g: Contest): Candidate {
    Candidate(g.a, Saving(g.n))
  }

  function Second(g: Contest): Candidate {
    Candidate(g.b, Saving(2 * g.n))
  }

  /** The score of a competitor when the third session comes. */
  function Scored(g: Contest, policy: Policy, c: Candidate): real {
    Score(policy, g.Both().calls, 0.0, FieldOf([First(g), Second(g)]), c)
  }

  lemma BothCompete(g: Contest)
    requires g.a != g.b
    ensures Candidates(g.Both().order, g.Both().index, Hot) == [First(g), Second(g)]
  {
    hide SimBlob;
    var index := g.Both().index;
    assert [g.a, g.b][1..] == [g.b] && [g.b][1..] == [];
    assert Candidates([g.b], index, Hot) == [Second(g)];
  }

  lemma LowerOfTwo(p: Policy, calls: seq<Call>, now: real, field: Field, x: Candidate, y: Candidate)
    ensures LowestScore(p, calls, now, field, [x, y])
         == if Score(p, calls, now, field, y) < Score(p, calls, now, field, x) then y else x
  {
    hide Score;
    assert [x, y][..1] == [x];
  }

  lemma PicksLower(g: Contest, policy: Policy)
    requires g.Fair() && !policy.Lru? && !policy.Belady? && !policy.Custom?
    ensures g.Picks(policy, if Scored(g, policy, Second(g)) < Scored(g, policy, First(g)) then g.b else g.a)
  {
    hide Score;
    hide SimBlob;
    hide Candidates;
    hide LowestScore;
    hide FieldOf;
    hide Saving;
    BothCompete(g);
    LowerOfTwo(policy, g.Both().calls, g.Both().now, FieldOf([First(g), Second(g)]), First(g), Second(g));
  }

  // ---- What the two are worth ----

  /** How many times as good the first session's prospects may be before the second scores below it. */
  ghost function Turn(m: CostModel, n: nat): real
    requires m.Positive() && n >= 1
  {
    RecomputePositive(m, n);
    RecomputeTime(m, 2 * n) * Size(n) as real / (RecomputeTime(m, n) * Size(2 * n) as real)
  }

  lemma RecomputePositive(m: CostModel, n: nat)
    requires m.Positive() && n >= 1
    ensures 0.0 < 2.0 * RecomputeTime(m, n) < RecomputeTime(m, 2 * n) < 4.0 * RecomputeTime(m, n)
  {
    hide RecomputeTime;
    hide PerToken;
    hide PerPair;
    RecomputeParts(m, n);
    CoefficientSigns(m, Hot);
  }

  /** Prefill of n tokens and of 2n, by weights and by scores. */
  lemma RecomputeParts(m: CostModel, n: nat)
    ensures var w, s := PerToken(m) * n as real, PerPair(m) * n as real * n as real;
      RecomputeTime(m, n) == w + s && RecomputeTime(m, 2 * n) == 2.0 * w + 4.0 * s
    ensures m.Positive() && n >= 1 ==> PerToken(m) * n as real > 0.0 && PerPair(m) * n as real * n as real > 0.0
  {
    RecomputeAt(m, n);
    RecomputeAt(m, 2 * n);
    if m.Positive() {
      CoefficientSigns(m, Hot);
    }
    hide RecomputeTime;
    hide PerToken;
    hide PerPair;
    var w, q, x := PerToken(m), PerPair(m), n as real;
    assert (2 * n) as real == 2.0 * x;
    assert q * (2.0 * x) * (2.0 * x) == 4.0 * (q * x * x);
  }

  lemma TurnBounds(m: CostModel, n: nat)
    requires m.Positive() && n >= 1
    ensures 1.0 < Turn(m, n) < 3.0
  {
    hide RecomputeTime;
    RecomputePositive(m, n);
    var one, two, small, large := RecomputeTime(m, n), RecomputeTime(m, 2 * n), Size(n) as real, Size(2 * n) as real;
    assert large == 2.0 * small - 64.0;
    QuotientBounds(one, two, small, large);
    assert Turn(m, n) == two * small / (one * large);
  }

  lemma QuotientBounds(one: real, two: real, small: real, large: real)
    requires 0.0 < 2.0 * one < two < 4.0 * one && 96.0 < small && large == 2.0 * small - 64.0
    ensures one * large > 0.0 && 1.0 < two * small / (one * large) < 3.0
  {
    Times(one, 0.0, large);
    Times(one, large, 2.0 * small);
    Times(one, 4.0 * small, 3.0 * large);
    Times(small, 2.0 * one, two);
    Times(small, two, 4.0 * one);
    assert small * (2.0 * one) == one * (2.0 * small) && small * (4.0 * one) == one * (4.0 * small);
    assert one * (3.0 * large) == 3.0 * (one * large);
    assert 4.0 * small < 3.0 * large;
    assert one * (4.0 * small) < one * (3.0 * large);
    assert small * two < small * (4.0 * one);
    assert two * small < 3.0 * (one * large);
    DivideLess(two * small, one * large, 3.0);
    DivideMore(two * small, one * large, 1.0);
  }

  lemma Times(k: real, x: real, y: real)
    requires k > 0.0
    ensures x < y <==> k * x < k * y
  {
    if x < y {
      assert k * (y - x) > 0.0;
    } else {
      assert k * (x - y) >= 0.0;
    }
  }

  lemma DivideLess(x: real, d: real, k: real)
    requires d > 0.0
    ensures x / d < k <==> x < k * d
  {
    var t := x / d;
    assert t * d == x;
    Times(d, t, k);
  }

  lemma DivideMore(x: real, d: real, k: real)
    requires d > 0.0
    ensures k < x / d <==> k * d < x
  {
    var t := x / d;
    assert t * d == x;
    Times(d, k, t);
  }

  /** Models of different shape turn at different points. */
  lemma SameTurnIsSameShape(p: CostModel, q: CostModel, n: nat)
    requires p.Positive() && q.Positive() && n >= 1 && Turn(p, n) == Turn(q, n)
    ensures SameShape(p, q)
  {
    hide RecomputeTime;
    hide PerToken;
    hide PerPair;
    hide SameShape;
    hide Turn;
    SameTurnIsSameRatio(p, q, n);
    RecomputeParts(p, n);
    RecomputeParts(q, n);
    var x := n as real;
    var wp, sp, wq, sq := PerToken(p) * x, PerPair(p) * x * x, PerToken(q) * x, PerPair(q) * x * x;
    CrossParts(wp, sp, wq, sq);
    CancelCube(PerToken(p), PerPair(p), PerToken(q), PerPair(q), x, wp, sp, wq, sq);
    ShapeCoefficients(p, q);
  }

  lemma SameTurnIsSameRatio(p: CostModel, q: CostModel, n: nat)
    requires p.Positive() && q.Positive() && n >= 1 && Turn(p, n) == Turn(q, n)
    ensures RecomputeTime(p, 2 * n) * RecomputeTime(q, n) == RecomputeTime(q, 2 * n) * RecomputeTime(p, n)
  {
    hide RecomputeTime;
    RecomputePositive(p, n);
    RecomputePositive(q, n);
    CrossTurns(RecomputeTime(p, n), RecomputeTime(p, 2 * n), RecomputeTime(q, n), RecomputeTime(q, 2 * n),
               Size(n) as real, Size(2 * n) as real);
  }

  lemma CrossTurns(p1: real, p2: real, q1: real, q2: real, small: real, large: real)
    requires p1 > 0.0 && q1 > 0.0 && small > 0.0 && large > 0.0
    requires p2 * small / (p1 * large) == q2 * small / (q1 * large)
    ensures p2 * q1 == q2 * p1
  {
    var t := p2 * small / (p1 * large);
    assert t * (p1 * large) == p2 * small && t * (q1 * large) == q2 * small;
    assert p2 * small * q1 == q2 * small * p1;
    assert small * (p2 * q1) == small * (q2 * p1);
  }

  lemma CancelCube(a: real, b: real, c: real, d: real, x: real, wp: real, sp: real, wq: real, sq: real)
    requires x > 0.0 && wp == a * x && sp == b * x * x && wq == c * x && sq == d * x * x && wp * sq == wq * sp
    ensures a * d == c * b
  {
    var cube := x * x * x;
    assert cube > 0.0;
    assert wp * sq == a * d * cube && wq * sp == c * b * cube;
  }

  lemma CrossParts(wp: real, sp: real, wq: real, sq: real)
    requires (2.0 * wp + 4.0 * sp) * (wq + sq) == (2.0 * wq + 4.0 * sq) * (wp + sp)
    ensures wp * sq == wq * sp
  {
  }

  /** Recompute time per byte, weighed by prospects. */
  function Worth(m: CostModel, n: nat, prospects: real): real {
    prospects * RecomputeTime(m, n) / Size(n) as real
  }

  lemma ProspectsDecide(m: CostModel, n: nat, x: real, y: real)
    requires m.Positive() && n >= 1 && x > 0.0 && y > 0.0
    ensures Worth(m, 2 * n, y) < Worth(m, n, x) <==> Turn(m, n) < x / y
  {
    hide RecomputeTime;
    RecomputePositive(m, n);
    CrossLess(RecomputeTime(m, n), RecomputeTime(m, 2 * n), Size(n) as real, Size(2 * n) as real, x, y);
  }

  /** Any policy whose scores are worths picks by the ratio of the prospects. */
  lemma PicksByProspects(g: Contest, policy: Policy, m: CostModel, x: real, y: real)
    requires g.Fair() && m.Positive() && !policy.Lru? && !policy.Belady? && !policy.Custom? && x > 0.0 && y > 0.0
    requires Scored(g, policy, First(g)) == Worth(m, g.n, x) && Scored(g, policy, Second(g)) == Worth(m, 2 * g.n, y)
    ensures g.Picks(policy, if Turn(m, g.n) < x / y then g.b else g.a)
  {
    hide *;
    AtLeastOneToken(g);
    ProspectsDecide(m, g.n, x, y);
    PicksLower(g, policy);
  }

  lemma AtLeastOneToken(g: Contest)
    requires g.Fair()
    ensures g.n >= 1 && g.n <= 2 * g.n <= TOKEN_CLAMP
  {
  }

  lemma CrossLess(one: real, two: real, small: real, large: real, x: real, y: real)
    requires one > 0.0 && two > 0.0 && small > 0.0 && large > 0.0 && x > 0.0 && y > 0.0
    ensures one * large > 0.0
    ensures y * two / large < x * one / small <==> two * small / (one * large) < x / y
  {
    Times(one, 0.0, large);
    Times(small, 0.0, large);
    var left, right := y * (two * small), x * (one * large);
    QuotientsInOrder(y * two, large, x * one, small);
    QuotientsInOrder(two * small, one * large, x, y);
    assert y * two * small == left && x * one * large == right;
    assert two * small * y == left && x * (one * large) == right;
  }

  lemma QuotientsInOrder(a: real, b: real, c: real, d: real)
    requires b > 0.0 && d > 0.0
    ensures a / b < c / d <==> a * d < c * b
  {
    var s, t := a / b, c / d;
    assert s * b == a && t * d == c;
    Times(b, 0.0, d);
    Times(b * d, s, t);
    assert b * d * s == a * d && b * d * t == c * b;
  }

  // ---- Perfect space-time: prospects are inverse gaps ----

  lemma ContestResumes(g: Contest)
    requires g.Fair()
    ensures NextResume(g.Events(), g.a, 0.0) == Some(1.0) && NextResume(g.Events(), g.b, 0.0) == Some(g.late)
  {
    hide NextResume;
    var events := g.Events();
    assert events[3] in events && events[4] in events;
    assert ResumesAfter(events[3], g.a, 0.0) && ResumesAfter(events[4], g.b, 0.0);
  }

  lemma GapScore(m: CostModel, events: seq<Event>, s: Sid, n: nat, at: real)
    requires NextResume(events, s, 0.0) == Some(at) && at >= 1.0 && n <= TOKEN_CLAMP
    ensures SpaceTimeScore(events, m, 0.0, Candidate(s, Saving(n))) == Worth(m, n, 1.0 / at)
  {
    hide NextResume;
    hide SimBlob;
    hide RecomputeTime;
    BlobSizes(n);
    InverseGap(RecomputeTime(m, n), Size(n) as real, at);
  }

  lemma InverseGap(x: real, size: real, at: real)
    requires size > 0.0 && at > 0.0
    ensures size * at > 0.0 && x / (size * at) == 1.0 / at * x / size
  {
    Times(size, 0.0, at);
    var l, i := x / (size * at), 1.0 / at;
    assert l * (size * at) == x && i * at == 1.0;
    assert l * size * at == x && i * x * at == x;
    assert (l * size - i * x) * at == 0.0;
    assert l * size == i * x;
  }

  lemma OracleScores(g: Contest, m: CostModel)
    requires g.Fair()
    ensures Scored(g, OracleSpaceTime(g.Events(), m), First(g)) == Worth(m, g.n, 1.0 / 1.0)
    ensures Scored(g, OracleSpaceTime(g.Events(), m), Second(g)) == Worth(m, 2 * g.n, 1.0 / g.late)
  {
    hide NextResume;
    hide Contest.Events;
    hide Contest.Both;
    hide SpaceTimeScore;
    hide Saving;
    hide Worth;
    hide FieldOf;
    ContestResumes(g);
    GapScore(m, g.Events(), g.a, g.n, 1.0);
    GapScore(m, g.Events(), g.b, 2 * g.n, g.late);
  }

  lemma Inverse(x: real)
    requires x > 0.0
    ensures 1.0 / x > 0.0 && 1.0 / (1.0 / x) == x
  {
    var i := 1.0 / x;
    assert i * x == 1.0;
  }

  lemma OraclePicks(g: Contest, m: CostModel)
    requires g.Fair() && m.Positive()
    ensures g.Picks(OracleSpaceTime(g.Events(), m), if Turn(m, g.n) < g.late then g.b else g.a)
  {
    hide *;
    LateIsPositive(g);
    OracleScores(g, m);
    Inverse(g.late);
    PicksByProspects(g, OracleSpaceTime(g.Events(), m), m, 1.0 / 1.0, 1.0 / g.late);
  }

  lemma LateIsPositive(g: Contest)
    requires g.Fair()
    ensures g.late > 0.0
  {
  }

  // ---- Predicted chances: prospects are the chances ----

  /** The cost-model-bound policies that ask a predictor. */
  datatype Kind = ByDensity | ByDensityAc | ByEstimatedGaps

  function Predicting(kind: Kind, predict: (seq<Call>, real, Candidate) -> real): PolicyName {
    match kind
    case ByDensity => NamedValueDensity(predict)
    case ByDensityAc => NamedValueDensityAc(predict)
    case ByEstimatedGaps => NamedSpaceTime(predict)
  }

  ghost predicate Chances(predict: (seq<Call>, real, Candidate) -> real) {
    forall calls, now, c :: 0.0 <= predict(calls, now, c) <= 1.0
  }

  /** A predictor that is sure of sessions of n tokens, and less so of the others. */
  function Tilted(n: nat, odds: real): (seq<Call>, real, Candidate) -> real
    requires odds >= 1.0
  {
    (calls, now, c: Candidate) => if c.entry.tokenCount == n then 1.0 else 1.0 / odds
  }

  lemma TiltedIsChance(n: nat, odds: real)
    requires odds >= 1.0
    ensures Chances(Tilted(n, odds))
  {
    assert 0.0 <= 1.0 / odds <= 1.0;
  }

  /** Neither session was accessed before, so both are expected after the same gap. */
  lemma SameGap(g: Contest, priorGap: real, alpha: real, c: Candidate)
    requires g.a != g.b && (c == First(g) || c == Second(g))
    ensures ExpectedGap(priorGap, alpha, g.Both().calls, 0.0, c) == Max(Max(priorGap, 0.0), 1.0)
  {
    hide SimBlob;
    var calls := g.Both().calls;
    assert calls[..1] == [calls[0]] && calls[..1][..0] == [];
    assert GapEma(alpha, calls[..1], c.sid) == None;
    assert GapEma(alpha, calls, c.sid) == None;
  }

  /** The shared gap divides both scores alike. */
  function Weight(kind: Kind): real {
    if kind.ByEstimatedGaps? then 1.0 / 7200.0 else 1.0
  }

  lemma DensityOf(m: CostModel, chance: real, n: nat)
    requires n <= TOKEN_CLAMP
    ensures Density(m, chance, Saving(n)) == Worth(m, n, 1.0 * chance)
  {
    hide SimBlob;
    hide RecomputeTime;
    BlobSizes(n);
  }

  lemma GapDensityOf(m: CostModel, chance: real, n: nat)
    requires n <= TOKEN_CLAMP
    ensures GapDensity(m, chance, 7200.0, Saving(n)) == Worth(m, n, 1.0 / 7200.0 * chance)
  {
    hide SimBlob;
    hide RecomputeTime;
    BlobSizes(n);
    InverseGap(chance * RecomputeTime(m, n), Size(n) as real, 7200.0);
    Reorder(1.0 / 7200.0, chance, RecomputeTime(m, n));
  }

  lemma Reorder(x: real, y: real, z: real)
    ensures x * (y * z) == x * y * z
  {
  }

  function Weigh(kind: Kind, chance: real): real {
    Weight(kind) * chance
  }

  lemma PredictedScore(g: Contest, kind: Kind, m: CostModel, odds: real, events: seq<Event>, c: Candidate, n: nat,
          chance: real)
    requires g.Fair() && odds >= 1.0 && n <= TOKEN_CLAMP && c.entry == Saving(n) && (c == First(g) || c == Second(g))
    requires Tilted(g.n, odds)(g.Both().calls, 0.0, c) == chance
    ensures Scored(g, PolicyFor(Predicting(kind, Tilted(g.n, odds)), events, m), c) == Worth(m, n, Weigh(kind, chance))
  {
    hide Saving;
    hide Density;
    hide GapDensity;
    hide ExpectedGap;
    hide AdmissionThreshold;
    hide Contest.Both;
    hide Contest.Fair;
    hide First;
    hide Second;
    hide Worth;
    hide FieldOf;
    hide Tilted;
    match kind
    case ByDensity => DensityOf(m, chance, n);
    case ByDensityAc => DensityOf(m, chance, n);
    case ByEstimatedGaps =>
      Apart(g);
      SameGap(g, 7200.0, 0.3, c);
      GapDensityOf(m, chance, n);
  }

  lemma Apart(g: Contest)
    requires g.Fair()
    ensures g.a != g.b
  {
  }

  lemma TokensOf(g: Contest, odds: real, calls: seq<Call>)
    requires g.Fair() && odds >= 1.0
    ensures First(g).entry == Saving(g.n) && Second(g).entry == Saving(2 * g.n)
    ensures Tilted(g.n, odds)(calls, 0.0, First(g)) == 1.0 && Tilted(g.n, odds)(calls, 0.0, Second(g)) == 1.0 / odds
  {
    hide SimBlob;
  }

  lemma PredictedScores(g: Contest, kind: Kind, m: CostModel, odds: real, events: seq<Event>)
    requires g.Fair() && odds >= 1.0
    ensures var policy := PolicyFor(Predicting(kind, Tilted(g.n, odds)), events, m);
      && Scored(g, policy, First(g)) == Worth(m, g.n, Weigh(kind, 1.0))
      && Scored(g, policy, Second(g)) == Worth(m, 2 * g.n, Weigh(kind, 1.0 / odds))
  {
    hide *;
    AtLeastOneToken(g);
    TokensOf(g, odds, g.Both().calls);
    PredictedScore(g, kind, m, odds, events, First(g), g.n, 1.0);
    PredictedScore(g, kind, m, odds, events, Second(g), 2 * g.n, 1.0 / odds);
  }

  lemma PredictedPicks(g: Contest, kind: Kind, m: CostModel, odds: real, events: seq<Event>)
    requires g.Fair() && m.Positive() && odds >= 1.0
    ensures g.Picks(PolicyFor(Predicting(kind, Tilted(g.n, odds)), events, m), if Turn(m, g.n) < odds then g.b else g.a)
  {
    hide *;
    AtLeastOneToken(g);
    PredictedScores(g, kind, m, odds, events);
    WeighOdds(kind, odds);
    Scores(kind, Tilted(g.n, odds), events, m);
    PicksByProspects(g, PolicyFor(Predicting(kind, Tilted(g.n, odds)), events, m), m, Weigh(kind, 1.0),
      Weigh(kind, 1.0 / odds));
  }

  lemma Scores(kind: Kind, predict: (seq<Call>, real, Candidate) -> real, events: seq<Event>, m: CostModel)
    ensures var p := PolicyFor(Predicting(kind, predict), events, m); !p.Lru? && !p.Belady? && !p.Custom?
  {
  }

  lemma WeighOdds(kind: Kind, odds: real)
    requires odds > 0.0
    ensures Weigh(kind, 1.0) > 0.0 && Weigh(kind, 1.0 / odds) > 0.0
    ensures Weigh(kind, 1.0) / Weigh(kind, 1.0 / odds) == odds
  {
    var w, i := Weight(kind), 1.0 / odds;
    assert i * odds == 1.0;
    Times(w, 0.0, i);
    var d := w * i;
    assert odds * d == w;
  }

  // ---- Exactly when the cost model does not matter ----

  /** Two experiments in which different sessions sink. */
  ghost predicate Split(g: Contest, name: PolicyName, p: CostModel, q: CostModel) {
    g.Fair() && (SplitInto(g, name, p, q, g.a, g.b) || SplitInto(g, name, p, q, g.b, g.a))
  }

  ghost predicate SplitInto(g: Contest, name: PolicyName, p: CostModel, q: CostModel, u: Sid, v: Sid) {
    g.Picks(PolicyFor(name, g.Events(), p), u) && g.Picks(PolicyFor(name, g.Events(), q), v)
  }

  /** Three names and a hot tier that fits. */
  function Standard(n: nat, late: real): Contest {
    Contest(n, Size(n) + Size(2 * n), "a", "b", "z", late)
  }

  ghost function HalfWay(p: CostModel, q: CostModel, n: nat): real
    requires p.Positive() && q.Positive() && n >= 1
  {
    (Turn(p, n) + Turn(q, n)) / 2.0
  }

  lemma HalfWaySplits(p: CostModel, q: CostModel, n: nat)
    requires p.Positive() && q.Positive() && !SameShape(p, q) && n >= 1
    ensures var t := HalfWay(p, q, n); 1.0 <= t < 3.0 && (Turn(p, n) < t <==> !(Turn(q, n) < t))
  {
    hide Turn;
    hide SameShape;
    if Turn(p, n) == Turn(q, n) {
      SameTurnIsSameShape(p, q, n);
    }
    TurnBounds(p, n);
    TurnBounds(q, n);
  }

  lemma StandardIsFair(n: nat, late: real)
    requires 1 <= n && 2 * n <= TOKEN_CLAMP && 1.0 <= late < 3.0
    ensures Standard(n, late).Fair() && Standard(n, late).n == n && Standard(n, late).late == late
  {
  }

  /** Under models of different shape a contest of any size splits perfect space-time. */
  lemma OracleSplits(p: CostModel, q: CostModel, n: nat)
    requires p.Positive() && q.Positive() && !SameShape(p, q) && 1 <= n && 2 * n <= TOKEN_CLAMP
    ensures Split(Standard(n, HalfWay(p, q, n)), NamedOracleV3, p, q)
  {
    hide Turn;
    hide SameShape;
    hide HalfWay;
    hide Standard;
    hide Contest.Fair;
    hide Contest.Picks;
    hide Contest.Events;
    HalfWaySplits(p, q, n);
    StandardIsFair(n, HalfWay(p, q, n));
    OraclePicks(Standard(n, HalfWay(p, q, n)), p);
    OraclePicks(Standard(n, HalfWay(p, q, n)), q);
  }

  /** And with a suitable predictor it splits every policy that asks one. */
  lemma PredictionSplits(kind: Kind, p: CostModel, q: CostModel, n: nat)
    requires p.Positive() && q.Positive() && !SameShape(p, q) && 1 <= n && 2 * n <= TOKEN_CLAMP
    ensures HalfWay(p, q, n) >= 1.0 && Split(Standard(n, 1.0), Predicting(kind, Tilted(n, HalfWay(p, q, n))), p, q)
  {
    hide Turn;
    hide SameShape;
    hide HalfWay;
    hide Standard;
    hide Contest.Fair;
    hide Contest.Picks;
    hide Contest.Events;
    hide Tilted;
    hide PolicyFor;
    HalfWaySplits(p, q, n);
    StandardIsFair(n, 1.0);
    var g := Standard(n, 1.0);
    PredictedPicks(g, kind, p, HalfWay(p, q, n), g.Events());
    PredictedPicks(g, kind, q, HalfWay(p, q, n), g.Events());
  }

  lemma TwoHits(prices: CostModel, n: nat, s: Tier, t: Tier)
    requires n >= 1
    ensures Credit(prices, Credit(prices, NO_HITS, true, n, s), true, 2 * n, t).histogram
        == map[(n, s) := 1, (2 * n, t) := 1]
  {
    hide SavingsPerHit;
  }

  lemma ExperimentIs(g: Contest, name: PolicyName, m: CostModel)
    ensures Experiment(name, g.Room(Lru), m, g.Events())
        == Replayed(g.Room(PolicyFor(name, g.Events(), m)), m, g.Events())
  {
    hide Replayed;
  }

  /** Both experiments log one hit per resumed session, the first one in different tiers. */
  lemma SplitHits(g: Contest, name: PolicyName, p: CostModel, q: CostModel) returns (s: Tier, t: Tier, u: Tier, v: Tier)
    requires Split(g, name, p, q)
    ensures (s == Hot && u == Warm) || (s == Warm && u == Hot)
    ensures var x, y := Experiment(name, g.Room(Lru), p, g.Events()), Experiment(name, g.Room(Lru), q, g.Events());
      && x.ok && x.sim.tally == Credit(p, Credit(p, NO_HITS, true, g.n, s), true, 2 * g.n, t)
      && y.ok && y.sim.tally == Credit(q, Credit(q, NO_HITS, true, g.n, u), true, 2 * g.n, v)
  {
    hide Contest.Picks;
    hide Contest.Events;
    hide Contest.Room;
    hide PolicyFor;
    hide Replayed;
    hide Experiment;
    hide Credit;
    hide Ledger;
    var x, y := PolicyFor(name, g.Events(), p), PolicyFor(name, g.Events(), q);
    var i := if SplitInto(g, name, p, q, g.a, g.b) then g.a else g.b;
    var j := if i == g.a then g.b else g.a;
    t := ContestTally(g, x, p, i);
    v := ContestTally(g, y, q, j);
    s, u := if i == g.a then Warm else Hot, if j == g.a then Warm else Hot;
    ExperimentIs(g, name, p);
    ExperimentIs(g, name, q);
  }

  lemma DifferentMaps(n: nat, s: Tier, t: Tier, u: Tier, v: Tier)
    requires n >= 1 && s != u
    ensures map[(n, s) := 1, (2 * n, t) := 1] != map[(n, u) := 1, (2 * n, v) := 1]
  {
    assert (n, s) in map[(n, s) := 1, (2 * n, t) := 1];
    assert (n, s) !in map[(n, u) := 1, (2 * n, v) := 1];
  }

  lemma SplitDiffers(g: Contest, name: PolicyName, p: CostModel, q: CostModel)
    requires Split(g, name, p, q)
    ensures !SameHits(name, p, q, g.Room(Lru), g.Events())
  {
    hide Experiment;
    hide Credit;
    hide Contest.Events;
    hide Contest.Room;
    hide Contest.Picks;
    var s, t, u, v := SplitHits(g, name, p, q);
    AtLeastOneToken(g);
    TwoHits(p, g.n, s, t);
    TwoHits(q, g.n, u, v);
    DifferentMaps(g.n, s, t, u, v);
  }

  lemma AgreementIsEnough(name: PolicyName, p: CostModel, q: CostModel, c: System, events: seq<Event>)
    requires Agree(PolicyFor(name, events, p), PolicyFor(name, events, q))
    ensures SameHits(name, p, q, c, events) && RepricesExactly(name, p, q, c, events)
  {
    hide Agree;
    hide PolicyFor;
    hide Replayed;
    hide Priced;
    if Experiment(name, c, p, events).ok {
      RescoreIsExact(c.(policy := PolicyFor(name, events, p)), c.(policy := PolicyFor(name, events, q)), p, q, events);
    }
  }

  lemma ShapeIsEnough(name: PolicyName, p: CostModel, q: CostModel)
    requires p.Positive() && q.Positive() && SameShape(p, q)
    ensures forall events :: Agree(PolicyFor(name, events, p), PolicyFor(name, events, q))
    ensures SameHistograms(name, p, q) && forall c: System, events :: RepricesExactly(name, p, q, c, events)
  {
    hide Agree;
    hide PolicyFor;
    hide SameShape;
    hide SameHits;
    hide RepricesExactly;
    forall events
      ensures Agree(PolicyFor(name, events, p), PolicyFor(name, events, q))
    {
      PolicyIgnoresPrices(name, events, p, q);
    }
    forall c: System, events
      ensures SameHits(name, p, q, c, events) && RepricesExactly(name, p, q, c, events)
    {
      AgreementIsEnough(name, p, q, c, events);
    }
  }

  lemma SplitDisagrees(g: Contest, name: PolicyName, p: CostModel, q: CostModel)
    requires Split(g, name, p, q)
    ensures !Agree(PolicyFor(name, g.Events(), p), PolicyFor(name, g.Events(), q)) && !SameHistograms(name, p, q)
  {
    hide Agree;
    hide PolicyFor;
    hide Split;
    hide SameHits;
    hide RepricesExactly;
    SplitDiffers(g, name, p, q);
    if Agree(PolicyFor(name, g.Events(), p), PolicyFor(name, g.Events(), q)) {
      AgreementIsEnough(name, p, q, g.Room(Lru), g.Events());
    }
  }

  /** Perfect space-time decides alike on every trace, and logs the same hits in every experiment, exactly under models
      of one shape. */
  lemma ShapeDecides(p: CostModel, q: CostModel)
    requires p.Positive() && q.Positive()
    ensures SameShape(p, q) <==> forall events :: Agree(OracleSpaceTime(events, p), OracleSpaceTime(events, q))
    ensures SameShape(p, q) <==> SameHistograms(NamedOracleV3, p, q)
  {
    hide Agree;
    hide SameShape;
    hide SameHistograms;
    hide Split;
    hide Contest.Events;
    if SameShape(p, q) {
      ShapeIsEnough(NamedOracleV3, p, q);
      assert forall events :: PolicyFor(NamedOracleV3, events, p) == OracleSpaceTime(events, p);
    } else {
      var g := Standard(1, HalfWay(p, q, 1));
      OracleSplits(p, q, 1);
      SplitDisagrees(g, NamedOracleV3, p, q);
    }
  }

  /** The policies that ask a predictor do so, for every predictor of chances, exactly under models of one shape. */
  lemma ShapeDecidesPredictions(kind: Kind, p: CostModel, q: CostModel)
    requires p.Positive() && q.Positive()
    ensures SameShape(p, q)
       <==> forall predict, events | Chances(predict) ::
              Agree(PolicyFor(Predicting(kind, predict), events, p), PolicyFor(Predicting(kind, predict), events, q))
    ensures SameShape(p, q) <==> forall predict | Chances(predict) :: SameHistograms(Predicting(kind, predict), p, q)
  {
    hide Agree;
    hide SameShape;
    hide SameHistograms;
    hide Split;
    hide Chances;
    hide Tilted;
    hide PolicyFor;
    hide Predicting;
    if SameShape(p, q) {
      forall predict | Chances(predict)
        ensures SameHistograms(Predicting(kind, predict), p, q)
        ensures forall events :: Agree(PolicyFor(Predicting(kind, predict), events, p),
                                       PolicyFor(Predicting(kind, predict), events, q))
      {
        ShapeIsEnough(Predicting(kind, predict), p, q);
      }
    } else {
      PredictionSplits(kind, p, q, 1);
      TiltedIsChance(1, HalfWay(p, q, 1));
      SplitDisagrees(Standard(1, 1.0), Predicting(kind, Tilted(1, HalfWay(p, q, 1))), p, q);
    }
  }

  // ---- Totals ----

  /** Contests of that size fit the experiments, and their hits pay in the hot tier only. */
  ghost predicate OnlyHotPays(q: CostModel, n: nat) {
    && 1 <= n && 2 * n <= TOKEN_CLAMP && SavingsPerHit(q, n, Hot) > 0.0
    && SavingsPerHit(q, n, Warm) == SavingsPerHit(q, 2 * n, Warm) == 0.0
    && SavingsPerHit(q, n, Cold) == SavingsPerHit(q, 2 * n, Cold) == 0.0
  }

  lemma PricedTwoHits(q: CostModel, n: nat, s: Tier, t: Tier)
    requires n >= 1
    ensures var tally := Credit(q, Credit(q, NO_HITS, true, n, s), true, 2 * n, t);
      && tally.gpuSeconds == SavingsPerHit(q, n, s) + SavingsPerHit(q, 2 * n, t)
      && Priced(q, map[(n, s) := 1, (2 * n, t) := 1]) == tally.gpuSeconds
  {
    hide SavingsPerHit;
    hide Priced;
    EmptyBooks(q);
    CreditBalances(q, NO_HITS, true, n, s);
    CreditBalances(q, Credit(q, NO_HITS, true, n, s), true, 2 * n, t);
    TwoHits(q, n, s, t);
  }

  lemma PaysApart(q: CostModel, n: nat, s: Tier, t: Tier, u: Tier, v: Tier)
    requires q.Positive() && OnlyHotPays(q, n) && ((s == Hot && u == Warm) || (s == Warm && u == Hot))
    ensures SavingsPerHit(q, n, s) + SavingsPerHit(q, 2 * n, t) != SavingsPerHit(q, n, u) + SavingsPerHit(q, 2 * n, v)
  {
    hide SavingsPerHit;
    SavingsSuperlinear(q, Hot, 2, n);
    assert SavingsPerHit(q, 2 * n, Hot) >= 2.0 * SavingsPerHit(q, n, Hot);
  }

  lemma SplitMisprices(g: Contest, name: PolicyName, p: CostModel, q: CostModel)
    requires Split(g, name, p, q) && q.Positive() && OnlyHotPays(q, g.n)
    ensures !RepricesExactly(name, p, q, g.Room(Lru), g.Events())
  {
    hide Experiment;
    hide Credit;
    hide Contest.Events;
    hide Contest.Room;
    hide Contest.Picks;
    hide SplitInto;
    hide Priced;
    hide SavingsPerHit;
    hide OnlyHotPays;
    var s, t, u, v := SplitHits(g, name, p, q);
    AtLeastOneToken(g);
    TwoHits(p, g.n, s, t);
    PricedTwoHits(q, g.n, s, t);
    PricedTwoHits(q, g.n, u, v);
    PaysApart(q, g.n, s, t, u, v);
  }

  /** Re-pricing perfect space-time runs with q is then exact everywhere exactly under one shape. */
  lemma RepricingNeedsShape(p: CostModel, q: CostModel, n: nat)
    requires p.Positive() && q.Positive() && OnlyHotPays(q, n)
    ensures SameShape(p, q) <==> forall c: System, events :: RepricesExactly(NamedOracleV3, p, q, c, events)
  {
    hide RepricesExactly;
    hide SameShape;
    hide Split;
    if SameShape(p, q) {
      ShapeIsEnough(NamedOracleV3, p, q);
    } else {
      OracleSplits(p, q, n);
      SplitMisprices(Standard(n, HalfWay(p, q, n)), NamedOracleV3, p, q);
    }
  }

  /** And so is re-pricing the policies that ask a predictor, over all predictors of chances. */
  lemma RepricingPredictionsNeedsShape(kind: Kind, p: CostModel, q: CostModel, n: nat)
    requires p.Positive() && q.Positive() && OnlyHotPays(q, n)
    ensures SameShape(p, q)
       <==> forall predict, c: System, events | Chances(predict) ::
              RepricesExactly(Predicting(kind, predict), p, q, c, events)
  {
    hide RepricesExactly;
    hide SameShape;
    hide Split;
    hide Chances;
    hide Tilted;
    hide Predicting;
    if SameShape(p, q) {
      forall predict, c: System, events | Chances(predict)
        ensures RepricesExactly(Predicting(kind, predict), p, q, c, events)
      {
        ShapeIsEnough(Predicting(kind, predict), p, q);
      }
    } else {
      PredictionSplits(kind, p, q, n);
      TiltedIsChance(n, HalfWay(p, q, n));
      SplitMisprices(Standard(n, 1.0), Predicting(kind, Tilted(n, HalfWay(p, q, n))), p, q);
    }
  }

  // ---- The models shipped with the experiments ----

  /** Tokens of the smaller session of a contest that only the hot tier pays for. */
  function HotOnlyTokens(m: Shipped): nat {
    if m == Llama70B then 1 else 10
  }

  lemma ShippedPayHotOnly(m: Shipped)
    ensures m.Model().Positive() && OnlyHotPays(m.Model(), HotOnlyTokens(m))
  {
    match m
    case TinyLlama => assert OnlyHotPays(TinyLlama.Model(), 10);
    case Llama7B => assert OnlyHotPays(Llama7B.Model(), 10);
    case Llama70B => assert OnlyHotPays(Llama70B.Model(), 1);
  }

  /** No two shipped models have one shape, so re-pricing a cost-model-bound policy's runs from any to any other is
      wrong somewhere: for perfect space-time, and for each policy that asks a predictor. */
  lemma ShippedRepriceWrongly(p: Shipped, q: Shipped, kind: Kind)
    requires p != q
    ensures exists c: System, events :: !RepricesExactly(NamedOracleV3, p.Model(), q.Model(), c, events)
    ensures exists predict, c: System, events ::
              Chances(predict) && !RepricesExactly(Predicting(kind, predict), p.Model(), q.Model(), c, events)
  {
    hide RepricesExactly;
    hide OnlyHotPays;
    hide Chances;
    hide Predicting;
    ShippedPayHotOnly(p);
    ShippedPayHotOnly(q);
    assert !SameShape(p.Model(), q.Model());
    hide SameShape;
    hide Shipped.Model;
    hide HotOnlyTokens;
    RepricingNeedsShape(p.Model(), q.Model(), HotOnlyTokens(q));
    RepricingPredictionsNeedsShape(kind, p.Model(), q.Model(), HotOnlyTokens(q));
  }
}
