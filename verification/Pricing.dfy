/** What the experiment's books say, and why finished runs can be re-priced without running them again. */
module Pricing {
  import opened Types
  import opened Sums
  import opened Traces
  import opened CostModel
  import opened Policies
  import opened Cascade
  import opened Operations
  import opened Coherence
  import opened Descent
  import opened Entries
  import opened Agreement
  import opened Replay
  import WireProofs

  // ---- The simulated blobs ----

  /** 64 header bytes and 512 bytes per cached token. */
  lemma SimBlobSize(tokens: nat)
    ensures |SimBlob(tokens)| == 64 + 512 * if tokens <= 8192 then tokens else 8192
    ensures RawBinary.Deserialize(SimBlob(tokens))
         == RawBinary.Ok(RawBinary.Decoded(GenerateKvData(tokens), SIM_MODEL))
  {
    var kv := GenerateKvData(tokens);
    var h := RawBinary.HeaderOf(kv, SIM_MODEL);
    assert WireProofs.Shaped(ZeroTensor(Clamp(tokens)), h);
    WireProofs.BlobLength(kv, SIM_MODEL);
    WireProofs.RoundTrip(kv, SIM_MODEL);
  }

  // ---- Healthy states ----

  /** Some history of saves, none of them empty, explains the state. */
  ghost predicate Healthy(c: System, st: State) {
    exists last: Store :: Sound(c, st, last) && NothingEmpty(last)
  }

  lemma StepKeepsHealthy(c: System, st: State, op: Op)
    requires Healthy(c, st) && Step(c, st, op).ok && (op.DoSave? ==> op.data != [])
    ensures Healthy(c, Step(c, st, op).st)
  {
    var last: Store :| Sound(c, st, last) && NothingEmpty(last);
    StepKeeps(c, st, op, last);
    assert NothingEmpty(Recall(last, op));
  }

  lemma HitIffIndexed(c: System, st: State, s: Sid)
    requires Healthy(c, st)
    ensures Load(c, st, s).data.Some? <==> s in st.index
  {
  }

  // ---- Token counts ----

  /** Nothing was added to the index and no entry's token count changed. */
  ghost predicate TokensKept(st: State, end: State) {
    forall s :: s in end.index ==> s in st.index && end.index[s].tokenCount == st.index[s].tokenCount
  }

  lemma MaintainKeepsTokens(c: System, st: State)
    ensures TokensKept(st, Maintain(c, st))
  {
    hide Maintain;
    forall s | s in Maintain(c, st).index
      ensures s in st.index && Maintain(c, st).index[s].tokenCount == st.index[s].tokenCount
    {
      MaintainOnlyMoves(c, st, s);
    }
  }

  lemma LoadKeepsTokens(c: System, st: State, x: Sid)
    ensures TokensKept(st, Load(c, st, x).st)
  {
    hide Load;
    var end := Load(c, st, x).st;
    forall s | s in end.index
      ensures s in st.index && end.index[s].tokenCount == st.index[s].tokenCount
    {
      LoadStamps(c, st, x, s);
    }
  }

  lemma SaveKeepsOtherTokens(c: System, st: State, s: Sid, user: string, data: Blob, tokens: nat)
    ensures var end := Save(c, st, s, user, data, tokens).st;
      && s in end.index && end.index[s].tokenCount == tokens
      && forall x :: x in end.index && x != s ==> x in st.index && end.index[x].tokenCount == st.index[x].tokenCount
  {
    hide Save;
    hide SaveSpot;
    hide BlocksFor;
    var end := Save(c, st, s, user, data, tokens).st;
    SaveRenews(c, st, s, user, data, tokens, s);
    forall x | x in end.index && x != s
      ensures x in st.index && end.index[x].tokenCount == st.index[x].tokenCount
    {
      SaveRenews(c, st, s, user, data, tokens, x);
    }
  }

  // ---- The books ----

  function Cell(prices: CostModel, k: (nat, Tier), count: nat): real {
    count as real * SavingsPerHit(prices, k.0, k.1)
  }

  function Worth(prices: CostModel, h: Histogram): map<(nat, Tier), real> {
    map k | k in h :: Cell(prices, k, h[k])
  }

  lemma WorthPut(prices: CostModel, h: Histogram, k: (nat, Tier), n: nat)
    ensures Worth(prices, h[k := n]) == Worth(prices, h)[k := Cell(prices, k, n)]
    ensures Worth(prices, h - {k}) == Worth(prices, h) - {k}
  {
  }

  lemma OneMoreHit(prices: CostModel, k: (nat, Tier), n: nat)
    ensures Cell(prices, k, n + 1) == Cell(prices, k, n) + SavingsPerHit(prices, k.0, k.1) && Cell(prices, k, 0) == 0.0
  {
  }

  /** A histogram of hits, priced. */
  ghost function Priced(prices: CostModel, h: Histogram): real {
    SumReals(Worth(prices, h))
  }

  ghost predicate Balanced(prices: CostModel, tally: Tally) {
    && SumValues(tally.byTier) == tally.hits
    && SumValues(tally.histogram) == tally.hits
    && tally.gpuSeconds == Priced(prices, tally.histogram)
  }

  lemma CreditBalances(prices: CostModel, tally: Tally, hit: bool, tokens: nat, tier: Tier)
    requires Balanced(prices, tally)
    ensures Balanced(prices, Credit(prices, tally, hit, tokens, tier))
  {
    hide SavingsPerHit;
    hide Priced;
    if hit {
      var h, k := tally.histogram, (tokens, tier);
      SumPut(tally.byTier, tier, Count(tally.byTier, tier) + 1);
      SumPut(h, k, Count(h, k) + 1);
      HitIsPriced(prices, h, k);
    }
  }

  lemma HitIsPriced(prices: CostModel, h: Histogram, k: (nat, Tier))
    ensures Priced(prices, h[k := Count(h, k) + 1]) == Priced(prices, h) + SavingsPerHit(prices, k.0, k.1)
  {
    hide Cell;
    hide SavingsPerHit;
    var n := Count(h, k);
    WorthPut(prices, h, k, n + 1);
    SumRealsPut(Worth(prices, h), k, Cell(prices, k, n + 1));
    OneMoreHit(prices, k, n);
  }

  /** The state explains itself, the token ledger matches the index, and the totals agree. */
  ghost predicate Ledger(c: System, prices: CostModel, sim: Sim) {
    Healthy(c, sim.st) && TokensMatch(sim) && Balanced(prices, sim.tally)
  }

  /** What the experiment thinks is cached is what the index says is cached. */
  ghost predicate TokensMatch(sim: Sim) {
    forall s :: s in sim.st.index ==> s in sim.cached && sim.cached[s] == sim.st.index[s].tokenCount
  }

  lemma AdvanceKeepsLedger(c: System, prices: CostModel, sim: Sim, at: real)
    requires Ledger(c, prices, sim)
    ensures Ledger(c, prices, Advance(c, sim, at))
  {
    var ticked := sim.st.(now := at);
    StepKeepsHealthy(c, sim.st, Tick(at));
    if at - sim.lastMaintenance >= MAINTENANCE_INTERVAL {
      StepKeepsHealthy(c, ticked, DoMaintain);
      MaintainKeepsTokens(c, ticked);
    }
  }

  lemma ResumedKeepsLedger(c: System, prices: CostModel, sim: Sim, s: Sid)
    requires Ledger(c, prices, sim)
    ensures Ledger(c, prices, Resumed(c, prices, sim, s))
  {
    StepKeepsHealthy(c, sim.st, DoLoad(s));
    LoadKeepsTokens(c, sim.st, s);
    var tier := if s in sim.st.index then sim.st.index[s].tier else Hot;
    CreditBalances(prices, sim.tally, Load(c, sim.st, s).data.Some?, Count(sim.cached, s), tier);
    hide Load;
    hide Balanced;
    hide Healthy;
  }

  lemma SavedKeepsLedger(c: System, prices: CostModel, sim: Sim, e: Event)
    requires Ledger(c, prices, sim) && Saved(c, sim, e).ok
    ensures Ledger(c, prices, Saved(c, sim, e).sim)
  {
    hide SimBlob;
    hide Save;
    hide Balanced;
    hide Healthy;
    hide State.IsFull;
    SimBlobSize(e.tokenCount);
    StepKeepsHealthy(c, sim.st, DoSave(e.sid, e.userId, SimBlob(e.tokenCount), Clamp(e.tokenCount)));
    SaveKeepsOtherTokens(c, sim.st, e.sid, e.userId, SimBlob(e.tokenCount), Clamp(e.tokenCount));
  }

  lemma ProcessKeepsLedger(c: System, prices: CostModel, sim: Sim, e: Event)
    requires Ledger(c, prices, sim) && Process(c, prices, sim, e).ok
    ensures Ledger(c, prices, Process(c, prices, sim, e).sim)
  {
    var ready := Advance(c, sim, e.timestamp);
    AdvanceKeepsLedger(c, prices, sim, e.timestamp);
    hide Advance;
    hide Ledger;
    match e.action
    case Start => SavedKeepsLedger(c, prices, ready, e);
    case Resume =>
      ResumedKeepsLedger(c, prices, ready, e.sid);
      SavedKeepsLedger(c, prices, Resumed(c, prices, ready, e.sid), e);
    case End =>
  }

  function Resumes(events: seq<Event>): nat {
    if events == [] then 0
    else Resumes(events[..|events| - 1]) + if events[|events| - 1].action == Resume then 1 else 0
  }

  /** All through a replay, under any policy: the token ledger matches the index, every resume is a hit or a miss, the
      hits per tier and per histogram cell add up to the hits, and the GPU-seconds are the histogram priced. */
  lemma {:induction false} ReplayBalances(c: System, prices: CostModel, events: seq<Event>)
    requires Replayed(c, prices, events).ok
    ensures var sim := Replayed(c, prices, events).sim;
      Ledger(c, prices, sim) && sim.tally.hits + sim.tally.misses == Resumes(events)
    decreases |events|
  {
    if events == [] {
      EmptyLedger(c, prices);
    } else {
      hide Process;
      hide Ledger;
      var init, e := events[..|events| - 1], events[|events| - 1];
      ReplayBalances(c, prices, init);
      ProcessKeepsLedger(c, prices, Replayed(c, prices, init).sim, e);
      ProcessCounts(c, prices, Replayed(c, prices, init).sim, e);
    }
  }

  lemma ProcessCounts(c: System, prices: CostModel, sim: Sim, e: Event)
    requires Process(c, prices, sim, e).ok
    ensures var before, after := sim.tally, Process(c, prices, sim, e).sim.tally;
      after.hits + after.misses == before.hits + before.misses + if e.action == Resume then 1 else 0
  {
  }

  lemma EmptyLedger(c: System, prices: CostModel)
    ensures Ledger(c, prices, Sim(EMPTY, map[], 0.0, NO_HITS))
  {
    assert Sound(c, EMPTY, map[]) && NothingEmpty(map[]);
    EmptyBooks(prices);
  }

  lemma EmptyBooks(prices: CostModel)
    ensures Balanced(prices, NO_HITS)
  {
    SumPut(map[Hot := 0, Warm := 0], Cold, 0);
    SumPut(map[Hot := 0], Warm, 0);
    SumPut(map[], Hot, 0);
    assert map[Hot := 0, Warm := 0, Cold := 0] == map[Hot := 0, Warm := 0][Cold := 0];
    assert map[Hot := 0, Warm := 0] == map[Hot := 0][Warm := 0] && map[Hot := 0] == map[][Hot := 0];
  }

  /** A resume is credited iff its session is indexed when the event arrives, with the entry's own tokens and tier. */
  lemma ResumeCredit(c: System, prices: CostModel, sim: Sim, s: Sid)
    requires Ledger(c, prices, sim)
    ensures Resumed(c, prices, sim, s).tally
         == if s in sim.st.index then Credit(prices, sim.tally, true, sim.st.index[s].tokenCount, sim.st.index[s].tier)
            else sim.tally.(misses := sim.tally.misses + 1)
  {
  }

  // ---- Re-pricing ----

  /** All of a replay but the money. */
  function Unpriced(sim: Sim): Sim {
    sim.(tally := sim.tally.(gpuSeconds := 0.0))
  }

  lemma AdvanceUnpriced(c: System, d: System, a: Sim, b: Sim, at: real)
    requires Twins(c, d) && Unpriced(a) == Unpriced(b)
    ensures Unpriced(Advance(c, a, at)) == Unpriced(Advance(d, b, at))
  {
    assert a.st == b.st && a.cached == b.cached && a.lastMaintenance == b.lastMaintenance;
    MaintainTwins(c, d, a.st.(now := at));
    hide Maintain;
  }

  lemma ResumedUnpriced(c: System, d: System, p: CostModel, q: CostModel, a: Sim, b: Sim, s: Sid)
    requires Twins(c, d) && Unpriced(a) == Unpriced(b)
    ensures Unpriced(Resumed(c, p, a, s)) == Unpriced(Resumed(d, q, b, s))
  {
    assert a.st == b.st && a.cached == b.cached;
    LoadTwins(c, d, a.st, s);
    hide Load;
    hide SavingsPerHit;
  }

  lemma SavedUnpriced(c: System, d: System, a: Sim, b: Sim, e: Event)
    requires Twins(c, d) && Unpriced(a) == Unpriced(b)
    ensures Saved(c, a, e).ok == Saved(d, b, e).ok && Unpriced(Saved(c, a, e).sim) == Unpriced(Saved(d, b, e).sim)
  {
    assert a.st == b.st && a.cached == b.cached;
    SaveTwins(c, d, a.st, e.sid, e.userId, SimBlob(e.tokenCount), Clamp(e.tokenCount));
    hide Save;
    hide SimBlob;
  }

  lemma ProcessUnpriced(c: System, d: System, p: CostModel, q: CostModel, a: Sim, b: Sim, e: Event)
    requires Twins(c, d) && Unpriced(a) == Unpriced(b)
    ensures Process(c, p, a, e).ok == Process(d, q, b, e).ok
    ensures Unpriced(Process(c, p, a, e).sim) == Unpriced(Process(d, q, b, e).sim)
  {
    assert a.st == b.st;
    AdvanceUnpriced(c, d, a, b, e.timestamp);
    var x, y := Advance(c, a, e.timestamp), Advance(d, b, e.timestamp);
    hide Advance;
    hide Resumed;
    hide Saved;
    hide Twins;
    if e.action == Start {
      SavedUnpriced(c, d, x, y, e);
    } else if e.action == Resume {
      ResumedUnpriced(c, d, p, q, x, y, e.sid);
      SavedUnpriced(c, d, Resumed(c, p, x, e.sid), Resumed(d, q, y, e.sid), e);
    }
  }

  /** Cost models cannot tell: the same decisions give the same hits, misses, states and failures. */
  lemma {:induction false} ReplayUnpriced(c: System, d: System, p: CostModel, q: CostModel, events: seq<Event>)
    requires Twins(c, d)
    ensures Replayed(c, p, events).ok == Replayed(d, q, events).ok
    ensures Unpriced(Replayed(c, p, events).sim) == Unpriced(Replayed(d, q, events).sim)
    decreases |events|
  {
    if events != [] {
      var init, e := events[..|events| - 1], events[|events| - 1];
      ReplayUnpriced(c, d, p, q, init);
      if Replayed(c, p, init).ok {
        ProcessUnpriced(c, d, p, q, Replayed(c, p, init).sim, Replayed(d, q, init).sim, e);
      }
    }
  }

  /** Pricing one run's histogram with the other run's cost model gives what that run accumulated itself. */
  lemma RescoreIsExact(c: System, d: System, p: CostModel, q: CostModel, events: seq<Event>)
    requires Twins(c, d) && Replayed(c, p, events).ok
    ensures var a, b := Replayed(c, p, events), Replayed(d, q, events);
      && b.ok && a.sim.tally.histogram == b.sim.tally.histogram
      && Priced(q, a.sim.tally.histogram) == b.sim.tally.gpuSeconds
  {
    ReplayUnpriced(c, d, p, q, events);
    assert Unpriced(Replayed(c, p, events).sim).tally.histogram == Unpriced(Replayed(d, q, events).sim).tally.histogram;
    ReplayBalances(d, q, events);
  }

  /** The policies by the names experiments give them. */
  datatype PolicyName =
    | NamedLru
    | NamedHeuristic(decay: real -> real)
    | NamedLogisticV1(predict: (seq<Call>, real, Candidate) -> real)
    | NamedBelady
    | NamedOracleV1
    | NamedOracleV3
    | NamedSpaceTime(predict: (seq<Call>, real, Candidate) -> real)
    | NamedValueDensity(predict: (seq<Call>, real, Candidate) -> real)
    | NamedValueDensityAc(predict: (seq<Call>, real, Candidate) -> real)
  {
    predicate CostBound() {
      NamedOracleV3? || NamedSpaceTime? || NamedValueDensity? || NamedValueDensityAc?
    }
  }

  const AC_REFERENCE_TOKENS := 2048
  const AC_CALIBRATION := 0.9086

  /** Admission keeps what is at least nearly as dense as a median session. */
  function AdmissionThreshold(prices: CostModel): real {
    AC_CALIBRATION * (0.5 * RecomputeTime(prices, AC_REFERENCE_TOKENS) / (512 * AC_REFERENCE_TOKENS) as real)
  }

  lemma ThresholdScales(p: CostModel, q: CostModel, factor: real)
    requires Proportional(p, q, factor)
    ensures AdmissionThreshold(q) == factor * AdmissionThreshold(p)
  {
    hide RecomputeTime;
    assert RecomputeTime(q, AC_REFERENCE_TOKENS) == factor * RecomputeTime(p, AC_REFERENCE_TOKENS);
  }

  /** The policy an experiment builds from the trace and from the cost model it is scored with. */
  function PolicyFor(name: PolicyName, events: seq<Event>, prices: CostModel): Policy {
    match name
    case NamedLru => Lru
    case NamedHeuristic(decay) => Heuristic(0.4, 0.4, 0.2, decay)
    case NamedLogisticV1(predict) => Predicted(predict)
    case NamedBelady => Belady(events)
    case NamedOracleV1 => OracleClassifier(events, 3600.0)
    case NamedOracleV3 => OracleSpaceTime(events, prices)
    case NamedSpaceTime(predict) => SpaceTime(predict, prices, 7200.0, 0.3)
    case NamedValueDensity(predict) => ValueDensity(predict, prices, 0.0)
    case NamedValueDensityAc(predict) => ValueDensity(predict, prices, AdmissionThreshold(prices))
  }

  /** The cost-model-free policies decide alike under any two cost models; the others under any two of one shape,
      whatever the GPU, its utilisation, the KV heads and the restore prices. */
  lemma PolicyIgnoresPrices(name: PolicyName, events: seq<Event>, p: CostModel, q: CostModel)
    requires name.CostBound() ==> p.Positive() && q.Positive() && SameShape(p, q)
    ensures Agree(PolicyFor(name, events, p), PolicyFor(name, events, q))
  {
    hide Agree;
    hide AdmissionThreshold;
    if name.CostBound() {
      CoefficientSigns(p, Hot);
      var factor := PerToken(q) / PerToken(p);
      ProportionalIffSameShape(p, q);
      match name
      case NamedOracleV3 => SpaceTimeIgnoresScale(events, p, q, factor);
      case NamedSpaceTime(predict) => EstimatedSpaceTimeIgnoresScale(predict, p, q, 7200.0, 0.3, factor);
      case NamedValueDensity(predict) => ValueDensityIgnoresScale(predict, p, q, 0.0, 0.0, factor);
      case NamedValueDensityAc(predict) =>
        ThresholdScales(p, q, factor);
        ValueDensityIgnoresScale(predict, p, q, AdmissionThreshold(p), AdmissionThreshold(q), factor);
    } else {
      AgreesWithItself(PolicyFor(name, events, p));
    }
  }

  lemma AgreesWithItself(p: Policy)
    ensures Agree(p, p)
  {
  }

  /** Re-pricing is exact for the cost-model-free policies under any two cost models, and for the cost-model-bound ones,
      which the script refuses, whenever the two models have one shape. */
  lemma RescoreByName(name: PolicyName, c: System, p: CostModel, q: CostModel, events: seq<Event>)
    requires name.CostBound() ==> p.Positive() && q.Positive() && SameShape(p, q)
    requires Replayed(c.(policy := PolicyFor(name, events, p)), p, events).ok
    ensures var a := Replayed(c.(policy := PolicyFor(name, events, p)), p, events);
      var b := Replayed(c.(policy := PolicyFor(name, events, q)), q, events);
      && b.ok && a.sim.tally.histogram == b.sim.tally.histogram
      && Priced(q, a.sim.tally.histogram) == b.sim.tally.gpuSeconds
  {
    PolicyIgnoresPrices(name, events, p, q);
    RescoreIsExact(c.(policy := PolicyFor(name, events, p)), c.(policy := PolicyFor(name, events, q)), p, q, events);
  }

  /** The script walks the histogram in any order. */
  method Rescore(prices: CostModel, h: Histogram) returns (gpuSeconds: real)
    ensures gpuSeconds == Priced(prices, h)
  {
    hide Cell;
    gpuSeconds := 0.0;
    var left := h;
    while left != map[]
      invariant gpuSeconds + Priced(prices, left) == Priced(prices, h)
      decreases |left|
    {
      var k :| k in left;
      SumRealsRemove(Worth(prices, left), k);
      WorthPut(prices, left, k, 0);
      gpuSeconds := gpuSeconds + Cell(prices, k, left[k]);
      left := left - {k};
    }
    assert Worth(prices, map[]) == map[];
  }
}
