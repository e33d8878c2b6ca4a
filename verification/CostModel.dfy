/** Prefill, restore and the GPU-seconds a cache hit is worth, in exact reals. */
module CostModel {
  import opened Types

  datatype ModelSpec = ModelSpec(paramsB: real, layers: nat, qHeads: nat, kvHeads: nat, headDim: nat) {
    function KvBytesPerToken(): nat {
      2 * layers * kvHeads * headDim * 2
    }

    function PrefillFlops(n: real): real {
      2.0 * paramsB * 1000000000.0 * n + 4.0 * (layers * qHeads * headDim) as real * n * n
    }
  }

  datatype GpuSpec = GpuSpec(peakFlops: real, mfu: real) {
    function EffectiveFlops(): real {
      peakFlops * mfu
    }
  }

  datatype StorageSpec = StorageSpec(latency: real, bandwidth: real) {
    function TransferTime(sizeBytes: real): real
      requires bandwidth > 0.0
    {
      latency + sizeBytes / bandwidth
    }
  }

  datatype Prices = Prices(spec: ModelSpec, gpu: GpuSpec, hotLatency: real, warm: StorageSpec, cold: StorageSpec) {
    ghost predicate Positive() {
      && spec.paramsB > 0.0 && spec.layers * spec.qHeads * spec.headDim > 0
      && gpu.peakFlops > 0.0 && gpu.mfu > 0.0
      && hotLatency >= 0.0
      && warm.latency >= 0.0 && warm.bandwidth > 0.0
      && cold.latency >= 0.0 && cold.bandwidth > 0.0
    }

    predicate Usable() {
      gpu.EffectiveFlops() != 0.0 && warm.bandwidth > 0.0 && cold.bandwidth > 0.0
    }
  }

  /** A cost model that divides by nothing that is zero. */
  type CostModel = p: Prices | p.Usable()
    witness Prices(ModelSpec(1.0, 1, 1, 1, 1), GpuSpec(1.0, 1.0), 0.0, StorageSpec(0.0, 1.0), StorageSpec(0.0, 1.0))

  function RecomputeTime(m: CostModel, tokens: int): real {
    if tokens <= 0 then 0.0 else m.spec.PrefillFlops(tokens as real) / m.gpu.EffectiveFlops()
  }

  function KvBytes(m: CostModel, tokens: int): real {
    (m.spec.KvBytesPerToken() * (if tokens > 0 then tokens else 0)) as real
  }

  function RestoreTime(m: CostModel, tier: Tier, tokens: int): real {
    match tier
    case Hot => m.hotLatency
    case Warm => m.warm.TransferTime(KvBytes(m, tokens))
    case Cold => m.cold.TransferTime(KvBytes(m, tokens))
  }

  function Net(m: CostModel, tokens: int, tier: Tier): real {
    RecomputeTime(m, tokens) - RestoreTime(m, tier, tokens)
  }

  /** Seconds saved by one hit: never negative, a losing restore is simply not done. */
  function SavingsPerHit(m: CostModel, tokens: int, tier: Tier): real {
    if Net(m, tokens, tier) > 0.0 then Net(m, tokens, tier) else 0.0
  }

  // ---- The shape of the curve ----

  /** Prefill minus restore, as weights*n + scores*n*n - (latency + transfer*n). */
  ghost function Curve(weights: real, scores: real, latency: real, transfer: real, n: real): real {
    weights * n + scores * n * n - latency - transfer * n
  }

  ghost function PerToken(m: CostModel): real {
    2.0 * m.spec.paramsB * 1000000000.0 / m.gpu.EffectiveFlops()
  }

  ghost function PerPair(m: CostModel): real {
    4.0 * (m.spec.layers * m.spec.qHeads * m.spec.headDim) as real / m.gpu.EffectiveFlops()
  }

  ghost function Latency(m: CostModel, tier: Tier): real {
    match tier
    case Hot => m.hotLatency
    case Warm => m.warm.latency
    case Cold => m.cold.latency
  }

  ghost function Transfer(m: CostModel, tier: Tier): real {
    match tier
    case Hot => 0.0
    case Warm => m.spec.KvBytesPerToken() as real / m.warm.bandwidth
    case Cold => m.spec.KvBytesPerToken() as real / m.cold.bandwidth
  }

  lemma CoefficientSigns(m: CostModel, tier: Tier)
    requires m.Positive()
    ensures PerToken(m) > 0.0 && PerPair(m) > 0.0 && Latency(m, tier) >= 0.0
  {
  }

  lemma RecomputeAt(m: CostModel, n: nat)
    ensures RecomputeTime(m, n) == PerToken(m) * n as real + PerPair(m) * n as real * n as real
  {
  }

  lemma RestoreAt(m: CostModel, tier: Tier, n: nat)
    ensures RestoreTime(m, tier, n) == Latency(m, tier) + Transfer(m, tier) * n as real
  {
  }

  lemma NetAt(m: CostModel, tier: Tier, n: nat)
    ensures Net(m, n, tier) == Curve(PerToken(m), PerPair(m), Latency(m, tier), Transfer(m, tier), n as real)
  {
    RecomputeAt(m, n);
    RestoreAt(m, tier, n);
    hide RecomputeTime;
    hide RestoreTime;
    hide PerToken;
    hide PerPair;
    hide Transfer;
  }

  /** Per token the curve only rises: net(large)/large >= net(small)/small. */
  lemma CurvePerToken(weights: real, scores: real, latency: real, transfer: real, small: real, large: real,
          atSmall: real, atLarge: real)
    requires scores >= 0.0 && latency >= 0.0 && 0.0 < small <= large
    requires atSmall == Curve(weights, scores, latency, transfer, small)
    requires atLarge == Curve(weights, scores, latency, transfer, large)
    ensures small * atLarge >= large * atSmall
  {
    var gap := large - small;
    assert small * atLarge - large * atSmall == scores * (small * large) * gap + latency * gap;
    assert small * large >= 0.0;
    assert scores * (small * large) >= 0.0;
    assert scores * (small * large) * gap >= 0.0;
    assert latency * gap >= 0.0;
  }

  lemma NetPerToken(m: CostModel, tier: Tier, small: nat, large: nat)
    requires m.Positive() && 1 <= small <= large
    ensures small as real * Net(m, large, tier) >= large as real * Net(m, small, tier)
  {
    hide Net;
    hide PerToken;
    hide PerPair;
    hide Latency;
    hide Transfer;
    hide Curve;
    NetAt(m, tier, small);
    NetAt(m, tier, large);
    CoefficientSigns(m, tier);
    CurvePerToken(PerToken(m), PerPair(m), Latency(m, tier), Transfer(m, tier), small as real, large as real,
                  Net(m, small, tier), Net(m, large, tier));
  }

  /** Once prefill costs more than restore it does so for every longer context. */
  lemma BreakEvenUpwardClosed(m: CostModel, tier: Tier, small: nat, large: nat)
    requires m.Positive() && 1 <= small <= large && Net(m, small, tier) > 0.0
    ensures Net(m, large, tier) > 0.0
  {
    NetPerToken(m, tier, small, large);
    PositiveFactor(small as real, Net(m, large, tier), large as real * Net(m, small, tier));
  }

  /** One hit on a context k times as long is worth at least k hits on the short one, at every tier. */
  lemma SavingsSuperlinear(m: CostModel, tier: Tier, k: nat, n: nat)
    requires m.Positive() && k >= 1
    ensures SavingsPerHit(m, k * n, tier) >= k as real * SavingsPerHit(m, n, tier)
  {
    hide *;
    SavingsAre(m, n, tier);
    SavingsAre(m, k * n, tier);
    if Net(m, n, tier) > 0.0 {
      NetPerToken(m, tier, n, k * n);
      MultipleOf(n as real, k as real, (k * n) as real, Net(m, n, tier), Net(m, k * n, tier));
    }
  }

  lemma SavingsAre(m: CostModel, n: nat, tier: Tier)
    requires m.Positive()
    ensures SavingsPerHit(m, n, tier) == if Net(m, n, tier) > 0.0 then Net(m, n, tier) else 0.0
    ensures Net(m, n, tier) > 0.0 ==> n >= 1
  {
  }

  lemma MultipleOf(n: real, k: real, kn: real, atN: real, atKn: real)
    requires n > 0.0 && kn == k * n && n * atKn >= kn * atN
    ensures atKn >= k * atN
  {
  }

  lemma PositiveFactor(s: real, a: real, lower: real)
    requires s > 0.0 && s * a >= lower > 0.0
    ensures a > 0.0
  {
  }

  // ---- Break-even length: linear scan and binary search ----

  /** First context length in [from, limit) whose prefill exceeds its restore. */
  ghost function Crossover(m: CostModel, tier: Tier, from: nat, limit: int): (r: Option<nat>)
    ensures r.Some? ==> from <= r.value < limit && Net(m, r.value, tier) > 0.0
    ensures forall n :: from <= n < (if r.Some? then r.value else limit) ==> Net(m, n, tier) <= 0.0
    decreases limit - from
  {
    if from >= limit then None
    else if Net(m, from, tier) > 0.0 then Some(from)
    else Crossover(m, tier, from + 1, limit)
  }

  /** The binary search finds what the linear scan over 1..maxTokens finds. */
  method BreakevenTokens(m: CostModel, tier: Tier, maxTokens: int) returns (r: Option<nat>)
    requires m.Positive()
    ensures r == Crossover(m, tier, 1, maxTokens + 1)
  {
    var lo, hi := 1, maxTokens;
    if SavingsPerHit(m, hi, tier) <= 0.0 {
      ghost var first := Crossover(m, tier, 1, maxTokens + 1);
      if first.Some? {
        BreakEvenUpwardClosed(m, tier, first.value, maxTokens);
      }
      return None;
    }
    assert hi <= 0 ==> Net(m, hi, tier) <= 0.0;
    while lo < hi
      invariant 1 <= lo <= hi <= maxTokens
      invariant Net(m, hi, tier) > 0.0
      invariant forall n :: 1 <= n < lo ==> Net(m, n, tier) <= 0.0
    {
      var mid := (lo + hi) / 2;
      if SavingsPerHit(m, mid, tier) > 0.0 {
        hi := mid;
      } else {
        forall n | 1 <= n <= mid
          ensures Net(m, n, tier) <= 0.0
        {
          if Net(m, n, tier) > 0.0 {
            BreakEvenUpwardClosed(m, tier, n, mid);
          }
        }
        lo := mid + 1;
      }
    }
    r := Some(lo);
  }

  const SCAN_LIMIT := 300000

  /** The figure's scan stops one short of the search's default range, and can miss the crossover there only: prefill
      must still be no dearer than restore at 299,999 tokens and be dearer at 300,000. */
  lemma SearchAndScanDifferIff(m: CostModel, tier: Tier)
    requires m.Positive()
    ensures Crossover(m, tier, 1, SCAN_LIMIT + 1) != Crossover(m, tier, 1, SCAN_LIMIT)
       <==> Net(m, SCAN_LIMIT - 1, tier) <= 0.0 && Net(m, SCAN_LIMIT, tier) > 0.0
  {
    hide Net;
    hide Crossover;
    ScanOneFurther(m, tier, 1, SCAN_LIMIT);
    var first := Crossover(m, tier, 1, SCAN_LIMIT);
    if first.Some? {
      BreakEvenUpwardClosed(m, tier, first.value, SCAN_LIMIT - 1);
    }
  }

  /** A disk on which the two differ: its latency is what prefilling 299,999 tokens costs beyond their transfer. */
  function SlowDisk(): (m: CostModel)
    ensures m.Positive() && m.spec == ModelSpec(1.0, 1, 1, 1, 1) && m.gpu == GpuSpec(1.0, 1.0)
    ensures m.warm == StorageSpec(599998000000000.0 + 359997600004.0 - 299999.0, 4.0)
  {
    Prices(ModelSpec(1.0, 1, 1, 1, 1), GpuSpec(1.0, 1.0), 0.0,
           StorageSpec(599998000000000.0 + 359997600004.0 - 299999.0, 4.0), StorageSpec(0.0, 1.0))
  }

  lemma ScanMissesTheLast()
    ensures Crossover(SlowDisk(), Warm, 1, SCAN_LIMIT + 1) == Some(SCAN_LIMIT)
    ensures Crossover(SlowDisk(), Warm, 1, SCAN_LIMIT) == None
  {
    var m := SlowDisk();
    assert Net(m, SCAN_LIMIT - 1, Warm) <= 0.0 && Net(m, SCAN_LIMIT, Warm) > 0.0;
    hide Net;
    hide Crossover;
    SearchAndScanDifferIff(m, Warm);
    ScanOneFurther(m, Warm, 1, SCAN_LIMIT);
  }

  lemma ScanOneFurther(m: CostModel, tier: Tier, from: nat, limit: nat)
    requires from <= limit
    ensures Crossover(m, tier, from, limit + 1)
         == if Crossover(m, tier, from, limit).Some? then Crossover(m, tier, from, limit)
            else if Net(m, limit, tier) > 0.0 then Some(limit)
            else None
    decreases limit - from
  {
  }
}
