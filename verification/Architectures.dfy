/** The model geometries shipped with the experiments, and what the cost model says of them. */
module Architectures {
  import opened Types
  import opened CostModel
  import Reals

  datatype Shipped = TinyLlama | Llama7B | Llama70B {
    function Spec(): ModelSpec {
      match this
      case TinyLlama => ModelSpec(1.1, 22, 32, 4, 64)
      case Llama7B => ModelSpec(7.0, 32, 32, 32, 128)
      case Llama70B => ModelSpec(70.0, 80, 64, 8, 128)
    }

    /** Priced as experiments price it: an A100, an NVMe disk and an object store. */
    function Model(): CostModel {
      Prices(Spec(), GpuSpec(312000000000000.0, 0.45), 0.0001,
             StorageSpec(0.01, 2000000000.0), StorageSpec(0.1, 500000000.0))
    }
  }

  // ---- Which heads cost what ----

  function WithHeads(m: CostModel, qHeads: nat, kvHeads: nat): CostModel {
    m.(spec := m.spec.(qHeads := qHeads, kvHeads := kvHeads))
  }

  /** Restoring takes time in proportion to the KV heads, whatever the query heads. */
  lemma RestoreFollowsKvHeads(m: CostModel, tier: Tier, n: nat, qHeads: nat, kvHeads: nat)
    requires tier != Hot
    ensures var one, many := WithHeads(m, m.spec.qHeads, 1), WithHeads(m, qHeads, kvHeads);
      RestoreTime(many, tier, n) - Latency(m, tier) == kvHeads as real * (RestoreTime(one, tier, n) - Latency(m, tier))
  {
    var one, many := WithHeads(m, m.spec.qHeads, 1), WithHeads(m, qHeads, kvHeads);
    var bandwidth := if tier == Warm then m.warm.bandwidth else m.cold.bandwidth;
    BytesByHead(m.spec, qHeads, kvHeads, n);
    MultipleQuotient(kvHeads as real, KvBytes(one, n), bandwidth);
    assert KvBytes(many, n) == kvHeads as real * KvBytes(one, n);
  }

  lemma BytesByHead(spec: ModelSpec, qHeads: nat, kvHeads: nat, n: nat)
    ensures var one, many := spec.(kvHeads := 1), spec.(qHeads := qHeads, kvHeads := kvHeads);
      && many.KvBytesPerToken() == kvHeads * one.KvBytesPerToken()
      && (many.KvBytesPerToken() * n) as real == kvHeads as real * (one.KvBytesPerToken() * n) as real
  {
    var one, many := spec.(kvHeads := 1), spec.(qHeads := qHeads, kvHeads := kvHeads);
    var l, d := spec.layers, spec.headDim;
    ByHead(l, d, kvHeads);
    Cast(kvHeads, one.KvBytesPerToken(), n);
  }

  lemma ByHead(l: nat, d: nat, heads: nat)
    ensures 2 * l * heads * d * 2 == heads * (2 * l * 1 * d * 2)
  {
  }

  lemma Cast(k: nat, b: nat, n: nat)
    ensures ((k * b) * n) as real == k as real * (b * n) as real
  {
    assert (k * b) * n == k * (b * n);
  }

  lemma MultipleQuotient(k: real, x: real, d: real)
    requires d > 0.0
    ensures k * x / d == k * (x / d)
  {
  }

  /** The attention part of prefilling is in proportion to the query heads, whatever the KV heads; the rest is not. */
  lemma PrefillFollowsQueryHeads(spec: ModelSpec, x: real, qHeads: nat, kvHeads: nat)
    ensures var none, one := spec.(qHeads := 0), spec.(qHeads := 1);
      var many := spec.(qHeads := qHeads, kvHeads := kvHeads);
      && none.PrefillFlops(x) == 2.0 * spec.paramsB * 1000000000.0 * x
      && many.PrefillFlops(x) - none.PrefillFlops(x) == qHeads as real * (one.PrefillFlops(x) - none.PrefillFlops(x))
  {
    var l, d := spec.layers, spec.headDim;
    assert l * qHeads * d == qHeads * (l * 1 * d);
    var a, b := (l * 1 * d) as real, qHeads as real;
    assert (l * qHeads * d) as real == b * a;
    assert 4.0 * (b * a) * x * x == b * (4.0 * a * x * x);
  }

  /** Key and value, two bytes each, per layer, KV head and dimension. */
  lemma PublishedGeometry()
    ensures TinyLlama.Spec().KvBytesPerToken() == 22528
    ensures Llama7B.Spec().KvBytesPerToken() == 524288
    ensures Llama70B.Spec().KvBytesPerToken() == 327680
  {
  }

  // ---- Linear and quadratic parts ----

  /** Attention overtakes the weights at 2P / 4LHd tokens, on any GPU. */
  lemma AttentionOvertakes(m: CostModel, n: nat)
    requires m.Positive() && n >= 1
    ensures PerPair(m) * n as real * n as real > PerToken(m) * n as real
       <==> 4.0 * (m.spec.layers * m.spec.qHeads * m.spec.headDim) as real * n as real
            > 2.0 * m.spec.paramsB * 1000000000.0
  {
    var f, x := m.gpu.EffectiveFlops(), n as real;
    var w, a := 2.0 * m.spec.paramsB * 1000000000.0, 4.0 * (m.spec.layers * m.spec.qHeads * m.spec.headDim) as real;
    Reals.Positive(m.gpu.peakFlops, m.gpu.mfu);
    OvertakesIff(w, a, f, x);
  }

  lemma OvertakesIff(w: real, a: real, f: real, x: real)
    requires f > 0.0 && x > 0.0
    ensures a / f * x * x > w / f * x <==> a * x > w
  {
    var p, q := a / f, w / f;
    Reals.Quotient(a, f);
    Reals.Quotient(w, f);
    Reals.TimesOrder(x, q, p * x);
    Reals.TimesOrder(f, q, p * x);
    assert f * (p * x) == a * x;
  }

  /** Between twelve and fifty-four thousand tokens, model by model. */
  lemma PublishedCrossovers(m: Shipped)
    ensures var n := match m case TinyLlama => 12207 case Llama7B => 26702 case Llama70B => 53405;
      && PerPair(m.Model()) * n as real * n as real <= PerToken(m.Model()) * n as real
      && PerPair(m.Model()) * (n + 1) as real * (n + 1) as real > PerToken(m.Model()) * (n + 1) as real
  {
    var n := match m case TinyLlama => 12207 case Llama7B => 26702 case Llama70B => 53405;
    AttentionOvertakes(m.Model(), n);
    AttentionOvertakes(m.Model(), n + 1);
    hide PerPair;
    hide PerToken;
  }

  /** Twice the context costs more than twice and less than four times the prefill. */
  lemma BetweenLinearAndQuadratic(m: CostModel, n: nat)
    requires m.Positive() && n >= 1
    ensures 2.0 * RecomputeTime(m, n) < RecomputeTime(m, 2 * n) < 4.0 * RecomputeTime(m, n)
    ensures RecomputeTime(m, 0) == 0.0 && RecomputeTime(m, -(n as int)) == 0.0
  {
    RecomputeAt(m, n);
    RecomputeAt(m, 2 * n);
    CoefficientSigns(m, Hot);
    var w, q, x := PerToken(m), PerPair(m), n as real;
    hide PerToken;
    hide PerPair;
    Reals.Positive(w, x);
    Reals.Positive(q, x);
    Reals.Positive(q * x, x);
    Twice(w, q, x);
  }

  lemma Twice(w: real, q: real, x: real)
    ensures w * (2.0 * x) + q * (2.0 * x) * (2.0 * x) == 2.0 * (w * x) + 4.0 * (q * x * x)
  {
  }

  // ---- Break-even ----

  lemma CrossoverAt(m: CostModel, tier: Tier, n: nat, from: nat, limit: int)
    requires m.Positive() && 1 <= from <= n < limit
    requires Net(m, n, tier) > 0.0 && (n > 1 ==> Net(m, n - 1, tier) <= 0.0)
    ensures Crossover(m, tier, from, limit) == Some(n)
  {
    hide Net;
    hide Crossover;
    var first := Crossover(m, tier, from, limit);
    if first.Some? && first.value < n {
      BreakEvenUpwardClosed(m, tier, first.value, n - 1);
    }
  }

  function PublishedBreakEven(m: Shipped, tier: Tier): nat {
    match (m, tier)
    case (_, Hot) => 1
    case (TinyLlama, Warm) => 1561
    case (TinyLlama, Cold) => 25901
    case (Llama7B, Warm) => 43559
    case (Llama7B, Cold) => 254203
    case (Llama70B, Warm) => 12
    case (Llama70B, Cold) => 289
  }

  lemma NetAtPublished(m: Shipped, tier: Tier)
    requires tier != Hot
    ensures m.Model().Positive()
    ensures Net(m.Model(), PublishedBreakEven(m, tier), tier) > 0.0
    ensures Net(m.Model(), PublishedBreakEven(m, tier) - 1, tier) <= 0.0
  {
  }

  /** The published table of break-even lengths, which is what the binary search returns. */
  lemma PublishedTable(m: Shipped, tier: Tier)
    requires tier != Hot
    ensures Crossover(m.Model(), tier, 1, SCAN_LIMIT + 1) == Some(PublishedBreakEven(m, tier))
  {
    hide Net;
    hide Crossover;
    NetAtPublished(m, tier);
    CrossoverAt(m.Model(), tier, PublishedBreakEven(m, tier), 1, SCAN_LIMIT + 1);
  }

  /** The hotter the tier, the more a hit saves, at every length. */
  lemma HotterSavesMore(m: Shipped, n: nat)
    ensures SavingsPerHit(m.Model(), n, Hot) >= SavingsPerHit(m.Model(), n, Warm)
    ensures SavingsPerHit(m.Model(), n, Warm) >= SavingsPerHit(m.Model(), n, Cold) >= 0.0
  {
    hide RecomputeTime;
    var bytes := KvBytes(m.Model(), n);
    assert bytes >= 0.0;
    hide KvBytes;
  }
}
