/** Replaying a trace through the manager, crediting each hit, and re-pricing the hits afterwards. */
module Replay {
  import opened Types
  import opened Traces
  import opened CostModel
  import opened Policies
  import opened Cascade
  import opened Operations
  import opened Manager
  import RawBinary

  const TOKEN_CLAMP: nat := 8192
  const MAINTENANCE_INTERVAL := 300.0
  const SIM_MODEL := RawBinary.ModelConfig(2, 2, 32, 16, "float16")

  function Clamp(tokens: nat): nat {
    if tokens <= TOKEN_CLAMP then tokens else TOKEN_CLAMP
  }

  function ZeroTensor(tokens: nat): RawBinary.Tensor {
    RawBinary.Tensor(2, tokens, 32, RawBinary.F16, RawBinary.Zeros(RawBinary.TensorBytes(2, tokens, 32, RawBinary.F16)))
  }

  /** The dummy cache of a session: every layer's tensors, all zero. */
  function GenerateKvData(tokens: nat): RawBinary.KvData {
    var zeros := ZeroTensor(Clamp(tokens));
    map[0 := (zeros, zeros), 1 := (zeros, zeros)]
  }

  /** The blob stored for it: every token count up to the clamp serializes. */
  function SimBlob(tokens: nat): Blob {
    match RawBinary.Serialize(GenerateKvData(tokens), SIM_MODEL)
    case Ok(blob) => blob
    case Err(_) => []
  }

  // ---- Specification ----

  type Histogram = map<(nat, Tier), nat>

  datatype Tally = Tally(hits: nat, misses: nat, byTier: map<Tier, nat>, histogram: Histogram, gpuSeconds: real)

  datatype Sim = Sim(st: State, cached: map<Sid, nat>, lastMaintenance: real, tally: Tally)

  /** Not ok: the clock was asked to run backwards, or a save raised, and the experiment is abandoned. */
  datatype Progress = Progress(ok: bool, sim: Sim)

  const NO_HITS := Tally(0, 0, map[Hot := 0, Warm := 0, Cold := 0], map[], 0.0)

  function Count<K>(m: map<K, nat>, k: K): nat {
    if k in m then m[k] else 0
  }

  /** One resume: a hit is credited with the tokens that were cached and the tier they were found in. */
  function Credit(prices: CostModel, tally: Tally, hit: bool, tokens: nat, tier: Tier): Tally {
    if !hit then tally.(misses := tally.misses + 1)
    else
      Tally(tally.hits + 1, tally.misses,
            tally.byTier[tier := Count(tally.byTier, tier) + 1],
            tally.histogram[(tokens, tier) := Count(tally.histogram, (tokens, tier)) + 1],
            tally.gpuSeconds + SavingsPerHit(prices, tokens, tier))
  }

  ghost function Advance(c: System, sim: Sim, at: real): Sim {
    var ticked := sim.(st := sim.st.(now := at));
    if at - sim.lastMaintenance >= MAINTENANCE_INTERVAL then
      ticked.(st := Maintain(c, ticked.st), lastMaintenance := at)
    else ticked
  }

  ghost function Resumed(c: System, prices: CostModel, sim: Sim, s: Sid): Sim {
    var tier := if s in sim.st.index then sim.st.index[s].tier else Hot;
    var loaded := Load(c, sim.st, s);
    sim.(st := loaded.st, tally := Credit(prices, sim.tally, loaded.data.Some?, Count(sim.cached, s), tier))
  }

  ghost function Saved(c: System, sim: Sim, e: Event): Progress {
    var saved := Save(c, sim.st, e.sid, e.userId, SimBlob(e.tokenCount), Clamp(e.tokenCount));
    var cached := if saved.ok then sim.cached[e.sid := Clamp(e.tokenCount)] else sim.cached;
    Progress(saved.ok, sim.(st := saved.st, cached := cached))
  }

  ghost function Process(c: System, prices: CostModel, sim: Sim, e: Event): Progress {
    if e.timestamp < sim.st.now then Progress(false, sim)
    else
      var ready := Advance(c, sim, e.timestamp);
      match e.action
      case Start => Saved(c, ready, e)
      case Resume => Saved(c, Resumed(c, prices, ready, e.sid), e)
      case End => Progress(true, ready)
  }

  ghost function Replayed(c: System, prices: CostModel, events: seq<Event>): Progress {
    if events == [] then Progress(true, Sim(EMPTY, map[], 0.0, NO_HITS))
    else
      var before := Replayed(c, prices, events[..|events| - 1]);
      if before.ok then Process(c, prices, before.sim, events[|events| - 1]) else before
  }

  // ---- The experiment ----

  method RunExperiment(policy: Policy, hotCapacity: int, warmCapacity: int, coldCapacity: int, prices: CostModel,
          events: seq<Event>)
    returns (ok: bool, tally: Tally)
    ensures var c := Config(policy, hotCapacity, warmCapacity, coldCapacity, SIM_MODEL.blockSize);
      ok == Replayed(c, prices, events).ok && (ok ==> tally == Replayed(c, prices, events).sim.tally)
  {
    var manager := new TieredCacheManager(policy, hotCapacity, warmCapacity, coldCapacity, SIM_MODEL.blockSize);
    ghost var c: System := Config(policy, hotCapacity, warmCapacity, coldCapacity, SIM_MODEL.blockSize);
    hide Process;
    var cached: map<Sid, nat>, lastMaintenance := map[], 0.0;
    tally := NO_HITS;
    for i := 0 to |events|
      invariant manager.Valid() && manager.Sys() == c
      invariant fresh(manager) && fresh(manager.hot) && fresh(manager.warm) && fresh(manager.cold)
      invariant fresh(manager.index) && fresh(manager.policy) && fresh(manager.index.entries.Values)
      invariant Progress(true, Sim(manager.Abs(), cached, lastMaintenance, tally)) == Replayed(c, prices, events[..i])
    {
      assert events[..i + 1][..i] == events[..i];
      ok, cached, lastMaintenance, tally := ProcessEvent(manager, prices, cached, lastMaintenance, tally, events[i]);
      if !ok {
        FailureIsFinal(c, prices, events, i + 1);
        return;
      }
    }
    assert events[..|events|] == events;
    ok := true;
  }

  /** An experiment that has been abandoned stays abandoned. */
  lemma {:induction false} FailureIsFinal(c: System, prices: CostModel, events: seq<Event>, i: nat)
    requires i <= |events| && !Replayed(c, prices, events[..i]).ok
    ensures !Replayed(c, prices, events).ok
    decreases |events| - i
  {
    if i == |events| {
      assert events[..i] == events;
    } else {
      assert events[..i + 1][..i] == events[..i];
      FailureIsFinal(c, prices, events, i + 1);
    }
  }

  method AdvanceTo(manager: TieredCacheManager, ghost cached: map<Sid, nat>, lastMaintenance: real, ghost tally: Tally,
          at: real)
    returns (lastMaintenance': real)
    requires manager.Valid() && manager.now <= at
    modifies manager, manager.hot, manager.warm, manager.cold, manager.index, manager.policy
    modifies manager.index.entries.Values
    ensures manager.Valid()
    ensures forall o :: o in manager.index.entries.Values ==> o in old(manager.index.entries.Values) || fresh(o)
    ensures Sim(manager.Abs(), cached, lastMaintenance', tally)
         == Advance(manager.Sys(), old(Sim(manager.Abs(), cached, lastMaintenance, tally)), at)
  {
    hide Maintain;
    lastMaintenance' := lastMaintenance;
    manager.SetClock(at);
    if at - lastMaintenance >= MAINTENANCE_INTERVAL {
      manager.RunMaintenance();
      lastMaintenance' := at;
    }
  }

  method ResumeSession(manager: TieredCacheManager, prices: CostModel, ghost lastMaintenance: real,
          cached: map<Sid, nat>, tally: Tally, s: Sid)
    returns (tally': Tally)
    requires manager.Valid()
    modifies manager, manager.hot, manager.warm, manager.cold, manager.index, manager.policy
    modifies manager.index.entries.Values
    ensures manager.Valid()
    ensures forall o :: o in manager.index.entries.Values ==> o in old(manager.index.entries.Values) || fresh(o)
    ensures Sim(manager.Abs(), cached, lastMaintenance, tally')
         == Resumed(manager.Sys(), prices, old(Sim(manager.Abs(), cached, lastMaintenance, tally)), s)
  {
    hide Load;
    hide Credit;
    hide Count;
    var tier := if s in manager.index.entries then manager.index.entries[s].tier else Hot;
    var data := manager.Load(s);
    tally' := Credit(prices, tally, data.Some?, Count(cached, s), tier);
  }

  method ProcessEvent(manager: TieredCacheManager, prices: CostModel, cached: map<Sid, nat>, lastMaintenance: real,
          tally: Tally, e: Event)
    returns (ok: bool, cached': map<Sid, nat>, lastMaintenance': real, tally': Tally)
    requires manager.Valid()
    modifies manager, manager.hot, manager.warm, manager.cold, manager.index, manager.policy
    modifies manager.index.entries.Values
    ensures manager.Valid()
    ensures forall o :: o in manager.index.entries.Values ==> o in old(manager.index.entries.Values) || fresh(o)
    ensures Progress(ok, Sim(manager.Abs(), cached', lastMaintenance', tally'))
         == Process(manager.Sys(), prices, old(Sim(manager.Abs(), cached, lastMaintenance, tally)), e)
  {
    hide Advance;
    hide Save;
    hide Resumed;
    hide SimBlob;
    hide Clamp;
    cached', lastMaintenance', tally' := cached, lastMaintenance, tally;
    if e.timestamp < manager.now {
      ok := false;
      return;
    }
    lastMaintenance' := AdvanceTo(manager, cached, lastMaintenance, tally, e.timestamp);
    if e.action == End {
      ok := true;
      return;
    }
    if e.action == Resume {
      tally' := ResumeSession(manager, prices, lastMaintenance', cached, tally, e.sid);
    }
    ok := manager.Save(e.sid, e.userId, SimBlob(e.tokenCount), Clamp(e.tokenCount));
    if ok {
      cached' := cached[e.sid := Clamp(e.tokenCount)];
    }
  }
}
