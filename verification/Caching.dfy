/** A replay is a run of the manager: what it leaves cached, what it hits, and when it does maintenance. */
module Caching {
  import opened Types
  import opened Sums
  import opened Traces
  import opened CostModel
  import opened Cascade
  import opened Operations
  import opened Coherence
  import opened Descent
  import opened Entries
  import opened Replay
  import opened Pricing

  // ---- The operations of a trace ----

  /** No event is earlier than the one before, nor than the clock's start. */
  predicate InOrder(events: seq<Event>) {
    events != [] ==> InOrder(events[..|events| - 1]) && Now(events) >= Now(events[..|events| - 1])
  }

  function Now(events: seq<Event>): real {
    if events == [] then 0.0 else events[|events| - 1].timestamp
  }

  /** When maintenance last ran: at the first event at least five minutes after it ran before. */
  function LastPass(events: seq<Event>): real {
    if events == [] then 0.0
    else
      var at, before := Now(events), LastPass(events[..|events| - 1]);
      if at >= before + 300.0 then at else before
  }

  function CacheIt(e: Event): Op {
    DoSave(e.sid, e.userId, SimBlob(e.tokenCount), Clamp(e.tokenCount))
  }

  /** What one event asks of the manager: maintenance if it is due, and its session cached afresh, hit or miss. */
  function EventOps(e: Event, due: bool): seq<Op> {
    [Tick(e.timestamp)] + (if due then [DoMaintain] else [])
    + match e.action
      case Start => [CacheIt(e)]
      case Resume => [DoLoad(e.sid), CacheIt(e)]
      case End => []
  }

  function Script(events: seq<Event>): seq<Op> {
    if events == [] then []
    else
      var init, e := events[..|events| - 1], events[|events| - 1];
      Script(init) + EventOps(e, e.timestamp >= LastPass(init) + 300.0)
  }

  // ---- A replay is that run ----

  /** Operations done one after another, until one raises. */
  ghost function Steps(c: System, st: State, ops: seq<Op>): Outcome
    decreases |ops|
  {
    if ops == [] then Outcome(true, st)
    else
      var next := Step(c, st, ops[0]);
      if next.ok then Steps(c, next.st, ops[1..]) else next
  }

  lemma {:induction false} RunSteps(c: System, ops: seq<Op>, more: seq<Op>)
    requires Run(c, ops).ok
    ensures Run(c, ops + more) == Steps(c, Run(c, ops).st, more) || !Run(c, ops + more).ok
    ensures Run(c, ops + more).ok == Steps(c, Run(c, ops).st, more).ok
    decreases |more|
  {
    hide Step;
    hide Run;
    if more == [] {
      assert ops + more == ops;
    } else {
      var first := ops + [more[0]];
      RunOne(c, ops, more[0]);
      assert first + more[1..] == ops + more;
      if Run(c, first).ok {
        RunSteps(c, first, more[1..]);
      } else {
        RaisedForGood(c, first, more[1..]);
      }
    }
  }

  lemma RunOne(c: System, ops: seq<Op>, op: Op)
    requires Run(c, ops).ok
    ensures Run(c, ops + [op]) == Step(c, Run(c, ops).st, op)
  {
    hide Step;
    assert (ops + [op])[..|ops|] == ops;
  }

  lemma {:induction false} RaisedForGood(c: System, ops: seq<Op>, more: seq<Op>)
    requires !Run(c, ops).ok
    ensures !Run(c, ops + more).ok
    decreases |more|
  {
    hide Step;
    if more == [] {
      assert ops + more == ops;
    } else {
      var n := |more| - 1;
      RaisedForGood(c, ops, more[..n]);
      assert (ops + more)[..|ops + more| - 1] == ops + more[..n];
    }
  }

  /** One event, as the steps it consists of. */
  lemma ProcessSteps(c: System, prices: CostModel, sim: Sim, e: Event)
    requires e.timestamp >= sim.st.now
    ensures var after := Process(c, prices, sim, e);
      var due := e.timestamp >= sim.lastMaintenance + 300.0;
      && Steps(c, sim.st, EventOps(e, due)) == Outcome(after.ok, after.sim.st)
      && after.sim.lastMaintenance == (if due then e.timestamp else sim.lastMaintenance)
  {
    hide Maintain;
    hide Save;
    hide Load;
    hide SimBlob;
    var due := e.timestamp >= sim.lastMaintenance + 300.0;
    var ops, ticked := EventOps(e, due), sim.st.(now := e.timestamp);
    var ready := if due then Maintain(c, ticked) else ticked;
    assert Advance(c, sim, e.timestamp).st == ready;
    var rest := ops[if due then 2 else 1..];
    StepsTwice(c, sim.st, ops, rest, due, ready, e.timestamp);
    hide Advance;
    LastSteps(c, ready, e, rest);
  }

  lemma StepsTwice(c: System, st: State, ops: seq<Op>, rest: seq<Op>, due: bool, ready: State, at: real)
    requires ops == [Tick(at)] + (if due then [DoMaintain] else []) + rest
    requires ready == if due then Maintain(c, st.(now := at)) else st.(now := at)
    ensures Steps(c, st, ops) == Steps(c, ready, rest)
  {
    hide Maintain;
    hide Save;
    hide Load;
    if due {
      assert ops[1..] == [DoMaintain] + rest && ops[1..][1..] == rest;
    } else {
      assert ops[1..] == rest;
    }
  }

  lemma LastSteps(c: System, ready: State, e: Event, rest: seq<Op>)
    requires rest == match e.action
                     case Start => [CacheIt(e)]
                     case Resume => [DoLoad(e.sid), CacheIt(e)]
                     case End => []
    ensures Steps(c, ready, rest)
         == match e.action
            case Start => Step(c, ready, CacheIt(e))
            case Resume => Step(c, Load(c, ready, e.sid).st, CacheIt(e))
            case End => Outcome(true, ready)
  {
    hide Save;
    hide Load;
    hide CacheIt;
    StepsOne(c, ready, CacheIt(e));
    if e.action == Resume {
      StepsOne(c, Load(c, ready, e.sid).st, CacheIt(e));
      assert rest[1..] == [CacheIt(e)];
    }
  }

  lemma StepsOne(c: System, st: State, op: Op)
    ensures Steps(c, st, [op]) == Step(c, st, op)
  {
    hide Step;
    assert [op][1..] == [];
  }

  /** Every replay is the run of its script: it is abandoned exactly when the clock would run backwards or that run
      raises, and otherwise leaves the same state. */
  lemma {:induction false} ReplayIsRun(c: System, prices: CostModel, events: seq<Event>)
    ensures Replayed(c, prices, events).ok <==> InOrder(events) && Run(c, Script(events)).ok
    ensures Replayed(c, prices, events).ok ==>
      var sim := Replayed(c, prices, events).sim;
      sim.st == Run(c, Script(events)).st && sim.st.now == Now(events) && sim.lastMaintenance == LastPass(events)
    decreases |events|
  {
    hide Process;
    hide Run;
    hide Step;
    hide EventOps;
    if events == [] {
      NothingRun(c, []);
      EmptyRun(c);
    } else {
      var init, e := events[..|events| - 1], events[|events| - 1];
      var ops := EventOps(e, e.timestamp >= LastPass(init) + 300.0);
      ReplayIsRun(c, prices, init);
      if Replayed(c, prices, init).ok {
        var sim := Replayed(c, prices, init).sim;
        if e.timestamp >= Now(init) {
          ProcessSteps(c, prices, sim, e);
          ProcessTime(c, prices, sim, e);
          RunSteps(c, Script(init), ops);
        } else {
          ClockRunsBack(c, prices, sim, e);
        }
      } else if InOrder(init) {
        RaisedForGood(c, Script(init), ops);
      }
    }
  }

  lemma EmptyRun(c: System)
    ensures Run(c, []) == Outcome(true, EMPTY)
  {
  }

  lemma ClockRunsBack(c: System, prices: CostModel, sim: Sim, e: Event)
    requires e.timestamp < sim.st.now
    ensures !Process(c, prices, sim, e).ok
  {
  }

  lemma ProcessTime(c: System, prices: CostModel, sim: Sim, e: Event)
    requires e.timestamp >= sim.st.now
    ensures Process(c, prices, sim, e).sim.st.now == e.timestamp
  {
    hide Maintain;
    hide Save;
    hide Load;
    hide SimBlob;
    var ticked := sim.st.(now := e.timestamp);
    MaintainOnlyMoves(c, ticked, e.sid);
    var ready := Advance(c, sim, e.timestamp).st;
    LoadStamps(c, ready, e.sid, e.sid);
    var loaded := if e.action == Resume then Load(c, ready, e.sid).st else ready;
    SaveTime(c, loaded, e.sid, e.userId, SimBlob(e.tokenCount), Clamp(e.tokenCount));
  }

  lemma SaveTime(c: System, st: State, s: Sid, user: string, data: Blob, tokens: nat)
    ensures Save(c, st, s, user, data, tokens).st.now == st.now
  {
    hide Save;
    hide SaveSpot;
    SaveRenews(c, st, s, user, data, tokens, s);
  }

  // ---- Maintenance ----

  /** After every event the last pass is less than five minutes old. */
  lemma {:induction false} PassIsRecent(events: seq<Event>)
    requires InOrder(events)
    ensures 0.0 <= LastPass(events) <= Now(events) < LastPass(events) + 300.0
    decreases |events|
  {
    if events != [] {
      PassIsRecent(events[..|events| - 1]);
    }
  }

  /** And passes are at least five minutes apart. */
  lemma PassesAreApart(events: seq<Event>)
    requires events != []
    ensures var before, after := LastPass(events[..|events| - 1]), LastPass(events);
      after == before || (after == Now(events) && after - before >= 300.0)
  {
  }

  // ---- What is cached ----

  /** Tokens of each session's latest start or resume. */
  function Latest(events: seq<Event>): map<Sid, nat> {
    if events == [] then map[]
    else
      var e := events[|events| - 1];
      var before := Latest(events[..|events| - 1]);
      if e.action == End then before else before[e.sid := e.tokenCount]
  }

  /** The session is indexed with the event's tokens, and its tier holds the blob they make. */
  ghost predicate Cached(st: State, s: Sid, tokens: nat) {
    && s in st.index && st.index[s].tokenCount == Clamp(tokens)
    && s in st.In(st.index[s].tier) && st.In(st.index[s].tier)[s] == SimBlob(tokens)
  }

  lemma SaveCaches(c: System, st: State, e: Event)
    requires Healthy(c, st) && Step(c, st, CacheIt(e)).ok
    ensures Cached(Step(c, st, CacheIt(e)).st, e.sid, e.tokenCount)
  {
    hide SimBlob;
    hide Save;
    hide Sound;
    var data := SimBlob(e.tokenCount);
    var last: Store :| Sound(c, st, last) && NothingEmpty(last);
    StepKeeps(c, st, CacheIt(e), last);
    SaveKeepsOtherTokens(c, st, e.sid, e.userId, data, Clamp(e.tokenCount));
    SoundIsNewest(c, Step(c, st, CacheIt(e)).st, last[e.sid := data], e.sid);
  }

  lemma SoundIsNewest(c: System, st: State, last: Store, s: Sid)
    requires Sound(c, st, last) && s in st.index
    ensures Newest(st, last, s)
  {
  }

  /** After a start or a resume, hit or miss, the event's session is cached as the event gives it. */
  lemma ProcessCaches(c: System, prices: CostModel, sim: Sim, e: Event)
    requires Ledger(c, prices, sim) && Process(c, prices, sim, e).ok && e.action != End
    ensures var after := Process(c, prices, sim, e).sim;
      && Ledger(c, prices, after) && Cached(after.st, e.sid, e.tokenCount)
      && e.sid in after.cached && after.cached[e.sid] == Clamp(e.tokenCount)
  {
    hide Load;
    hide Save;
    hide Maintain;
    hide SimBlob;
    hide Cached;
    hide Balanced;
    hide Healthy;
    ProcessKeepsLedger(c, prices, sim, e);
    AdvanceKeepsLedger(c, prices, sim, e.timestamp);
    var ready := Advance(c, sim, e.timestamp);
    hide Advance;
    if e.action == Start {
      SaveCaches(c, ready.st, e);
    } else {
      ResumedKeepsLedger(c, prices, ready, e.sid);
      SaveCaches(c, Resumed(c, prices, ready, e.sid).st, e);
    }
    CachedIsIndexed(Process(c, prices, sim, e).sim.st, e.sid, e.tokenCount);
  }

  lemma CachedIsIndexed(st: State, s: Sid, tokens: nat)
    requires Cached(st, s, tokens)
    ensures s in st.index && st.index[s].tokenCount == Clamp(tokens)
  {
  }

  function Blobs(counts: map<Sid, nat>): Store {
    map s | s in counts :: SimBlob(counts[s])
  }

  lemma BlobsPut(counts: map<Sid, nat>, s: Sid, n: nat)
    ensures Blobs(counts[s := n]) == Blobs(counts)[s := SimBlob(n)]
  {
    hide SimBlob;
  }

  lemma {:induction false} ScriptSaves(events: seq<Event>)
    ensures LastSaved(Script(events)) == Blobs(Latest(events)) && NonEmpty(Script(events))
    decreases |events|
  {
    hide SimBlob;
    hide EventOps;
    hide LastSaved;
    hide Blobs;
    hide NonEmpty;
    if events == [] {
      NothingSaved();
    } else {
      var init, e := events[..|events| - 1], events[|events| - 1];
      ScriptSaves(init);
      EventSaves(Script(init), e, e.timestamp >= LastPass(init) + 300.0);
      BlobsPut(Latest(init), e.sid, e.tokenCount);
      EventIsNonEmpty(Script(init), e, e.timestamp >= LastPass(init) + 300.0);
    }
  }

  lemma NothingSaved()
    ensures LastSaved([]) == Blobs(map[]) && NonEmpty([])
  {
  }

  lemma EventIsNonEmpty(ops: seq<Op>, e: Event, due: bool)
    requires NonEmpty(ops)
    ensures NonEmpty(ops + EventOps(e, due))
  {
    hide SimBlob;
    hide NonEmpty;
    SimBlobSize(e.tokenCount);
    var quiet := [Tick(e.timestamp)] + if due then [DoMaintain] else [];
    QuietIsNonEmpty(quiet);
    QuietIsNonEmpty([DoLoad(e.sid)]);
    OneIsNonEmpty(CacheIt(e));
    match e.action
    case End =>
      BothNonEmpty(ops, quiet);
      assert EventOps(e, due) == quiet;
    case Start =>
      BothNonEmpty(quiet, [CacheIt(e)]);
      BothNonEmpty(ops, quiet + [CacheIt(e)]);
    case Resume =>
      BothNonEmpty([DoLoad(e.sid)], [CacheIt(e)]);
      assert [DoLoad(e.sid)] + [CacheIt(e)] == [DoLoad(e.sid), CacheIt(e)];
      BothNonEmpty(quiet, [DoLoad(e.sid), CacheIt(e)]);
      BothNonEmpty(ops, quiet + [DoLoad(e.sid), CacheIt(e)]);
  }

  lemma QuietIsNonEmpty(ops: seq<Op>)
    requires forall op :: op in ops ==> !op.DoSave?
    ensures NonEmpty(ops)
  {
  }

  lemma OneIsNonEmpty(op: Op)
    requires op.DoSave? ==> op.data != []
    ensures NonEmpty([op])
  {
  }

  lemma BothNonEmpty(ops: seq<Op>, more: seq<Op>)
    requires NonEmpty(ops) && NonEmpty(more)
    ensures NonEmpty(ops + more)
  {
  }

  lemma EventSaves(ops: seq<Op>, e: Event, due: bool)
    ensures LastSaved(ops + EventOps(e, due))
         == if e.action == End then LastSaved(ops) else LastSaved(ops)[e.sid := SimBlob(e.tokenCount)]
  {
    hide SimBlob;
    var quiet := [Tick(e.timestamp)] + if due then [DoMaintain] else [];
    QuietSaves(ops, quiet);
    var all := ops + EventOps(e, due);
    match e.action
    case End => assert all == ops + quiet;
    case Start => SavesOne(ops + quiet, [], e, all);
    case Resume => SavesOne(ops + quiet, [DoLoad(e.sid)], e, all);
  }

  lemma SavesOne(ops: seq<Op>, load: seq<Op>, e: Event, all: seq<Op>)
    requires all == ops + load + [CacheIt(e)] && (load == [] || load == [DoLoad(e.sid)])
    ensures LastSaved(all) == LastSaved(ops)[e.sid := SimBlob(e.tokenCount)]
  {
    hide SimBlob;
    QuietSaves(ops, load);
    assert all[..|all| - 1] == ops + load;
  }

  lemma {:induction false} QuietSaves(ops: seq<Op>, more: seq<Op>)
    requires forall op :: op in more ==> !op.DoSave?
    ensures LastSaved(ops + more) == LastSaved(ops)
    decreases |more|
  {
    if more == [] {
      assert ops + more == ops;
    } else {
      var n := |more| - 1;
      QuietSaves(ops, more[..n]);
      assert (ops + more)[..|ops + more| - 1] == ops + more[..n] && more[n] in more;
    }
  }

  /** All through a replay every indexed session is cached as its latest start or resume gave it. */
  lemma ReplayCachesLatest(c: System, prices: CostModel, events: seq<Event>, s: Sid)
    requires Replayed(c, prices, events).ok && s in Replayed(c, prices, events).sim.st.index
    ensures s in Latest(events)
    ensures var st := Replayed(c, prices, events).sim.st;
      s in st.In(st.index[s].tier) && st.In(st.index[s].tier)[s] == SimBlob(Latest(events)[s])
  {
    hide SimBlob;
    hide Replayed;
    hide Run;
    hide Sound;
    ReplayIsRun(c, prices, events);
    RunIsSound(c, Script(events));
    ScriptSaves(events);
    SoundIsNewest(c, Run(c, Script(events)).st, LastSaved(Script(events)), s);
  }

  // ---- What is hit ----

  /** Resumes of sessions neither started nor resumed before. */
  function FirstResumes(events: seq<Event>): nat {
    if events == [] then 0
    else
      var init, e := events[..|events| - 1], events[|events| - 1];
      FirstResumes(init) + if e.action == Resume && e.sid !in Latest(init) then 1 else 0
  }

  lemma ProcessGrows(c: System, prices: CostModel, sim: Sim, e: Event)
    requires c.coldCapacity <= 0 && Ledger(c, prices, sim) && Process(c, prices, sim, e).ok
    ensures var after := Process(c, prices, sim, e).sim;
      && after.st.index.Keys == sim.st.index.Keys + (if e.action == End then {} else {e.sid})
      && after.tally.misses == sim.tally.misses + if e.action == Resume && e.sid !in sim.st.index then 1 else 0
  {
    hide Load;
    hide Save;
    hide Maintain;
    hide SimBlob;
    hide Balanced;
    hide Healthy;
    hide TokensMatch;
    AdvanceGrows(c, prices, sim, e.timestamp);
    var ready := Advance(c, sim, e.timestamp);
    AdvanceKeepsLedger(c, prices, sim, e.timestamp);
    hide Advance;
    ResumeCredit(c, prices, ready, e.sid);
    if e.action == Start {
      SaveAddsToIndex(c, ready.st, e.sid, e.userId, SimBlob(e.tokenCount), Clamp(e.tokenCount));
    } else if e.action == Resume {
      HealthyLoadKeepsIndex(c, ready.st, e.sid);
      var resumed := Resumed(c, prices, ready, e.sid);
      SaveAddsToIndex(c, resumed.st, e.sid, e.userId, SimBlob(e.tokenCount), Clamp(e.tokenCount));
    }
  }

  lemma HealthyLoadKeepsIndex(c: System, st: State, s: Sid)
    requires c.coldCapacity <= 0 && Healthy(c, st)
    ensures Load(c, st, s).st.index.Keys == st.index.Keys
  {
    hide Load;
    var last: Store :| Sound(c, st, last) && NothingEmpty(last);
    LoadKeepsIndex(c, st, s, last);
  }

  lemma AdvanceGrows(c: System, prices: CostModel, sim: Sim, at: real)
    requires c.coldCapacity <= 0 && Ledger(c, prices, sim)
    ensures var ready := Advance(c, sim, at);
      ready.st.index.Keys == sim.st.index.Keys && ready.tally == sim.tally
  {
    hide Balanced;
    hide Healthy;
    hide TokensMatch;
    hide DemoteAll;
    var ticked := sim.st.(now := at);
    var ids := ExpiredIn(c, ticked, ticked.order);
    var ms := DemoteAllPath(c, ticked, ids);
    LosslessKeepsIndex(c, ticked, ms, DemoteAll(c, ticked, ids), 0);
  }

  /** With an uncapped cold tier, under any policy, only the first resume of an unknown session misses. */
  lemma {:induction false} MissesAreFirsts(c: System, prices: CostModel, events: seq<Event>)
    requires c.coldCapacity <= 0 && Replayed(c, prices, events).ok
    ensures var sim := Replayed(c, prices, events).sim;
      && sim.st.index.Keys == Latest(events).Keys
      && sim.tally.misses == FirstResumes(events)
      && sim.tally.hits == Resumes(events) - FirstResumes(events)
    decreases |events|
  {
    hide Process;
    hide Ledger;
    ReplayBalances(c, prices, events);
    if events != [] {
      var init, e := events[..|events| - 1], events[|events| - 1];
      MissesAreFirsts(c, prices, init);
      ReplayBalances(c, prices, init);
      ProcessGrows(c, prices, Replayed(c, prices, init).sim, e);
    }
  }

  // ---- Hits by tier ----

  /** The part of a histogram that concerns one tier. */
  function Column(h: Histogram, t: Tier): map<(nat, Tier), nat> {
    map k | k in h && k.1 == t :: h[k]
  }

  /** Each tier's hits are its cells of the histogram. */
  ghost predicate TiersAddUp(tally: Tally) {
    forall t: Tier :: Count(tally.byTier, t) == SumValues(Column(tally.histogram, t))
  }

  lemma CreditAddsUp(prices: CostModel, tally: Tally, hit: bool, tokens: nat, tier: Tier)
    requires TiersAddUp(tally)
    ensures TiersAddUp(Credit(prices, tally, hit, tokens, tier))
  {
    hide SavingsPerHit;
    var after, k := Credit(prices, tally, hit, tokens, tier), (tokens, tier);
    if hit {
      forall t: Tier
        ensures Count(after.byTier, t) == SumValues(Column(after.histogram, t))
      {
        ColumnPut(tally.histogram, k, Count(tally.histogram, k) + 1, t);
        assert Count(tally.byTier, t) == SumValues(Column(tally.histogram, t));
      }
    }
  }

  lemma ColumnPut(h: Histogram, k: (nat, Tier), n: nat, t: Tier)
    ensures SumValues(Column(h[k := n], t)) + (if k.1 == t then Count(h, k) else 0)
         == SumValues(Column(h, t)) + if k.1 == t then n else 0
  {
    if k.1 == t {
      assert Column(h[k := n], t) == Column(h, t)[k := n];
      SumPut(Column(h, t), k, n);
    } else {
      assert Column(h[k := n], t) == Column(h, t);
    }
  }

  lemma {:induction false} ReplayAddsUp(c: System, prices: CostModel, events: seq<Event>)
    requires Replayed(c, prices, events).ok
    ensures TiersAddUp(Replayed(c, prices, events).sim.tally)
    decreases |events|
  {
    hide TiersAddUp;
    if events == [] {
      NoHitsAddUp();
    } else {
      var init, e := events[..|events| - 1], events[|events| - 1];
      ReplayAddsUp(c, prices, init);
      ProcessAddsUp(c, prices, Replayed(c, prices, init).sim, e);
    }
  }

  lemma NoHitsAddUp()
    ensures TiersAddUp(NO_HITS)
  {
    forall t: Tier
      ensures Count(NO_HITS.byTier, t) == SumValues(Column(NO_HITS.histogram, t))
    {
      assert Column(map[], t) == map[];
    }
  }

  lemma ProcessAddsUp(c: System, prices: CostModel, sim: Sim, e: Event)
    requires TiersAddUp(sim.tally) && Process(c, prices, sim, e).ok
    ensures TiersAddUp(Process(c, prices, sim, e).sim.tally)
  {
    hide TiersAddUp;
    hide Load;
    hide Save;
    hide Maintain;
    hide SimBlob;
    hide Credit;
    if e.action == Resume {
      var ready := Advance(c, sim, e.timestamp);
      var tier := if e.sid in ready.st.index then ready.st.index[e.sid].tier else Hot;
      CreditAddsUp(prices, sim.tally, Load(c, ready.st, e.sid).data.Some?, Count(ready.cached, e.sid), tier);
    }
  }
}
