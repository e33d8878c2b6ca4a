/** A small experiment in which two sessions compete for the hot tier, under any policy. */
module Contests {
  import opened Types
  import opened Storage
  import opened Traces
  import opened CostModel
  import opened Policies
  import opened Cascade
  import opened Operations
  import opened Coherence
  import opened Descent
  import opened Replay
  import opened Pricing
  import Raises

  /** Bytes of a simulated blob. */
  function Size(tokens: nat): nat {
    64 + 512 * tokens
  }

  /** Sessions a and b, of n and 2n tokens, fill the hot tier; z, of n tokens, does not fit beside them; a and b are
      resumed later.  The colder tiers are uncapped. */
  datatype Contest = Contest(n: nat, cap: nat, a: Sid, b: Sid, z: Sid, late: real) {
    ghost predicate Fair() {
      && a != b && a != z && b != z && a != "" && b != "" && z != ""
      && 1 <= n && 2 * n <= TOKEN_CLAMP && Size(n) + Size(2 * n) <= cap < 2 * Size(n) + Size(2 * n)
      && 1.0 <= late < MAINTENANCE_INTERVAL
    }

    function Events(): seq<Event> {
      [Event(0.0, a, "", n, Start), Event(0.0, b, "", 2 * n, Start), Event(0.0, z, "", n, Start),
       Event(1.0, a, "", n, Resume), Event(late, b, "", 2 * n, Resume)]
    }

    function Room(policy: Policy): System {
      Config(policy, cap, 0, 0, 16)
    }

    function One(): State {
      State(map[a := SimBlob(n)], map[], map[], [a], map[a := Saving(n)], [Inserted(a, Saving(n), 0.0)], 0.0)
    }

    function Both(): State {
      State(map[a := SimBlob(n), b := SimBlob(2 * n)], map[], map[], [a, b],
            map[a := Saving(n), b := Saving(2 * n)],
            [Inserted(a, Saving(n), 0.0), Inserted(b, Saving(2 * n), 0.0)], 0.0)
    }

    /** One of the two has made room for the third. */
    function Sunk(v: Sid): State
      requires v == a || v == b
    {
      Both().Tell(Chosen(Hot, v, Rivals(Both(), Hot))).Relocate(v, Hot, Warm, Both().hot[v])
    }

    /** The policy picks v when the third session comes. */
    ghost predicate Picks(policy: Policy, v: Sid) {
      (v == a || v == b) && Victim(Room(policy), Both(), Hot) == Some(v)
    }
  }

  function Saving(n: nat): Entry {
    Entry("", 0.0, 0.0, n, (n + 15) / 16, Hot, |SimBlob(n)|, 1)
  }

  lemma BlobSizes(n: nat)
    requires n <= TOKEN_CLAMP
    ensures |SimBlob(n)| == Size(n)
  {
    SimBlobSize(n);
  }

  // ---- The first two saves ----

  lemma HotBytes(g: Contest, policy: Policy)
    requires g.Fair()
    ensures !EMPTY.IsFull(g.Room(policy), Hot, Size(g.n)) && !g.One().IsFull(g.Room(policy), Hot, Size(2 * g.n))
    ensures g.Both().IsFull(g.Room(policy), Hot, Size(g.n))
    ensures Bytes(g.Both().hot - {g.a}) == Size(2 * g.n) && Bytes(g.Both().hot - {g.b}) == Size(g.n)
  {
    hide SimBlob;
    BlobSizes(g.n);
    BlobSizes(2 * g.n);
    var one := map[g.a := SimBlob(g.n)];
    assert one == map[][g.a := SimBlob(g.n)] && g.Both().hot == one[g.b := SimBlob(2 * g.n)];
    assert Sizes(map[]) == map[];
    BytesPut(map[], g.a, SimBlob(g.n));
    BytesPut(one, g.b, SimBlob(2 * g.n));
    BytesDrop(g.Both().hot, g.a);
    BytesDrop(g.Both().hot, g.b);
  }

  /** A start, while no maintenance is due. */
  lemma StartStep(c: System, prices: CostModel, sim: Sim, e: Event, next: State)
    requires e.action == Start && e.timestamp == sim.st.now == sim.lastMaintenance && e.tokenCount <= TOKEN_CLAMP
    requires Save(c, sim.st, e.sid, e.userId, SimBlob(e.tokenCount), e.tokenCount) == Outcome(true, next)
    ensures Process(c, prices, sim, e)
         == Progress(true, Sim(next, sim.cached[e.sid := e.tokenCount], sim.lastMaintenance, sim.tally))
  {
    hide Save;
    hide SimBlob;
    assert sim.(st := sim.st.(now := e.timestamp)) == sim;
  }

  lemma ReplayStep(c: System, prices: CostModel, events: seq<Event>, i: nat)
    requires i < |events|
    ensures Replayed(c, prices, events[..i + 1])
         == var before := Replayed(c, prices, events[..i]);
            if before.ok then Process(c, prices, before.sim, events[i]) else before
  {
    hide Process;
    assert events[..i + 1][..i] == events[..i];
  }

  lemma IndexFirst(g: Contest, policy: Policy)
    ensures IndexSave(g.Room(policy), EMPTY, Hot, g.a, "", SimBlob(g.n), g.n).Put(Hot, g.a, SimBlob(g.n)) == g.One()
  {
    hide SimBlob;
  }

  lemma IndexSecond(g: Contest, policy: Policy)
    requires g.a != g.b
    ensures IndexSave(g.Room(policy), g.One(), Hot, g.b, "", SimBlob(2 * g.n), 2 * g.n).Put(Hot, g.b, SimBlob(2 * g.n))
         == g.Both()
  {
    hide SimBlob;
  }

  lemma SavesTwo(g: Contest, policy: Policy)
    requires g.Fair()
    ensures Save(g.Room(policy), EMPTY, g.a, "", SimBlob(g.n), g.n) == Outcome(true, g.One())
    ensures Save(g.Room(policy), g.One(), g.b, "", SimBlob(2 * g.n), 2 * g.n) == Outcome(true, g.Both())
  {
    hide *;
    ContestIs(g, policy);
    BlobSizes(g.n);
    BlobSizes(2 * g.n);
    HotBytes(g, policy);
    SaveWithRoom(g.Room(policy), EMPTY, g.a, "", SimBlob(g.n), g.n);
    IndexFirst(g, policy);
    SaveWithRoom(g.Room(policy), g.One(), g.b, "", SimBlob(2 * g.n), 2 * g.n);
    IndexSecond(g, policy);
  }

  /** The facts of a contest that its replay needs. */
  lemma ContestIs(g: Contest, policy: Policy)
    requires g.Fair()
    ensures var events := g.Events();
      && |events| == 5 && events[0] == Event(0.0, g.a, "", g.n, Start)
      && events[1] == Event(0.0, g.b, "", 2 * g.n, Start)
      && events[2] == Event(0.0, g.z, "", g.n, Start) && events[3] == Event(1.0, g.a, "", g.n, Resume)
      && events[4] == Event(g.late, g.b, "", 2 * g.n, Resume)
    ensures EMPTY.now == g.One().now == g.Both().now == 0.0
    ensures g.Room(policy).warmCapacity <= 0 && g.Room(policy).coldCapacity <= 0
    ensures g.a != g.b && g.a != g.z && g.b != g.z && g.n <= 2 * g.n <= TOKEN_CLAMP
    ensures 1.0 < MAINTENANCE_INTERVAL && 1.0 <= g.late < MAINTENANCE_INTERVAL
  {
  }

  lemma SavesBoth(g: Contest, policy: Policy, prices: CostModel)
    requires g.Fair()
    ensures Replayed(g.Room(policy), prices, g.Events()[..2])
         == Progress(true, Sim(g.Both(), map[][g.a := g.n][g.b := 2 * g.n], 0.0, NO_HITS))
  {
    hide *;
    var c, events := g.Room(policy), g.Events();
    ContestIs(g, policy);
    SavesTwo(g, policy);
    ReplayNothing(c, prices, events);
    ReplayStep(c, prices, events, 0);
    StartStep(c, prices, Sim(EMPTY, map[], 0.0, NO_HITS), events[0], g.One());
    ReplayStep(c, prices, events, 1);
    StartStep(c, prices, Sim(g.One(), map[][g.a := g.n], 0.0, NO_HITS), events[1], g.Both());
  }

  lemma ReplayNothing(c: System, prices: CostModel, events: seq<Event>)
    ensures Replayed(c, prices, events[..0]) == Progress(true, Sim(EMPTY, map[], 0.0, NO_HITS))
  {
  }

  lemma SameFullness(c: System, st: State, other: State, n: nat)
    requires st.hot == other.hot
    ensures st.IsFull(c, Hot, n) == other.IsFull(c, Hot, n)
  {
  }

  // ---- The third save sinks the policy's choice ----

  lemma SinksVictim(g: Contest, policy: Policy, v: Sid)
    requires g.Fair() && g.Picks(policy, v)
    ensures Evict(g.Room(policy), g.Both(), Hot) == Outcome(true, g.Sunk(v))
  {
    hide Evict;
    hide Demote;
    hide EnsureSpace;
    hide Victim;
    hide Rivals;
    hide SimBlob;
    hide State.IsFull;
    hide State.Relocate;
    var c, st := g.Room(policy), g.Both();
    var told := st.Tell(Chosen(Hot, v, Rivals(st, Hot)));
    BlobSizes(g.n);
    BlobSizes(2 * g.n);
    EvictUnfolds(c, st, Hot);
    DemoteUnfolds(c, told, v);
    UncappedNeverFull(c, told, Warm, |st.hot[v]|);
    EnsureSpaceUnfolds(c, told, Warm, |st.hot[v]|, MAX_ATTEMPTS);
  }

  lemma RoomForThird(g: Contest, policy: Policy, v: Sid)
    requires g.Fair() && (v == g.a || v == g.b)
    ensures g.Both().IsFull(g.Room(policy), Hot, Size(g.n)) && !g.Sunk(v).IsFull(g.Room(policy), Hot, Size(g.n))
  {
    hide SimBlob;
    hide Rivals;
    hide Bytes;
    HotBytes(g, policy);
  }

  lemma MakesRoomForThird(g: Contest, policy: Policy, v: Sid)
    requires g.Fair() && g.Picks(policy, v)
    ensures SaveSpot(g.Room(policy), g.Both(), Size(g.n)) == Spot(Hot, g.Sunk(v))
  {
    hide *;
    PickIsEither(g, policy, v);
    SinksVictim(g, policy, v);
    RoomForThird(g, policy, v);
    OneEvictionIsEnough(g.Room(policy), g.Both(), Hot, Size(g.n), g.Sunk(v));
    SpotIsHot(g.Room(policy), g.Both(), Size(g.n), g.Sunk(v));
  }

  lemma PickIsEither(g: Contest, policy: Policy, v: Sid)
    requires g.Picks(policy, v)
    ensures v == g.a || v == g.b
  {
  }

  /** Where the first two sessions are after the third was saved. */
  ghost predicate Settled(g: Contest, st: State, v: Sid) {
    && st.index.Keys == {g.a, g.b, g.z} && st.now == 0.0
    && st.index[g.a].tier == (if v == g.a then Warm else Hot) && st.index[g.b].tier == (if v == g.b then Warm else Hot)
  }

  lemma IndexThird(g: Contest, policy: Policy, v: Sid)
    requires g.Fair() && (v == g.a || v == g.b)
    ensures Settled(g, IndexSave(g.Room(policy), g.Sunk(v), Hot, g.z, "", SimBlob(g.n), g.n), v)
  {
    hide SimBlob;
    hide Rivals;
    var st := g.Sunk(v);
    assert st.index.Keys == {g.a, g.b} && st.now == 0.0;
  }

  lemma SavesThird(g: Contest, policy: Policy, v: Sid)
    requires g.Fair() && g.Picks(policy, v)
    ensures var save := Save(g.Room(policy), g.Both(), g.z, "", SimBlob(g.n), g.n);
      save.ok && Settled(g, save.st, v)
  {
    hide SaveSpot;
    hide SimBlob;
    hide Accepts;
    hide State.IsFull;
    hide Contest.Sunk;
    hide Contest.Both;
    hide IndexSave;
    hide Victim;
    BlobSizes(g.n);
    RoomForThird(g, policy, v);
    MakesRoomForThird(g, policy, v);
    var st := g.Sunk(v);
    var indexed := IndexSave(g.Room(policy), st, Hot, g.z, "", SimBlob(g.n), g.n);
    IndexThird(g, policy, v);
    IndexKeepsStores(g.Room(policy), st, Hot, g.z, "", SimBlob(g.n), g.n);
    SameFullness(g.Room(policy), indexed, st, Size(g.n));
    RoomIsAccepted(g.Room(policy), indexed, Hot, g.z, SimBlob(g.n));
  }

  lemma IndexKeepsStores(c: System, st: State, t: Tier, s: Sid, user: string, data: Blob, tokens: nat)
    ensures IndexSave(c, st, t, s, user, data, tokens).hot == st.hot
    ensures IndexSave(c, st, t, s, user, data, tokens).now == st.now
  {
  }

  lemma SavesAll(g: Contest, policy: Policy, prices: CostModel, v: Sid)
    requires g.Fair() && g.Picks(policy, v)
    ensures var three := Replayed(g.Room(policy), prices, g.Events()[..3]);
      && three.ok && Settled(g, three.sim.st, v) && three.sim.cached == map[][g.a := g.n][g.b := 2 * g.n][g.z := g.n]
      && three.sim.lastMaintenance == 0.0 && three.sim.tally == NO_HITS
  {
    hide *;
    var c, events := g.Room(policy), g.Events();
    ContestIs(g, policy);
    SavesBoth(g, policy, prices);
    SavesThird(g, policy, v);
    ReplayStep(c, prices, events, 2);
    StartStep(c, prices, Sim(g.Both(), map[][g.a := g.n][g.b := 2 * g.n], 0.0, NO_HITS), events[2],
              Save(c, g.Both(), g.z, "", SimBlob(g.n), g.n).st);
  }

  // ---- The resumes ----

  lemma {:induction false} PathKeepsClock(c: System, st: State, ms: seq<Move>, end: State, r: nat)
    requires Path(c, st, ms, end, r)
    ensures end.now == st.now
    decreases |ms|
  {
    hide Apply;
    hide Enabled;
    if ms != [] {
      MoveKeepsClock(st, ms[0]);
      PathKeepsClock(c, Apply(st, ms[0]), ms[1..], end, r);
    }
  }

  lemma MoveKeepsClock(st: State, m: Move)
    ensures Apply(st, m).now == st.now
  {
  }

  lemma SaveKeepsClock(c: System, st: State, s: Sid, user: string, data: Blob, tokens: nat)
    ensures Save(c, st, s, user, data, tokens).st.now == st.now
  {
    hide SaveSpot;
    hide Accepts;
    hide IndexSave;
    hide Path;
    var spot := SaveSpot(c, st, |data|);
    var ms := SaveSpotPath(c, st, |data|);
    PathKeepsClock(c, st, ms, spot.st, 0);
    IndexKeepsStores(c, spot.st, spot.tier, s, user, data, tokens);
  }

  lemma PromoteKeepsClock(c: System, st: State, s: Sid, t: Tier)
    ensures Promote(c, st, s, t).st.now == st.now
  {
    hide MakeRoom;
    if s in st.index && st.index[s].tier != t && st.Holds(s, st.index[s].tier) {
      var n := |st.In(st.index[s].tier)[s]|;
      var ms := MakeRoomPath(c, st, t, n);
      PathKeepsClock(c, st, ms, MakeRoom(c, st, t, n).st, Rank(t));
    }
  }

  lemma LoadKeepsClock(c: System, st: State, s: Sid)
    ensures Load(c, st, s).st.now == st.now
  {
    hide Promote;
    if s in st.index {
      PromoteKeepsClock(c, Touch(st, s), s, Hot);
    }
  }

  lemma LoadKeepsKeys(c: System, st: State, s: Sid)
    requires Healthy(c, st) && c.coldCapacity <= 0
    ensures Load(c, st, s).st.index.Keys == st.index.Keys
  {
    hide Load;
    var last: Store :| Sound(c, st, last) && NothingEmpty(last);
    LoadKeepsIndex(c, st, s, last);
  }

  /** A resume of a cached session while no maintenance is due and only hot is capped: a hit, and nobody leaves. */
  lemma ResumeStep(c: System, prices: CostModel, sim: Sim, e: Event)
    requires Ledger(c, prices, sim) && c.warmCapacity <= 0 && c.coldCapacity <= 0
    requires e.action == Resume && sim.st.now <= e.timestamp < sim.lastMaintenance + MAINTENANCE_INTERVAL
    requires e.sid in sim.st.index && e.sid in sim.cached
    ensures var r := Process(c, prices, sim, e);
      && r.ok && Ledger(c, prices, r.sim)
      && r.sim.tally == Credit(prices, sim.tally, true, sim.cached[e.sid], sim.st.index[e.sid].tier)
      && r.sim.cached == sim.cached[e.sid := Clamp(e.tokenCount)] && r.sim.lastMaintenance == sim.lastMaintenance
      && r.sim.st.index.Keys == sim.st.index.Keys && r.sim.st.now == e.timestamp
  {
    hide Load;
    hide Save;
    hide SimBlob;
    hide Balanced;
    hide Healthy;
    hide SavingsPerHit;
    var ready := sim.(st := sim.st.(now := e.timestamp));
    AdvanceKeepsLedger(c, prices, sim, e.timestamp);
    assert Advance(c, sim, e.timestamp) == ready;
    ResumeCredit(c, prices, ready, e.sid);
    var resumed := Resumed(c, prices, ready, e.sid);
    LoadKeepsKeys(c, ready.st, e.sid);
    LoadKeepsClock(c, ready.st, e.sid);
    Raises.SaveOfExtremes(c, resumed.st, e.sid, e.userId, SimBlob(e.tokenCount), Clamp(e.tokenCount));
    SaveAddsToIndex(c, resumed.st, e.sid, e.userId, SimBlob(e.tokenCount), Clamp(e.tokenCount));
    SaveKeepsClock(c, resumed.st, e.sid, e.userId, SimBlob(e.tokenCount), Clamp(e.tokenCount));
    ProcessKeepsLedger(c, prices, sim, e);
  }

  /** The first resume finds its session in the warm tier exactly if it was the one to sink. */
  lemma FirstResume(g: Contest, policy: Policy, prices: CostModel, v: Sid)
    requires g.Fair() && g.Picks(policy, v)
    ensures var four := Replayed(g.Room(policy), prices, g.Events()[..4]);
      && four.ok && Ledger(g.Room(policy), prices, four.sim)
      && four.sim.tally == Credit(prices, NO_HITS, true, g.n, if v == g.a then Warm else Hot)
      && g.b in four.sim.st.index && g.b in four.sim.cached && four.sim.cached[g.b] == 2 * g.n
      && four.sim.st.now == 1.0 && four.sim.lastMaintenance == 0.0
  {
    hide *;
    var c, events := g.Room(policy), g.Events();
    ContestIs(g, policy);
    SavesAll(g, policy, prices, v);
    SettledFacts(g, Replayed(c, prices, events[..3]).sim.st, v);
    ReplayLedger(c, prices, events[..3]);
    ReplayStep(c, prices, events, 3);
    ResumeStep(c, prices, Replayed(c, prices, events[..3]).sim, events[3]);
  }

  lemma SettledFacts(g: Contest, st: State, v: Sid)
    requires Settled(g, st, v)
    ensures g.a in st.index && g.b in st.index && st.now == 0.0
    ensures st.index[g.a].tier == if v == g.a then Warm else Hot
  {
  }

  /** The whole contest, under any policy that picks v when the third session comes. */
  lemma ContestTally(g: Contest, policy: Policy, prices: CostModel, v: Sid) returns (tb: Tier)
    requires g.Fair() && g.Picks(policy, v)
    ensures var end := Replayed(g.Room(policy), prices, g.Events());
      && end.ok && Ledger(g.Room(policy), prices, end.sim)
      && end.sim.tally
         == Credit(prices, Credit(prices, NO_HITS, true, g.n, if v == g.a then Warm else Hot), true, 2 * g.n, tb)
  {
    hide *;
    var c, events := g.Room(policy), g.Events();
    ContestIs(g, policy);
    FirstResume(g, policy, prices, v);
    ReplayStep(c, prices, events, 4);
    var four := Replayed(c, prices, events[..4]).sim;
    ResumeStep(c, prices, four, events[4]);
    tb := four.st.index[g.b].tier;
    assert events[..5] == events;
  }

  lemma ReplayLedger(c: System, prices: CostModel, events: seq<Event>)
    requires Replayed(c, prices, events).ok
    ensures Ledger(c, prices, Replayed(c, prices, events).sim)
  {
    ReplayBalances(c, prices, events);
  }
}
