/** The manager's public operations, and runs of them. */
module Operations {
  import opened Types
  import opened Storage
  import opened Policies
  import opened Cascade

  lemma EvictShrinks(c: System, st: State, t: Tier)
    ensures var Outcome(evicted, next) := Evict(c, st, t);
      |next.InTier(t)| == |st.InTier(t)| - (if evicted then 1 else 0)
  {
    var ms := EvictPath(c, st, t);
  }

  /** Evict until the data fits.  There is no attempt cap: each success empties the tier by one session. */
  ghost function MakeRoom(c: System, st: State, t: Tier, n: nat): Outcome
    decreases |st.InTier(t)|
  {
    if !st.IsFull(c, t, n) then Outcome(true, st)
    else
      EvictShrinks(c, st, t);
      var Outcome(evicted, next) := Evict(c, st, t);
      if evicted then MakeRoom(c, next, t, n) else Outcome(false, next)
  }

  /** The copies written and deleted are those chosen before room was made, wherever the session went meanwhile. */
  ghost function Promote(c: System, st: State, s: Sid, t: Tier): Outcome {
    if s !in st.index || st.index[s].tier == t || !st.Holds(s, st.index[s].tier) then Outcome(false, st)
    else
      LiftInto(c, st, s, st.index[s].tier, t, st.In(st.index[s].tier)[s])
  }

  ghost function LiftInto(c: System, st: State, s: Sid, source: Tier, t: Tier, data: Blob): Outcome {
    var Outcome(roomy, next) := MakeRoom(c, st, t, |data|);
    if !roomy then Outcome(false, next) else Outcome(true, next.Relocate(s, source, t, data))
  }

  ghost predicate Accepts(c: System, st: State, t: Tier, s: Sid, data: Blob) {
    if t == Hot then Fits(st.hot[s := data], c.hotCapacity) else !st.IsFull(c, t, |data|)
  }

  /** Index the session, new or known, as holding data in tier t; the write itself comes after. */
  function IndexSave(c: System, st: State, t: Tier, s: Sid, user: string, data: Blob, tokens: nat): State {
    var blocks := (tokens + c.blockSize - 1) / c.blockSize;
    if s in st.index then
      var entry := st.index[s].(
        tier := t, lastAccessed := st.now, sizeBytes := |data|, tokenCount := tokens, numBlocks := blocks);
      st.(index := st.index[s := entry])
    else
      var entry := Entry(user, st.now, st.now, tokens, blocks, t, |data|, 1);
      st.(order := st.order + [s], index := st.index[s := entry]).Tell(Inserted(s, entry, st.now))
  }

  /** False when the tier raises MemoryError. */
  ghost function SaveTo(c: System, st: State, t: Tier, s: Sid, user: string, data: Blob, tokens: nat): Outcome {
    var indexed := IndexSave(c, st, t, s, user, data, tokens);
    if Accepts(c, indexed, t, s, data) then Outcome(true, indexed.Put(t, s, data)) else Outcome(false, indexed)
  }

  /** Where a save writes, and the state in which it does. */
  ghost function SaveSpot(c: System, st: State, n: nat): Spot {
    var roomy := EnsureSpace(c, st, Hot, n, MAX_ATTEMPTS);
    if roomy.IsFull(c, Hot, n) then Spot(Warm, EnsureSpace(c, roomy, Warm, n, MAX_ATTEMPTS)) else Spot(Hot, roomy)
  }

  ghost function Save(c: System, st: State, s: Sid, user: string, data: Blob, tokens: nat): Outcome {
    var Spot(t, roomy) := SaveSpot(c, st, |data|);
    SaveTo(c, roomy, t, s, user, data, tokens)
  }

  function Touch(st: State, s: Sid): State
    requires s in st.index
  {
    var entry := st.index[s].(lastAccessed := st.now, accessCount := st.index[s].accessCount + 1);
    st.(index := st.index[s := entry]).Tell(Accessed(s, entry, st.now))
  }

  datatype Spot = Spot(tier: Tier, st: State)

  datatype Loaded = Loaded(data: Option<Blob>, st: State)

  ghost function Load(c: System, st: State, s: Sid): Loaded {
    if s !in st.index then Loaded(None, st)
    else
      var t := st.index[s].tier;
      if !st.Holds(s, t) then Loaded(None, st.Unindex(s))
      else
        var touched := Touch(st, s);
        Loaded(Some(st.In(t)[s]), if t == Hot then touched else Promote(c, touched, s, Hot).st)
  }

  function ExpiredIn(c: System, st: State, order: seq<Sid>): seq<Sid> {
    if order == [] then []
    else
      var rest := ExpiredIn(c, st, order[1..]);
      if order[0] in st.index && Expired(c.policy, st.calls, st.now, Candidate(order[0], st.index[order[0]])) then
        [order[0]] + rest
      else rest
  }

  ghost function DemoteAll(c: System, st: State, ids: seq<Sid>): State
    decreases |ids|
  {
    if ids == [] then st else DemoteAll(c, Demote(c, st, ids[0]).st, ids[1..])
  }

  ghost function Maintain(c: System, st: State): State {
    DemoteAll(c, st, ExpiredIn(c, st, st.order))
  }

  // ---- Runs ----

  datatype Op =
    | DoSave(sid: Sid, user: string, data: Blob, tokens: nat)
    | DoLoad(sid: Sid)
    | DoPromote(sid: Sid, tier: Tier)
    | DoDemote(sid: Sid)
    | DoEvict(tier: Tier)
    | DoDelete(sid: Sid)
    | DoMaintain
    | Tick(at: real)

  /** False when the operation raises. */
  ghost function Step(c: System, st: State, op: Op): Outcome {
    match op
    case DoSave(s, user, data, tokens) => Save(c, st, s, user, data, tokens)
    case DoLoad(s) => Outcome(true, Load(c, st, s).st)
    case DoPromote(s, t) => Outcome(true, Promote(c, st, s, t).st)
    case DoDemote(s) => Outcome(true, Demote(c, st, s).st)
    case DoEvict(t) => Outcome(true, Evict(c, st, t).st)
    case DoDelete(s) => Outcome(true, Delete(st, s).st)
    case DoMaintain => Outcome(true, Maintain(c, st))
    case Tick(at) => Outcome(true, st.(now := at))
  }

  const EMPTY := State(map[], map[], map[], [], map[], [], 0.0)

  /** State after a run from an empty manager; false as soon as one operation raises. */
  ghost function Run(c: System, ops: seq<Op>): Outcome {
    if ops == [] then Outcome(true, EMPTY)
    else
      var Outcome(ok, st) := Run(c, ops[..|ops| - 1]);
      if ok then Step(c, st, ops[|ops| - 1]) else Outcome(false, st)
  }

  // ---- Every operation as a path of moves ----

  lemma DemoteAllFrom(c: System, st: State, ids: seq<Sid>, i: nat)
    requires i <= |ids|
    ensures DemoteAll(c, st, ids[i..])
         == if i == |ids| then st else DemoteAll(c, Demote(c, st, ids[i]).st, ids[i + 1..])
  {
  }

  lemma MakeRoomStep(c: System, st: State, t: Tier, n: nat, step: Outcome)
    requires st.IsFull(c, t, n) && step == Evict(c, st, t)
    ensures MakeRoom(c, st, t, n) == if step.ok then MakeRoom(c, step.st, t, n) else Outcome(false, step.st)
    ensures step.ok ==> |step.st.InTier(t)| < |st.InTier(t)|
  {
    EvictShrinks(c, st, t);
  }

  lemma MakeRoomDone(c: System, st: State, t: Tier, n: nat)
    requires !st.IsFull(c, t, n)
    ensures MakeRoom(c, st, t, n) == Outcome(true, st)
  {
  }

  lemma RoomIsAccepted(c: System, st: State, t: Tier, s: Sid, data: Blob)
    requires !st.IsFull(c, t, |data|)
    ensures Accepts(c, st, t, s, data)
  {
    BytesPut(st.hot, s, data);
  }

  lemma {:induction false} MakeRoomPath(c: System, st: State, t: Tier, n: nat) returns (ms: seq<Move>)
    ensures Path(c, st, ms, MakeRoom(c, st, t, n).st, Rank(t))
    ensures c.coldCapacity <= 0 ==> Lossless(ms)
    ensures MakeRoom(c, st, t, n).ok ==> !MakeRoom(c, st, t, n).st.IsFull(c, t, n)
    decreases |st.InTier(t)|
  {
    ms := [];
    if st.IsFull(c, t, n) {
      var Outcome(evicted, next) := Evict(c, st, t);
      ms := EvictPath(c, st, t);
      if evicted {
        EvictShrinks(c, st, t);
        var ns := MakeRoomPath(c, next, t, n);
        PathThen(c, st, ms, next, ns, MakeRoom(c, next, t, n).st, Rank(t), Rank(t));
        ms := ms + ns;
      }
    }
  }

  lemma SaveSpotPath(c: System, st: State, n: nat) returns (ms: seq<Move>)
    ensures Path(c, st, ms, SaveSpot(c, st, n).st, 0)
    ensures c.coldCapacity <= 0 ==> Lossless(ms)
  {
    var roomy := EnsureSpace(c, st, Hot, n, MAX_ATTEMPTS);
    ms := EnsurePath(c, st, Hot, n, MAX_ATTEMPTS);
    if roomy.IsFull(c, Hot, n) {
      var ns := EnsurePath(c, roomy, Warm, n, MAX_ATTEMPTS);
      PathLower(c, roomy, ns, EnsureSpace(c, roomy, Warm, n, MAX_ATTEMPTS), 1, 0);
      PathThen(c, st, ms, roomy, ns, EnsureSpace(c, roomy, Warm, n, MAX_ATTEMPTS), 0, 0);
      ms := ms + ns;
    }
  }

  lemma PathLower(c: System, st: State, ms: seq<Move>, end: State, r: nat, q: nat)
    requires Path(c, st, ms, end, r) && r >= q
    ensures Path(c, st, ms, end, q)
  {
    PathThen(c, st, ms, end, [], end, r, q);
    assert ms + [] == ms;
  }

  lemma {:induction false} DemoteAllPath(c: System, st: State, ids: seq<Sid>) returns (ms: seq<Move>)
    ensures Path(c, st, ms, DemoteAll(c, st, ids), 0)
    ensures c.coldCapacity <= 0 ==> Lossless(ms)
    decreases |ids|
  {
    ms := [];
    if ids != [] {
      var next := Demote(c, st, ids[0]).st;
      ms := DemotePath(c, st, ids[0]);
      var r := if ids[0] in st.index then Rank(st.index[ids[0]].tier) else 2;
      var ns := DemoteAllPath(c, next, ids[1..]);
      PathThen(c, st, ms, next, ns, DemoteAll(c, next, ids[1..]), r, 0);
      ms := ms + ns;
    }
  }

  // ---- Single steps ----

  /** A save that fits needs no eviction. */
  lemma SaveWithRoom(c: System, st: State, s: Sid, user: string, data: Blob, tokens: nat)
    requires !st.IsFull(c, Hot, |data|)
    ensures Save(c, st, s, user, data, tokens)
        == Outcome(true, IndexSave(c, st, Hot, s, user, data, tokens).Put(Hot, s, data))
  {
    EnsureSpaceUnfolds(c, st, Hot, |data|, MAX_ATTEMPTS);
    RoomIsAccepted(c, IndexSave(c, st, Hot, s, user, data, tokens), Hot, s, data);
  }

  /** Nor does a demotion that fits one tier below. */
  lemma DemoteWithRoom(c: System, st: State, s: Sid)
    requires Movable(st, s)
    requires var source := st.index[s].tier;
      !st.IsFull(c, Below(source), |st.In(source)[s]|)
    ensures var source := st.index[s].tier;
      Demote(c, st, s) == Outcome(true, st.Relocate(s, source, Below(source), st.In(source)[s]))
  {
    hide Demote;
    hide EnsureSpace;
    hide State.IsFull;
    hide State.Relocate;
    var source := st.index[s].tier;
    DemoteUnfolds(c, st, s);
    EnsureSpaceUnfolds(c, st, Below(source), |st.In(source)[s]|, MAX_ATTEMPTS);
  }

  lemma UncappedNeverFull(c: System, st: State, t: Tier, n: nat)
    requires c.Capacity(t) <= 0
    ensures !st.IsFull(c, t, n)
  {
  }

  lemma OneEvictionIsEnough(c: System, st: State, t: Tier, n: nat, next: State)
    requires st.IsFull(c, t, n) && Evict(c, st, t) == Outcome(true, next) && !next.IsFull(c, t, n)
    ensures EnsureSpace(c, st, t, n, MAX_ATTEMPTS) == next
  {
    hide EnsureSpace;
    hide Evict;
    hide State.IsFull;
    EnsureSpaceUnfolds(c, st, t, n, MAX_ATTEMPTS);
    EnsureSpaceUnfolds(c, next, t, n, MAX_ATTEMPTS - 1);
  }

  lemma SpotIsHot(c: System, st: State, n: nat, roomy: State)
    requires EnsureSpace(c, st, Hot, n, MAX_ATTEMPTS) == roomy && !roomy.IsFull(c, Hot, n)
    ensures SaveSpot(c, st, n) == Spot(Hot, roomy)
  {
    hide EnsureSpace;
    hide State.IsFull;
  }
}
