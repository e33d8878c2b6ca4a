/** Managers whose policies decide alike behave alike, over whole runs. */
module Agreement {
  import opened Types
  import opened Traces
  import opened Storage
  import opened Policies
  import opened Cascade
  import opened Operations

  /** The same manager but for its policy, and policies that give the same answers. */
  ghost predicate Twins(c: System, d: System) {
    Agree(c.policy, d.policy) && d == c.(policy := d.policy)
  }

  lemma EvictTwins(c: System, d: System, st: State, t: Tier)
    requires Twins(c, d)
    ensures Evict(c, st, t) == Evict(d, st, t)
    decreases 2 - Rank(t), 0, 1
  {
    EvictUnfolds(c, st, t);
    EvictUnfolds(d, st, t);
    hide Evict;
    hide Demote;
    hide Rivals;
    var victim := Victim(c, st, t);
    assert victim == Victim(d, st, t);
    if victim.Some? && t != Cold {
      DemoteTwins(c, d, st.Tell(Chosen(t, victim.value, Rivals(st, t))), victim.value);
    }
  }

  lemma EnsureTwins(c: System, d: System, st: State, t: Tier, n: nat, attempts: nat)
    requires Twins(c, d)
    ensures EnsureSpace(c, st, t, n, attempts) == EnsureSpace(d, st, t, n, attempts)
    decreases 2 - Rank(t), attempts, 2
  {
    EnsureSpaceUnfolds(c, st, t, n, attempts);
    EnsureSpaceUnfolds(d, st, t, n, attempts);
    hide EnsureSpace;
    hide Evict;
    if st.IsFull(c, t, n) && attempts > 0 {
      EvictTwins(c, d, st, t);
      if Evict(c, st, t).ok {
        EnsureTwins(c, d, Evict(c, st, t).st, t, n, attempts - 1);
      }
    }
  }

  lemma DemoteTwins(c: System, d: System, st: State, s: Sid)
    requires Twins(c, d)
    ensures Demote(c, st, s) == Demote(d, st, s)
    decreases 2 - (if s in st.index then Rank(st.index[s].tier) else 2), 0, 0
  {
    DemoteUnfolds(c, st, s);
    DemoteUnfolds(d, st, s);
    if Movable(st, s) {
      var source := st.index[s].tier;
      EnsureTwins(c, d, st, Below(source), |st.In(source)[s]|, MAX_ATTEMPTS);
    }
  }

  lemma {:induction false} MakeRoomTwins(c: System, d: System, st: State, t: Tier, n: nat)
    requires Twins(c, d)
    ensures MakeRoom(c, st, t, n) == MakeRoom(d, st, t, n)
    decreases |st.InTier(t)|
  {
    if st.IsFull(c, t, n) {
      EvictTwins(c, d, st, t);
      MakeRoomStep(c, st, t, n, Evict(c, st, t));
      MakeRoomStep(d, st, t, n, Evict(d, st, t));
      if Evict(c, st, t).ok {
        MakeRoomTwins(c, d, Evict(c, st, t).st, t, n);
      }
    }
  }

  lemma PromoteTwins(c: System, d: System, st: State, s: Sid, t: Tier)
    requires Twins(c, d)
    ensures Promote(c, st, s, t) == Promote(d, st, s, t)
  {
    if s in st.index && s in st.In(st.index[s].tier) {
      MakeRoomTwins(c, d, st, t, |st.In(st.index[s].tier)[s]|);
    }
  }

  lemma SaveTwins(c: System, d: System, st: State, s: Sid, user: string, data: Blob, tokens: nat)
    requires Twins(c, d)
    ensures Save(c, st, s, user, data, tokens) == Save(d, st, s, user, data, tokens)
  {
    hide EnsureSpace;
    hide Fits;
    hide Full;
    var roomy := EnsureSpace(c, st, Hot, |data|, MAX_ATTEMPTS);
    EnsureTwins(c, d, st, Hot, |data|, MAX_ATTEMPTS);
    EnsureTwins(c, d, roomy, Warm, |data|, MAX_ATTEMPTS);
  }

  lemma LoadTwins(c: System, d: System, st: State, s: Sid)
    requires Twins(c, d)
    ensures Load(c, st, s) == Load(d, st, s)
  {
    if s in st.index {
      PromoteTwins(c, d, Touch(st, s), s, Hot);
    }
  }

  lemma {:induction false} ExpiredTwins(c: System, d: System, st: State, order: seq<Sid>)
    requires Twins(c, d)
    ensures ExpiredIn(c, st, order) == ExpiredIn(d, st, order)
  {
    if order != [] {
      ExpiredTwins(c, d, st, order[1..]);
      if order[0] in st.index {
        var it := Candidate(order[0], st.index[order[0]]);
        assert Expired(c.policy, st.calls, st.now, it) == Expired(d.policy, st.calls, st.now, it);
      }
    }
  }

  lemma {:induction false} DemoteAllTwins(c: System, d: System, st: State, ids: seq<Sid>)
    requires Twins(c, d)
    ensures DemoteAll(c, st, ids) == DemoteAll(d, st, ids)
    decreases |ids|
  {
    if ids != [] {
      DemoteTwins(c, d, st, ids[0]);
      DemoteAllTwins(c, d, Demote(c, st, ids[0]).st, ids[1..]);
    }
  }

  lemma MaintainTwins(c: System, d: System, st: State)
    requires Twins(c, d)
    ensures Maintain(c, st) == Maintain(d, st)
  {
    ExpiredTwins(c, d, st, st.order);
    DemoteAllTwins(c, d, st, ExpiredIn(c, st, st.order));
  }

  lemma StepTwins(c: System, d: System, st: State, op: Op)
    requires Twins(c, d)
    ensures Step(c, st, op) == Step(d, st, op)
  {
    hide Twins;
    match op
    case DoSave(s, user, data, tokens) => SaveTwins(c, d, st, s, user, data, tokens);
    case DoLoad(s) => LoadTwins(c, d, st, s);
    case DoPromote(s, t) => PromoteTwins(c, d, st, s, t);
    case DoDemote(s) => DemoteTwins(c, d, st, s);
    case DoEvict(t) => EvictTwins(c, d, st, t);
    case DoDelete(s) =>
    case DoMaintain => MaintainTwins(c, d, st);
    case Tick(at) =>
  }

  /** Policies that answer every question alike give the same runs: same states, same failures. */
  lemma {:induction false} RunTwins(c: System, d: System, ops: seq<Op>)
    requires Twins(c, d)
    ensures Run(c, ops) == Run(d, ops)
    decreases |ops|
  {
    if ops != [] {
      RunTwins(c, d, ops[..|ops| - 1]);
      StepTwins(c, d, Run(c, ops[..|ops| - 1]).st, ops[|ops| - 1]);
    }
  }

  /** Under the perfect classifier and under Belady the manager does the same thing at every step. */
  lemma ClassifierRunsAreBeladyRuns(c: System, events: seq<Event>, window: real, ops: seq<Op>)
    ensures Run(c.(policy := OracleClassifier(events, window)), ops) == Run(c.(policy := Belady(events)), ops)
  {
    ClassifierIsBelady(events, window);
    RunTwins(c.(policy := OracleClassifier(events, window)), c.(policy := Belady(events)), ops);
  }
}
