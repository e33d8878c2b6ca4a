/** What one demotion and one eviction do to the session they are about, and how many evictions a loop makes. */
module Evictions {
  import opened Types
  import opened Policies
  import opened Cascade
  import opened Operations
  import opened Coherence
  import opened Placement
  import opened Raises

  // ---- One demotion ----

  /** Where a demotion from tier t leaves its session: one tier lower, gone off the cold end, or stuck in hot. */
  ghost predicate Lowered(st: State, demoted: Outcome, s: Sid, t: Tier, data: Blob)
    requires t != Cold
  {
    var end := demoted.st;
    if !demoted.ok then t == Hot && end.Has(s, Hot) && end.hot == st.hot
    else
      && end.In(t) == st.In(t) - {s} && end.InTier(t) == st.InTier(t) - {s}
      && if s in end.index then end.Has(s, Below(t)) && s in end.In(Below(t)) && end.In(Below(t))[s] == data
         else t == Warm
  }

  lemma SettleLowers(c: System, roomy: State, s: Sid, t: Tier, data: Blob)
    requires t != Cold && roomy.Has(s, t)
    ensures Lowered(roomy, Settle(c, roomy, s, t, data), s, t, data)
    ensures Settle(c, roomy, s, t, data).ok <==> t == Warm || !roomy.IsFull(c, Warm, |data|)
  {
    var end := Settle(c, roomy, s, t, data).st;
    hide State.IsFull;
    if Settle(c, roomy, s, t, data).ok {
      assert end.InTier(t) == roomy.InTier(t) - {s};
    }
  }

  /** A demotion that finds its session's bytes lowers it; otherwise it does nothing at all. */
  lemma DemoteLowers(c: System, st: State, s: Sid)
    ensures !Movable(st, s) ==> Demote(c, st, s) == Outcome(false, st)
    ensures Movable(st, s) ==>
      var t := st.index[s].tier;
      Lowered(st, Demote(c, st, s), s, t, st.In(t)[s])
  {
    hide Demote;
    hide EnsureSpace;
    hide Settle;
    hide Path;
    hide Lowered;
    DemoteUnfolds(c, st, s);
    if Movable(st, s) {
      var t, data := st.index[s].tier, st.In(st.index[s].tier)[s];
      var roomy := EnsureSpace(c, st, Below(t), |data|, MAX_ATTEMPTS);
      var ms := EnsurePath(c, st, Below(t), |data|, MAX_ATTEMPTS);
      PathSparesHotter(c, st, ms, roomy, Rank(Below(t)), t);
      assert st.Has(s, t);
      SettleLowers(c, roomy, s, t, data);
      LoweredFrom(st, roomy, Settle(c, roomy, s, t, data), s, t, data);
    }
  }

  lemma LoweredFrom(st: State, roomy: State, demoted: Outcome, s: Sid, t: Tier, data: Blob)
    requires t != Cold && roomy.In(t) == st.In(t) && roomy.InTier(t) == st.InTier(t)
    requires Lowered(roomy, demoted, s, t, data)
    ensures Lowered(st, demoted, s, t, data)
  {
  }

  // ---- One eviction ----

  /** Any hot session could be sunk into the warm tier, if need be by emptying that. */
  ghost predicate Sinkable(c: System, st: State) {
    c.warmCapacity <= 0 || (|Upper(st)| <= 50 && forall s :: s in st.hot ==> |st.hot[s]| <= c.warmCapacity)
  }

  lemma TellKeepsTidy(c: System, st: State, last: Store, call: Call)
    requires Tidy(c, st, last)
    ensures Tidy(c, st.Tell(call), last)
  {
    hide Sound;
    SameStoresKeep(c, st, st.Tell(call), last);
    TellKeepsExact(st, call);
  }

  lemma UpperHoldsWarm(st: State)
    ensures |st.InTier(Warm)| <= |Upper(st)|
  {
    Smaller(st.InTier(Warm), Upper(st));
  }

  lemma HotVictimSinks(c: System, st: State, last: Store, v: Sid)
    requires Tidy(c, st, last) && Answers(c.policy) && st.Has(v, Hot) && Sinkable(c, st)
    ensures Demote(c, st, v).ok
  {
    hide Demote;
    hide EnsureSpace;
    hide Settle;
    hide Tidy;
    hide Answers;
    hide Path;
    hide State.IsFull;
    hide State.InTier;
    hide Upper;
    TidyHolds(c, st, last, v, Hot);
    DemoteUnfolds(c, st, v);
    var data := st.hot[v];
    var roomy := EnsureSpace(c, st, Warm, |data|, MAX_ATTEMPTS);
    var ms := EnsurePath(c, st, Warm, |data|, MAX_ATTEMPTS);
    PathSparesHotter(c, st, ms, roomy, 1, Hot);
    SettleLowers(c, roomy, v, Hot, data);
    if c.warmCapacity <= 0 {
      UncappedNeverFull(c, roomy, Warm, |data|);
    } else {
      UpperHoldsWarm(st);
      WarmMakesRoom(c, st, last, |data|, MAX_ATTEMPTS);
    }
  }

  /** The victim is the one that leaves: to the tier below with its bytes, or for good when it was warm or cold. */
  lemma EvictionFrees(c: System, st: State, last: Store, t: Tier, v: Sid)
    requires Tidy(c, st, last) && Answers(c.policy) && Victim(c, st, t) == Some(v) && (t == Hot ==> Sinkable(c, st))
    ensures v in st.In(t) && Evict(c, st, t).ok
    ensures var next := Evict(c, st, t).st;
      && next.In(t) == st.In(t) - {v} && next.InTier(t) == st.InTier(t) - {v}
      && (t == Cold ==> v !in next.index)
      && (t == Hot ==> v in next.index)
      && (v in next.index ==>
            t != Cold && next.Has(v, Below(t)) && v in next.In(Below(t)) && next.In(Below(t))[v] == st.In(t)[v])
  {
    hide Evict;
    hide Demote;
    hide Victim;
    hide Tidy;
    hide Answers;
    hide Rivals;
    hide Sinkable;
    hide State.InTier;
    EvictUnfolds(c, st, t);
    TidyHolds(c, st, last, v, t);
    var told := st.Tell(Chosen(t, v, Rivals(st, t)));
    TellKeepsTidy(c, st, last, Chosen(t, v, Rivals(st, t)));
    if t == Cold {
      ColdVictimGoes(told, v);
    } else {
      DemoteLowers(c, told, v);
      if t == Hot {
        TellKeepsSinkable(c, st, Chosen(t, v, Rivals(st, t)));
        HotVictimSinks(c, told, last, v);
      }
    }
    TellKeepsPlaces(st, Chosen(t, v, Rivals(st, t)), t);
  }

  lemma ColdVictimGoes(st: State, v: Sid)
    requires st.Has(v, Cold)
    ensures var next := Delete(st, v).st;
      Delete(st, v).ok && v !in next.index && next.cold == st.cold - {v} && next.InTier(Cold) == st.InTier(Cold) - {v}
  {
    assert Delete(st, v).st.InTier(Cold) == st.InTier(Cold) - {v};
  }

  lemma TellKeepsPlaces(st: State, call: Call, t: Tier)
    ensures st.Tell(call).In(t) == st.In(t) && st.Tell(call).InTier(t) == st.InTier(t)
  {
  }

  lemma TellKeepsSinkable(c: System, st: State, call: Call)
    requires Sinkable(c, st)
    ensures Sinkable(c, st.Tell(call))
  {
    assert Upper(st.Tell(call)) == Upper(st);
  }

  /** An empty id is no victim: with a session of that name chosen, nothing is evicted and the policy hears nothing. */
  lemma EmptyIdStays(c: System, st: State, t: Tier)
    requires Candidates(st.order, st.index, t) != []
    requires Select(c.policy, st.calls, st.now, Candidates(st.order, st.index, t)) == Some("")
    ensures Evict(c, st, t) == Outcome(false, st)
  {
    EvictUnfolds(c, st, t);
    hide Evict;
    hide Select;
    hide Candidates;
  }

  /** Nothing rises, so what could be sunk still can. */
  lemma EvictionKeepsSinkable(c: System, st: State, last: Store, v: Sid)
    requires Tidy(c, st, last) && Answers(c.policy) && Victim(c, st, Hot) == Some(v) && Sinkable(c, st)
    ensures Sinkable(c, Evict(c, st, Hot).st)
  {
    hide Evict;
    hide Victim;
    hide Tidy;
    hide Answers;
    hide Path;
    var next := Evict(c, st, Hot).st;
    EvictionFrees(c, st, last, Hot, v);
    var ms := EvictPath(c, st, Hot);
    forall s | s in Upper(next)
      ensures s in Upper(st)
    {
      PathAddsNobody(c, st, ms, next, 0, s);
    }
    Smaller(Upper(next), Upper(st));
  }

  // ---- How many evictions a loop makes ----

  /** So many evictions in a row, stopping at the first that fails. */
  ghost function Evicted(c: System, st: State, t: Tier, k: nat): Outcome {
    if k == 0 then Outcome(true, st)
    else
      var before := Evicted(c, st, t, k - 1);
      if before.ok then Evict(c, before.st, t) else before
  }

  lemma {:induction false} EvictedFirst(c: System, st: State, t: Tier, k: nat)
    requires Evict(c, st, t).ok
    ensures Evicted(c, st, t, k + 1) == Evicted(c, Evict(c, st, t).st, t, k)
    decreases k
  {
    hide Evict;
    if k == 0 {
      assert Evicted(c, st, t, 0) == Outcome(true, st);
    } else {
      EvictedFirst(c, st, t, k - 1);
    }
  }

  /** The data fits after k evictions and after no fewer, or one of them failed. */
  ghost predicate FirstRoom(c: System, st: State, t: Tier, n: nat, k: nat) {
    && (forall j :: 0 <= j < k ==> Evicted(c, st, t, j).ok && Evicted(c, st, t, j).st.IsFull(c, t, n))
    && (Evicted(c, st, t, k).ok ==> !Evicted(c, st, t, k).st.IsFull(c, t, n))
  }

  lemma FirstRoomLater(c: System, st: State, t: Tier, n: nat, k: nat)
    requires Evict(c, st, t).ok && st.IsFull(c, t, n) && FirstRoom(c, Evict(c, st, t).st, t, n, k)
    ensures FirstRoom(c, st, t, n, k + 1)
  {
    hide Evict;
    hide State.IsFull;
    hide Evicted;
    var next := Evict(c, st, t).st;
    forall j | 0 <= j < k + 1
      ensures Evicted(c, st, t, j).ok && Evicted(c, st, t, j).st.IsFull(c, t, n)
    {
      if j == 0 {
        NoneEvicted(c, st, t);
      } else {
        EvictedFirst(c, st, t, j - 1);
        assert Evicted(c, next, t, j - 1).ok;
      }
    }
    EvictedFirst(c, st, t, k);
  }

  lemma NoneEvicted(c: System, st: State, t: Tier)
    ensures Evicted(c, st, t, 0) == Outcome(true, st)
    ensures Evicted(c, st, t, 1) == Evict(c, st, t)
  {
    hide Evict;
    assert Evicted(c, st, t, 0) == Outcome(true, st);
  }

  /** A promotion evicts until the data fits, or until an eviction fails. */
  lemma {:induction false} MakeRoomEvicts(c: System, st: State, t: Tier, n: nat) returns (k: nat)
    ensures MakeRoom(c, st, t, n) == Evicted(c, st, t, k) && FirstRoom(c, st, t, n, k)
    decreases |st.InTier(t)|
  {
    hide MakeRoom;
    hide Evict;
    hide State.IsFull;
    hide State.InTier;
    hide Evicted;
    NoneEvicted(c, st, t);
    if !st.IsFull(c, t, n) {
      MakeRoomDone(c, st, t, n);
      return 0;
    }
    var step := Evict(c, st, t);
    MakeRoomStep(c, st, t, n, step);
    if !step.ok {
      return 1;
    }
    k := MakeRoomEvicts(c, step.st, t, n);
    EvictedFirst(c, st, t, k);
    FirstRoomLater(c, st, t, n, k);
    k := k + 1;
  }

  /** Space making does the same, but gives up after so many attempts. */
  lemma {:induction false} EnsureSpaceEvicts(c: System, st: State, t: Tier, n: nat, attempts: nat) returns (k: nat)
    ensures k <= attempts && EnsureSpace(c, st, t, n, attempts) == Evicted(c, st, t, k).st
    ensures forall j :: 0 <= j < k ==> Evicted(c, st, t, j).ok && Evicted(c, st, t, j).st.IsFull(c, t, n)
    ensures k < attempts ==> FirstRoom(c, st, t, n, k)
    decreases attempts
  {
    hide EnsureSpace;
    hide Evict;
    hide State.IsFull;
    hide Evicted;
    hide FirstRoom;
    NoneEvicted(c, st, t);
    EnsureSpaceUnfolds(c, st, t, n, attempts);
    if !st.IsFull(c, t, n) || attempts == 0 {
      FirstRoomNow(c, st, t, n);
      return 0;
    }
    var next := Evict(c, st, t).st;
    if !Evict(c, st, t).ok {
      FirstRoomNow(c, st, t, n);
      return 1;
    }
    k := EnsureSpaceEvicts(c, next, t, n, attempts - 1);
    EvictedFirst(c, st, t, k);
    EvictedWhileFull(c, st, t, n, k);
    if k < attempts - 1 {
      FirstRoomLater(c, st, t, n, k);
    }
    k := k + 1;
  }

  lemma FirstRoomNow(c: System, st: State, t: Tier, n: nat)
    ensures !st.IsFull(c, t, n) ==> FirstRoom(c, st, t, n, 0)
    ensures st.IsFull(c, t, n) && !Evict(c, st, t).ok ==> FirstRoom(c, st, t, n, 1)
  {
    hide Evict;
    hide State.IsFull;
    hide Evicted;
    NoneEvicted(c, st, t);
  }

  lemma EvictedWhileFull(c: System, st: State, t: Tier, n: nat, k: nat)
    requires Evict(c, st, t).ok && st.IsFull(c, t, n)
    requires var next := Evict(c, st, t).st;
      forall j :: 0 <= j < k ==> Evicted(c, next, t, j).ok && Evicted(c, next, t, j).st.IsFull(c, t, n)
    ensures forall j :: 0 <= j < k + 1 ==> Evicted(c, st, t, j).ok && Evicted(c, st, t, j).st.IsFull(c, t, n)
  {
    hide Evict;
    hide State.IsFull;
    hide Evicted;
    forall j | 0 <= j < k + 1
      ensures Evicted(c, st, t, j).ok && Evicted(c, st, t, j).st.IsFull(c, t, n)
    {
      if j == 0 {
        NoneEvicted(c, st, t);
      } else {
        EvictedFirst(c, st, t, j - 1);
      }
    }
  }
}
