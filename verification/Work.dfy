/** How many victims one operation can select. */
module Work {
  import opened Types
  import opened Policies
  import opened Cascade
  import opened Operations

  /** Victims selected so far in a tier. */
  function Victims(calls: seq<Call>, t: Tier): nat {
    if calls == [] then 0
    else
      var last := calls[|calls| - 1];
      Victims(calls[..|calls| - 1], t) + if last.Chosen? && last.tier == t then 1 else 0
  }

  lemma VictimsTold(calls: seq<Call>, call: Call)
    ensures forall t: Tier ::
      Victims(calls + [call], t) == Victims(calls, t) + if call.Chosen? && call.tier == t then 1 else 0
  {
  }

  ghost function Spent(st: State, end: State, t: Tier): int {
    Victims(end.calls, t) - Victims(st.calls, t)
  }

  /** Between the two states at most n victims left tier t, and 50 more per victim in each colder tier. */
  ghost predicate Bounded(st: State, end: State, t: Tier, n: nat) {
    var hot := if t == Hot then n else 0;
    var warm := if t == Cold then 0 else if t == Hot then MAX_ATTEMPTS * n else n;
    var cold := if t == Cold then n else MAX_ATTEMPTS * warm;
    Spent(st, end, Hot) <= hot && Spent(st, end, Warm) <= warm && Spent(st, end, Cold) <= cold
  }

  lemma EvictBounded(c: System, st: State, t: Tier)
    ensures Bounded(st, Evict(c, st, t).st, t, 1)
    decreases 2 - Rank(t), 0, 1
  {
    hide Victims;
    hide Evict;
    hide Demote;
    hide Victim;
    hide Rivals;
    EvictUnfolds(c, st, t);
    var victim := Victim(c, st, t);
    if victim.Some? {
      var v := victim.value;
      var chosen := Chosen(t, v, Rivals(st, t));
      VictimsTold(st.calls, chosen);
      if t == Cold {
        VictimsTold(st.calls + [chosen], Removed(v));
      } else {
        DemoteBounded(c, st.Tell(chosen), v);
      }
    }
  }

  lemma EnsureBounded(c: System, st: State, t: Tier, n: nat, attempts: nat)
    ensures Bounded(st, EnsureSpace(c, st, t, n, attempts), t, attempts)
    decreases 2 - Rank(t), attempts, 2
  {
    EnsureSpaceUnfolds(c, st, t, n, attempts);
    hide EnsureSpace;
    hide Evict;
    if st.IsFull(c, t, n) && attempts > 0 {
      var Outcome(evicted, next) := Evict(c, st, t);
      EvictBounded(c, st, t);
      if evicted {
        EnsureBounded(c, next, t, n, attempts - 1);
      }
    }
  }

  lemma DemoteBounded(c: System, st: State, s: Sid)
    requires s in st.index && st.index[s].tier != Cold
    ensures Bounded(st, Demote(c, st, s).st, Below(st.index[s].tier), MAX_ATTEMPTS)
    decreases 2 - Rank(st.index[s].tier), 0, 0
  {
    DemoteUnfolds(c, st, s);
    if Movable(st, s) {
      var source := st.index[s].tier;
      var n := |st.In(source)[s]|;
      EnsureBounded(c, st, Below(source), n, MAX_ATTEMPTS);
      var roomy := EnsureSpace(c, st, Below(source), n, MAX_ATTEMPTS);
      VictimsTold(roomy.calls, Removed(s));
    }
  }

  /** One save selects at most 50 hot, 2,550 warm and 127,500 cold victims. */
  lemma SaveWork(c: System, st: State, s: Sid, user: string, data: Blob, tokens: nat)
    ensures var end := Save(c, st, s, user, data, tokens).st;
      Spent(st, end, Hot) <= 50 && Spent(st, end, Warm) <= 2550 && Spent(st, end, Cold) <= 127500
  {
    hide EnsureSpace;
    hide Victims;
    hide Accepts;
    var roomy := EnsureSpace(c, st, Hot, |data|, MAX_ATTEMPTS);
    EnsureBounded(c, st, Hot, |data|, MAX_ATTEMPTS);
    if roomy.IsFull(c, Hot, |data|) {
      EnsureBounded(c, roomy, Warm, |data|, MAX_ATTEMPTS);
    }
    var spot := SaveSpot(c, st, |data|);
    var indexed := IndexSave(c, spot.st, spot.tier, s, user, data, tokens);
    if s !in spot.st.index {
      VictimsTold(spot.st.calls, Inserted(s, indexed.index[s], spot.st.now));
    }
  }

  /** A promotion selects at most one victim per session indexed in its target, and 50 per victim in colder tiers. */
  lemma {:induction false} PromoteWork(c: System, st: State, t: Tier, n: nat)
    ensures Bounded(st, MakeRoom(c, st, t, n).st, t, |st.InTier(t)| + 1)
    decreases |st.InTier(t)|
  {
    hide Evict;
    hide MakeRoom;
    hide State.InTier;
    hide Victims;
    if st.IsFull(c, t, n) {
      var Outcome(evicted, next) := Evict(c, st, t);
      EvictBounded(c, st, t);
      MakeRoomStep(c, st, t, n, Evict(c, st, t));
      if evicted {
        PromoteWork(c, next, t, n);
        EvictShrinks(c, st, t);
      }
    } else {
      MakeRoomDone(c, st, t, n);
    }
  }
}
