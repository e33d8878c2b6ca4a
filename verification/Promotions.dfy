/** Where a promotion, and the load that asks for one, leave the session. */
module Promotions {
  import opened Types
  import opened Cascade
  import opened Operations
  import opened Coherence
  import opened Descent
  import opened Raises
  import opened Evictions
  import opened Attempts

  /** The bytes have gone from the source to the target, and the index, if it still lists the session, says so. */
  ghost predicate Promoted(end: State, s: Sid, source: Tier, target: Tier, data: Blob) {
    && s in end.In(target) && end.In(target)[s] == data && s !in end.In(source)
    && (s in end.index ==> end.Has(s, target))
  }

  lemma RelocatePromotes(st: State, s: Sid, source: Tier, target: Tier, data: Blob)
    requires source != target
    ensures Promoted(st.Relocate(s, source, target, data), s, source, target, data)
  {
  }

  /** From every tier to every other: a promotion succeeds exactly when room can be made, and then moves the session. */
  lemma PromoteMoves(c: System, st: State, s: Sid, t: Tier)
    requires s in st.index && st.index[s].tier != t && st.Holds(s, st.index[s].tier)
    ensures var source := st.index[s].tier;
      var data, Outcome(ok, end) := st.In(source)[s], Promote(c, st, s, t);
      && ok == MakeRoom(c, st, t, |data|).ok
      && if ok then Promoted(end, s, source, t, data) else end == MakeRoom(c, st, t, |data|).st
  {
    hide MakeRoom;
    hide State.Relocate;
    hide Promoted;
    var source := st.index[s].tier;
    var data := st.In(source)[s];
    RelocatePromotes(MakeRoom(c, st, t, |data|).st, s, source, t, data);
  }

  /** A load of an indexed session answers its last bytes and, from wherever they were, moves them to the hot tier when
      room can be made there. */
  lemma LoadPromotes(c: System, st: State, last: Store, s: Sid)
    requires Sound(c, st, last) && NothingEmpty(last) && s in st.index
    ensures var source, loaded := st.index[s].tier, Load(c, st, s);
      && s in last && loaded.data == Some(last[s])
      && (source == Hot ==> Same(st, loaded.st) && loaded.st.Has(s, Hot) && s in st.hot && st.hot[s] == last[s])
      && (source != Hot && MakeRoom(c, Touch(st, s), Hot, |last[s]|).ok ==>
            Promoted(loaded.st, s, source, Hot, last[s]))
  {
    hide Promote;
    hide MakeRoom;
    hide Promoted;
    assert Newest(st, last, s);
    if st.index[s].tier != Hot {
      PromoteMoves(c, Touch(st, s), s, Hot);
    }
  }

  /** A session whose bytes are missing, or empty, is dropped from the index without a word to the policy. */
  lemma LoadOfMissing(c: System, st: State, s: Sid)
    requires s in st.index && !st.Holds(s, st.index[s].tier)
    ensures var loaded := Load(c, st, s);
      && loaded.data == None && loaded.st.index.Keys == st.index.Keys - {s} && s !in loaded.st.order
      && loaded.st.calls == st.calls
      && loaded.st.hot == st.hot && loaded.st.warm == st.warm && loaded.st.cold == st.cold
  {
    hide Promote;
  }

  ghost predicate Same(st: State, end: State) {
    end.hot == st.hot && end.warm == st.warm && end.cold == st.cold && end.order == st.order
  }

  // ---- When room can be made ----

  /** Without a bound on the attempts, all that counts is the size of the tier. */
  lemma {:induction false} MakeRoomIff(c: System, st: State, last: Store, t: Tier, n: nat)
    requires Sheds(c, st, last, t)
    ensures MakeRoom(c, st, t, n).ok <==> CouldHold(c, t, n)
    decreases |st.InTier(t)|
  {
    hide *;
    FullIff(c, st, t, n);
    CouldHoldIff(c, t, n);
    if !st.IsFull(c, t, n) {
      MakeRoomDone(c, st, t, n);
    } else {
      var step, victim := Evict(c, st, t), Victim(c, st, t);
      MakeRoomStep(c, st, t, n, step);
      if victim == None {
        NoneToEvict(c, st, t);
        ShedsNothing(c, st, last, t);
      } else {
        ShedsOne(c, st, last, t, victim.value);
        MakeRoomIff(c, step.st, last, t, n);
      }
    }
  }

  lemma CouldHoldIff(c: System, t: Tier, n: nat)
    ensures CouldHold(c, t, n) <==> !(0 < c.Capacity(t) < n)
  {
  }

  lemma TouchKeepsSheds(c: System, st: State, last: Store, s: Sid)
    requires Tidy(c, st, last) && Answers(c.policy) && Sinkable(c, st) && s in st.index
    ensures Sheds(c, Touch(st, s), last, Hot)
  {
    hide Answers;
    hide Sound;
    hide Placement.Exact;
    SameStoresKeep(c, st, Touch(st, s), last);
    TouchKeepsExact(st, s);
    TouchKeepsUpper(st, s);
    hide Touch;
  }

  lemma TouchKeepsExact(st: State, s: Sid)
    requires Placement.Exact(st) && s in st.index
    ensures Placement.Exact(Touch(st, s))
  {
    assert forall x :: Placement.ExactFor(st, x) ==> Placement.ExactFor(Touch(st, s), x);
  }

  lemma TouchKeepsUpper(st: State, s: Sid)
    requires s in st.index
    ensures Upper(Touch(st, s)) == Upper(st) && Touch(st, s).hot == st.hot && Touch(st, s).index.Keys == st.index.Keys
  {
  }

  /** So whatever the hot tier could hold is hot after it has been loaded. */
  lemma LoadReachesHot(c: System, st: State, last: Store, s: Sid)
    requires Tidy(c, st, last) && Answers(c.policy) && Sinkable(c, st)
    requires s in st.index && CouldHold(c, Hot, |last[s]|)
    ensures var source, loaded := st.index[s].tier, Load(c, st, s);
      && loaded.data == Some(last[s])
      && s in loaded.st.hot && loaded.st.hot[s] == last[s]
      && (source != Hot ==> s !in loaded.st.In(source))
      && (s in loaded.st.index ==> loaded.st.Has(s, Hot))
  {
    hide Load;
    hide MakeRoom;
    hide Sinkable;
    hide Answers;
    hide Touch;
    hide Sound;
    LoadPromotes(c, st, last, s);
    TouchKeepsSheds(c, st, last, s);
    MakeRoomIff(c, Touch(st, s), last, Hot, |last[s]|);
  }

  /** With an uncapped hot tier every load of an indexed session, after every run, leaves it in hot. */
  lemma UncappedHotLoads(c: System, ops: seq<Op>, s: Sid)
    requires c.hotCapacity <= 0 && Run(c, ops).ok && NonEmpty(ops) && s in Run(c, ops).st.index
    ensures var st, last := Run(c, ops).st, LastSaved(ops);
      var loaded := Load(c, st, s);
      && s in last && loaded.data == Some(last[s]) && loaded.st.Has(s, Hot)
      && s in loaded.st.hot && loaded.st.hot[s] == last[s]
      && (st.index[s].tier != Hot ==> s !in loaded.st.In(st.index[s].tier))
  {
    hide Run;
    hide MakeRoom;
    hide Load;
    var st, last := Run(c, ops).st, LastSaved(ops);
    RunIsSound(c, ops);
    LastSavedNotEmpty(ops);
    LoadPromotes(c, st, last, s);
    UncappedNeverFull(c, Touch(st, s), Hot, |last[s]|);
    MakeRoomDone(c, Touch(st, s), Hot, |last[s]|);
    UncappedHotKeeps(c, st, s);
  }

  lemma UncappedHotKeeps(c: System, st: State, s: Sid)
    requires c.hotCapacity <= 0 && s in st.index && st.Holds(s, st.index[s].tier)
    ensures s in Load(c, st, s).st.index
  {
    var touched, source := Touch(st, s), st.index[s].tier;
    MakeRoomDone(c, touched, Hot, |st.In(source)[s]|);
  }
}
