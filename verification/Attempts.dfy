/** What fifty evictions free, and a run in which they do not free enough. */
module Attempts {
  import opened Types
  import opened Storage
  import opened Cascade
  import opened Operations
  import opened Coherence
  import opened Descent
  import opened Placement
  import opened Raises
  import opened Evictions

  /** Bytes of the first k victims of a tier. */
  ghost function Freed(c: System, st: State, t: Tier, k: nat): nat
    decreases k
  {
    match Victim(c, st, t)
    case None => 0
    case Some(v) =>
      if k == 0 || v !in st.In(t) then 0 else |st.In(t)[v]| + Freed(c, Evict(c, st, t).st, t, k - 1)
  }

  lemma FreedUnfolds(c: System, st: State, t: Tier, k: nat)
    ensures Freed(c, st, t, k)
         == var victim := Victim(c, st, t);
            if victim == None || k == 0 || victim.value !in st.In(t) then 0
            else |st.In(t)[victim.value]| + Freed(c, Evict(c, st, t).st, t, k - 1)
  {
  }

  lemma NoneToEvict(c: System, st: State, t: Tier)
    requires Victim(c, st, t) == None
    ensures Evict(c, st, t) == Outcome(false, st)
  {
    EvictUnfolds(c, st, t);
    hide Evict;
    hide Victim;
  }

  lemma NobodyToEvict(c: System, st: State, last: Store, t: Tier)
    requires Tidy(c, st, last) && Answers(c.policy) && Victim(c, st, t) == None
    ensures st.In(t) == map[] && st.InTier(t) == {}
  {
    hide Victim;
    forall s
      ensures s !in st.In(t) && s !in st.InTier(t)
    {
      assert ExactFor(st, s);
      if st.Has(s, t) {
        VictimIfAny(c, st, last, t, s);
      }
    }
  }

  lemma FullIff(c: System, st: State, t: Tier, n: nat)
    ensures st.IsFull(c, t, n) <==> 0 < c.Capacity(t) < Bytes(st.In(t)) + n
  {
  }

  /** A tidy state under a policy that answers; of the hot tier, one whose sessions can be sunk. */
  ghost predicate Sheds(c: System, st: State, last: Store, t: Tier) {
    Tidy(c, st, last) && Answers(c.policy) && (t == Hot ==> Sinkable(c, st))
  }

  lemma ShedsOne(c: System, st: State, last: Store, t: Tier, v: Sid)
    requires Sheds(c, st, last, t) && Victim(c, st, t) == Some(v)
    ensures var next := Evict(c, st, t).st;
      && Evict(c, st, t).ok && Sheds(c, next, last, t)
      && v in st.In(t) && next.In(t) == st.In(t) - {v} && v in st.InTier(t) && next.InTier(t) == st.InTier(t) - {v}
      && Bytes(next.In(t)) == Bytes(st.In(t)) - |st.In(t)[v]|
      && (v in next.index ==>
            t != Cold && next.Has(v, Below(t)) && v in next.In(Below(t)) && next.In(Below(t))[v] == st.In(t)[v])
  {
    hide Evict;
    hide Victim;
    hide Tidy;
    hide Answers;
    hide Sinkable;
    hide Bytes;
    EvictionFrees(c, st, last, t, v);
    EvictionKeepsTidy(c, st, last, t);
    BytesDrop(st.In(t), v);
    if t == Hot {
      EvictionKeepsSinkable(c, st, last, v);
    }
  }

  /** Making space fails exactly when what the victims leave behind is still too much. */
  lemma {:induction false} StaysFullIff(c: System, st: State, last: Store, t: Tier, n: nat, attempts: nat)
    requires Sheds(c, st, last, t)
    ensures Freed(c, st, t, attempts) <= Bytes(st.In(t))
    ensures EnsureSpace(c, st, t, n, attempts).IsFull(c, t, n)
       <==> 0 < c.Capacity(t) < Bytes(st.In(t)) - Freed(c, st, t, attempts) + n
    decreases attempts
  {
    hide *;
    EnsureSpaceUnfolds(c, st, t, n, attempts);
    FreedUnfolds(c, st, t, attempts);
    FullIff(c, st, t, n);
    var victim := Victim(c, st, t);
    if victim == None {
      NoneToEvict(c, st, t);
    } else if attempts > 0 {
      ShedsOne(c, st, last, t, victim.value);
      StaysFullIff(c, Evict(c, st, t).st, last, t, n, attempts - 1);
    }
  }

  /** As many attempts as the tier has sessions free everything. */
  lemma {:induction false} FreedAll(c: System, st: State, last: Store, t: Tier, k: nat)
    requires Sheds(c, st, last, t) && |st.InTier(t)| <= k
    ensures Freed(c, st, t, k) == Bytes(st.In(t))
    decreases k
  {
    hide Evict;
    hide Victim;
    hide Sheds;
    hide Freed;
    hide Bytes;
    FreedUnfolds(c, st, t, k);
    var victim := Victim(c, st, t);
    if victim == None {
      ShedsNothing(c, st, last, t);
    } else {
      ShedsOne(c, st, last, t, victim.value);
      FreedAll(c, Evict(c, st, t).st, last, t, k - 1);
    }
  }

  lemma ShedsNothing(c: System, st: State, last: Store, t: Tier)
    requires Sheds(c, st, last, t) && Victim(c, st, t) == None
    ensures st.In(t) == map[] && st.InTier(t) == {} && Bytes(st.In(t)) == 0
  {
    hide Victim;
    hide Tidy;
    NobodyToEvict(c, st, last, t);
    NoBytes();
  }

  // ---- Where a save goes ----

  /** A save raises exactly when hot stays full and the first fifty victims of warm free too little. */
  lemma SaveRaisesIffTooLittleFreed(c: System, st: State, last: Store, s: Sid, user: string, data: Blob, tokens: nat)
    requires Tidy(c, st, last) && Answers(c.policy)
    ensures var roomy := EnsureSpace(c, st, Hot, |data|, 50);
      !Save(c, st, s, user, data, tokens).ok
      <==> roomy.IsFull(c, Hot, |data|)
           && 0 < c.warmCapacity < Bytes(roomy.warm) - Freed(c, roomy, Warm, 50) + |data|
  {
    hide Tidy;
    hide Answers;
    hide Save;
    hide EnsureSpace;
    hide Freed;
    hide Upper;
    hide State.IsFull;
    SaveRaisesIff(c, st, s, user, data, tokens);
    HotCascadeKeepsTidy(c, st, last, |data|);
    StaysFullIff(c, EnsureSpace(c, st, Hot, |data|, MAX_ATTEMPTS), last, Warm, |data|, MAX_ATTEMPTS);
  }

  /** When the hot sessions can be sunk, a save goes to hot exactly when its first fifty victims free enough. */
  lemma SaveGoesHotIff(c: System, st: State, last: Store, s: Sid, user: string, data: Blob, tokens: nat)
    requires Tidy(c, st, last) && Answers(c.policy) && Sinkable(c, st)
    ensures var Outcome(ok, end) := Save(c, st, s, user, data, tokens);
      && (end.Has(s, Hot) <==> c.hotCapacity <= 0 || Bytes(st.hot) - Freed(c, st, Hot, 50) + |data| <= c.hotCapacity)
      && (end.Has(s, Hot) ==> ok && s in end.hot && end.hot[s] == data)
      && (!end.Has(s, Hot) ==> end.Has(s, Warm) && (ok ==> s in end.warm && end.warm[s] == data))
  {
    hide Tidy;
    hide Answers;
    hide Sinkable;
    hide EnsureSpace;
    hide Freed;
    hide Save;
    hide State.IsFull;
    StaysFullIff(c, st, last, Hot, |data|, MAX_ATTEMPTS);
    SaveGoesBySpace(c, st, s, user, data, tokens);
  }

  lemma SaveGoesBySpace(c: System, st: State, s: Sid, user: string, data: Blob, tokens: nat)
    ensures var Outcome(ok, end) := Save(c, st, s, user, data, tokens);
      var t := if EnsureSpace(c, st, Hot, |data|, MAX_ATTEMPTS).IsFull(c, Hot, |data|) then Warm else Hot;
      && end.Has(s, t) && (t == Hot ==> ok) && (ok ==> s in end.In(t) && end.In(t)[s] == data)
  {
    hide EnsureSpace;
    hide State.IsFull;
    hide Accepts;
    hide IndexSave;
    hide State.Put;
    var spot := SaveSpot(c, st, |data|);
    SaveToFiles(c, spot.st, spot.tier, s, user, data, tokens);
    if spot.tier == Hot {
      RoomIndexed(c, spot.st, Hot, s, user, data, tokens);
      RoomIsAccepted(c, IndexSave(c, spot.st, Hot, s, user, data, tokens), Hot, s, data);
    }
  }

  lemma RoomIndexed(c: System, st: State, t: Tier, s: Sid, user: string, data: Blob, tokens: nat)
    ensures IndexSave(c, st, t, s, user, data, tokens).IsFull(c, t, |data|) == st.IsFull(c, t, |data|)
  {
    assert IndexSave(c, st, t, s, user, data, tokens).In(t) == st.In(t);
    hide IndexSave;
  }

  lemma SaveToFiles(c: System, st: State, t: Tier, s: Sid, user: string, data: Blob, tokens: nat)
    ensures var indexed := IndexSave(c, st, t, s, user, data, tokens);
      indexed.Has(s, t) && indexed.Put(t, s, data).Has(s, t)
      && s in indexed.Put(t, s, data).In(t) && indexed.Put(t, s, data).In(t)[s] == data
  {
  }

  /** So with at most fifty sessions in the hot tier, whatever fits there alone is saved there. */
  lemma SaveGoesHot(c: System, st: State, last: Store, s: Sid, user: string, data: Blob, tokens: nat)
    requires Tidy(c, st, last) && Answers(c.policy) && Sinkable(c, st)
    requires |st.InTier(Hot)| <= 50 && CouldHold(c, Hot, |data|)
    ensures var Outcome(ok, end) := Save(c, st, s, user, data, tokens);
      ok && end.Has(s, Hot) && s in end.hot && end.hot[s] == data
  {
    hide Tidy;
    hide Answers;
    hide Sinkable;
    hide Freed;
    hide Save;
    hide State.InTier;
    SaveGoesHotIff(c, st, last, s, user, data, tokens);
    FreedAll(c, st, last, Hot, 50);
  }

  /** A demotion sinks its session exactly when the first fifty victims one tier below free enough. */
  lemma DemoteSinksIff(c: System, st: State, last: Store, s: Sid)
    requires s in st.index && st.index[s].tier != Cold && Sheds(c, st, last, Below(st.index[s].tier))
    ensures var t := st.index[s].tier;
      && s in st.In(t)
      && (Demote(c, st, s).ok && s in Demote(c, st, s).st.index
          <==> !(0 < c.Capacity(Below(t))
                   < Bytes(st.In(Below(t))) - Freed(c, st, Below(t), 50) + |st.In(t)[s]|))
  {
    hide Demote;
    hide EnsureSpace;
    hide Freed;
    hide Tidy;
    hide Answers;
    hide Settle;
    hide State.IsFull;
    hide Bytes;
    hide Path;
    var t := st.index[s].tier;
    TidyHolds(c, st, last, s, t);
    var n := |st.In(t)[s]|;
    DemoteUnfolds(c, st, s);
    StaysFullIff(c, st, last, Below(t), n, MAX_ATTEMPTS);
    var roomy := EnsureSpace(c, st, Below(t), n, MAX_ATTEMPTS);
    var ms := EnsurePath(c, st, Below(t), n, MAX_ATTEMPTS);
    PathSparesHotter(c, st, ms, roomy, Rank(Below(t)), t);
    assert st.Has(s, t);
    SettleSinksIff(c, roomy, s, t, st.In(t)[s]);
  }

  lemma SettleSinksIff(c: System, roomy: State, s: Sid, t: Tier, data: Blob)
    requires t != Cold && roomy.Has(s, t)
    ensures var settled := Settle(c, roomy, s, t, data);
      settled.ok && s in settled.st.index <==> !roomy.IsFull(c, Below(t), |data|)
  {
    hide State.IsFull;
  }

  // ---- Blobs of one length ----

  predicate AllOf(stored: Store, length: nat) {
    forall s :: s in stored ==> |stored[s]| == length
  }

  function Least(a: nat, b: nat): nat {
    if a < b then a else b
  }

  lemma OneMore(k: nat, length: nat)
    ensures (k + 1) * length == k * length + length
  {
  }

  lemma {:induction false} BytesOfAll(stored: Store, length: nat)
    requires AllOf(stored, length)
    ensures Bytes(stored) == |stored| * length
    decreases |stored|
  {
    hide Bytes;
    if stored == map[] {
      NoBytes();
    } else {
      var s :| s in stored;
      BytesDrop(stored, s);
      BytesOfAll(stored - {s}, length);
      OneMore(|stored - {s}|, length);
    }
  }

  lemma FreedStep(c: System, st: State, last: Store, t: Tier, v: Sid, length: nat, k: nat)
    requires Sheds(c, st, last, t) && AllOf(st.In(t), length) && Victim(c, st, t) == Some(v)
    ensures var next := Evict(c, st, t).st;
      && Sheds(c, next, last, t) && AllOf(next.In(t), length) && |st.In(t)| == |next.In(t)| + 1
      && (k > 0 ==> Freed(c, st, t, k) == length + Freed(c, next, t, k - 1))
  {
    hide Evict;
    hide Sheds;
    hide Freed;
    hide Victim;
    hide Bytes;
    FreedUnfolds(c, st, t, k);
    ShedsOne(c, st, last, t, v);
    var next := Evict(c, st, t).st;
    assert st.In(t).Keys == next.In(t).Keys + {v} && |st.In(t).Keys| == |next.In(t).Keys| + 1;
  }

  lemma LeastStep(k: nat, n: nat, length: nat)
    ensures Least(k + 1, n + 1) * length == Least(k, n) * length + length
    ensures Least(k, 0) * length == 0 && Least(0, n) * length == 0
  {
    OneMore(Least(k, n), length);
  }

  lemma {:induction false} FreedOfAll(c: System, st: State, last: Store, t: Tier, length: nat, k: nat)
    requires Sheds(c, st, last, t) && AllOf(st.In(t), length)
    ensures Freed(c, st, t, k) == Least(k, |st.In(t)|) * length
    decreases k
  {
    hide *;
    FreedUnfolds(c, st, t, k);
    var victim := Victim(c, st, t);
    LeastStep(k, |st.In(t)|, length);
    if victim == None {
      ShedsNothing(c, st, last, t);
    } else if k > 0 {
      var next := Evict(c, st, t).st;
      FreedStep(c, st, last, t, victim.value, length, k);
      FreedOfAll(c, next, last, t, length, k - 1);
      LeastStep(k - 1, |next.In(t)|, length);
    }
  }

  /** With blobs of one length, space making stops at the sessions that the attempts do not reach. */
  lemma StaysFullOfAllIff(c: System, st: State, last: Store, t: Tier, length: nat, n: nat, attempts: nat)
    requires Sheds(c, st, last, t) && AllOf(st.In(t), length)
    ensures EnsureSpace(c, st, t, n, attempts).IsFull(c, t, n)
       <==> 0 < c.Capacity(t) < (|st.In(t)| - Least(attempts, |st.In(t)|)) * length + n
  {
    hide *;
    StaysFullIff(c, st, last, t, n, attempts);
    FreedOfAll(c, st, last, t, length, attempts);
    BytesOfAll(st.In(t), length);
    Difference(|st.In(t)|, Least(attempts, |st.In(t)|), length);
  }

  lemma Difference(a: nat, b: nat, length: nat)
    ensures (a - b) * length == a * length - b * length
  {
  }

  // ---- A run that fills the warm tier ----

  /** Save and demote each session in turn. */
  function Fill(names: seq<Sid>, data: Blob): seq<Op> {
    if names == [] then []
    else Fill(names[..|names| - 1], data) + [DoSave(names[|names| - 1], "", data, 0), DoDemote(names[|names| - 1])]
  }

  /** Every named session is in the warm tier with the same blob, and nothing else is anywhere. */
  ghost predicate Filled(st: State, names: seq<Sid>, data: Blob) {
    && st.hot == map[] && st.cold == map[] && st.warm == (map s | s in names :: data)
    && st.index.Keys == st.warm.Keys && forall s :: s in st.index ==> st.index[s].tier == Warm
  }

  lemma RunTwo(c: System, ops: seq<Op>, a: Op, b: Op)
    requires Run(c, ops).ok && Step(c, Run(c, ops).st, a).ok
    ensures Run(c, ops + [a, b]) == Step(c, Step(c, Run(c, ops).st, a).st, b)
    ensures LastSaved(ops + [a, b]) == Recall(Recall(LastSaved(ops), a), b)
  {
    hide Step;
    assert (ops + [a, b])[..|ops| + 1] == ops + [a] && (ops + [a])[..|ops|] == ops;
  }

  lemma NewlySaved(c: System, st: State, s: Sid, data: Blob)
    requires s !in st.index
    ensures var saved := IndexSave(c, st, Hot, s, "", data, 0).Put(Hot, s, data);
      && saved.hot == st.hot[s := data] && saved.warm == st.warm && saved.cold == st.cold
      && saved.index.Keys == st.index.Keys + {s} && saved.index[s].tier == Hot
      && forall x :: x in st.index ==> x != s && saved.index[x] == st.index[x]
  {
  }

  lemma NewlySunk(saved: State, names: seq<Sid>, s: Sid, data: Blob)
    requires saved.hot == map[s := data] && saved.warm == (map x | x in names :: data) && saved.cold == map[]
    requires saved.index.Keys == saved.warm.Keys + {s} && forall x :: x in saved.warm ==> saved.index[x].tier == Warm
    ensures Filled(saved.Relocate(s, Hot, Warm, data), names + [s], data)
  {
    var end := saved.Relocate(s, Hot, Warm, data);
    assert end.hot == map[];
    assert end.warm == map x | x in names + [s] :: data;
  }

  lemma SavedState(c: System, st: State, names: seq<Sid>, s: Sid, data: Blob)
    requires Filled(st, names, data) && s !in names && data != []
    ensures var saved := IndexSave(c, st, Hot, s, "", data, 0).Put(Hot, s, data);
      && Movable(saved, s) && saved.Has(s, Hot) && saved.hot[s] == data && saved.warm == st.warm
      && Filled(saved.Relocate(s, Hot, Warm, data), names + [s], data)
  {
    hide IndexSave;
    hide State.Put;
    hide State.Relocate;
    NewlySaved(c, st, s, data);
    NewlySunk(IndexSave(c, st, Hot, s, "", data, 0).Put(Hot, s, data), names, s, data);
  }

  lemma TiersAreRoomy(c: System, st: State, warm: State, n: nat)
    requires st.hot == map[] && 0 < n <= c.hotCapacity
    requires Bytes(warm.warm) + n <= c.warmCapacity
    ensures !st.IsFull(c, Hot, n) && !warm.IsFull(c, Warm, n)
  {
    NoBytes();
  }

  /** A new session that fits in the hot tier, and then one tier below. */
  lemma FillOne(c: System, st: State, names: seq<Sid>, s: Sid, data: Blob)
    requires Filled(st, names, data) && s !in names && 0 < |data| <= c.hotCapacity
    requires Bytes(st.warm) + |data| <= c.warmCapacity
    ensures var saved := Save(c, st, s, "", data, 0);
      saved.ok && Filled(Demote(c, saved.st, s).st, names + [s], data)
  {
    hide Save;
    hide Demote;
    hide IndexSave;
    hide State.Put;
    hide State.Relocate;
    hide State.IsFull;
    hide Bytes;
    var saved := IndexSave(c, st, Hot, s, "", data, 0).Put(Hot, s, data);
    SavedState(c, st, names, s, data);
    TiersAreRoomy(c, st, saved, |data|);
    SaveWithRoom(c, st, s, "", data, 0);
    DemoteWithRoom(c, saved, s);
  }

  lemma FilledBytes(st: State, names: seq<Sid>, data: Blob)
    requires Filled(st, names, data) && NoDup(names)
    ensures |st.warm| == |names| && Bytes(st.warm) == |names| * |data|
  {
    hide Bytes;
    CountDistinct(names);
    assert st.warm.Keys == set s | s in names;
    BytesOfAll(st.warm, |data|);
  }

  lemma {:induction false} CountDistinct(names: seq<Sid>)
    requires NoDup(names)
    ensures |set s | s in names| == |names|
  {
    if names != [] {
      var n := |names| - 1;
      CountDistinct(names[..n]);
      assert (set s | s in names) == (set s | s in names[..n]) + {names[n]};
    }
  }

  lemma {:induction false} FillRuns(c: System, names: seq<Sid>, data: Blob)
    requires NoDup(names) && 0 < |data| <= c.hotCapacity && |names| * |data| <= c.warmCapacity
    ensures Run(c, Fill(names, data)).ok && Filled(Run(c, Fill(names, data)).st, names, data)
    ensures NothingEmpty(LastSaved(Fill(names, data)))
    decreases |names|
  {
    hide Run;
    hide Save;
    hide Demote;
    hide Filled;
    if names == [] {
      EmptyIsFilled(c, data);
    } else {
      var n := |names| - 1;
      var init, s := names[..n], names[n];
      OneMore(n, |data|);
      FillRuns(c, init, data);
      var st := Run(c, Fill(init, data)).st;
      FilledBytes(st, init, data);
      FillOne(c, st, init, s, data);
      RunTwo(c, Fill(init, data), DoSave(s, "", data, 0), DoDemote(s));
      assert init + [s] == names;
    }
  }

  lemma EmptyIsFilled(c: System, data: Blob)
    ensures Run(c, Fill([], data)) == Outcome(true, EMPTY) && Filled(EMPTY, [], data)
  {
  }

  lemma FilledIsTidy(c: System, names: seq<Sid>, data: Blob)
    requires NoDup(names) && "" !in names && 0 < |data| <= c.hotCapacity && |names| * |data| <= c.warmCapacity
    ensures Tidy(c, Run(c, Fill(names, data)).st, LastSaved(Fill(names, data)))
  {
    hide Run;
    hide Sound;
    var st := Run(c, Fill(names, data)).st;
    FillRuns(c, names, data);
    RunIsSound(c, Fill(names, data));
    assert forall s :: ExactFor(st, s);
  }

  lemma NothingHotToEvict(c: System, st: State, names: seq<Sid>, data: Blob, n: nat)
    requires Filled(st, names, data) && 0 < c.hotCapacity < n
    ensures EnsureSpace(c, st, Hot, n, MAX_ATTEMPTS) == st && st.IsFull(c, Hot, n)
  {
    hide EnsureSpace;
    hide Evict;
    hide Victim;
    EnsureSpaceUnfolds(c, st, Hot, n, MAX_ATTEMPTS);
    EvictUnfolds(c, st, Hot);
  }

  lemma FilledUpper(st: State, names: seq<Sid>, each: Blob)
    requires Filled(st, names, each) && NoDup(names)
    ensures |Upper(st)| == |st.warm| == |names| && AllOf(st.warm, |each|)
  {
    FilledBytes(st, names, each);
    assert Upper(st) == st.warm.Keys;
  }

  lemma LeastOf(a: nat, b: nat)
    requires a <= b
    ensures Least(a, b) == a
  {
  }

  lemma FilledStaysFull(c: System, st: State, last: Store, names: seq<Sid>, each: Blob, n: nat)
    requires Tidy(c, st, last) && Answers(c.policy) && Filled(st, names, each) && NoDup(names)
    requires |names| >= 50
    requires 0 < c.warmCapacity < (|names| - 50) * |each| + n
    ensures EnsureSpace(c, st, Warm, n, 50).IsFull(c, Warm, n)
  {
    hide *;
    FilledSheds(c, st, last, names, each);
    LeastOf(50, |names|);
    StaysFullOfAllIff(c, st, last, Warm, |each|, n, 50);
  }

  lemma FilledSheds(c: System, st: State, last: Store, names: seq<Sid>, each: Blob)
    requires Tidy(c, st, last) && Answers(c.policy) && Filled(st, names, each) && NoDup(names)
    ensures Sheds(c, st, last, Warm) && AllOf(st.In(Warm), |each|) && |st.In(Warm)| == |names|
    ensures c.Capacity(Warm) == c.warmCapacity
  {
    hide Tidy;
    hide Answers;
    hide AllOf;
    FilledUpper(st, names, each);
    hide Filled;
  }

  /** Past fifty sessions above the cold tier a save can raise although the warm tier could hold its blob: fill the warm
      tier with blobs of one length, and save one too big for the hot tier and for what fifty evictions free.  Fifty-one
      sessions are enough, of blobs of any length, when the warm tier is no larger than they are together. */
  lemma FiftyAreNotEnough(c: System, names: seq<Sid>, each: Blob, s: Sid, user: string, data: Blob, tokens: nat)
    requires Answers(c.policy) && NoDup(names) && "" !in names && |names| >= 51
    requires 0 < |each| <= c.hotCapacity < |data| && |names| * |each| <= c.warmCapacity
    requires |data| <= c.warmCapacity < (|names| - 50) * |each| + |data|
    ensures var filled := Run(c, Fill(names, each));
      && filled.ok && Tidy(c, filled.st, LastSaved(Fill(names, each))) && |Upper(filled.st)| == |names|
      && CouldHold(c, Warm, |data|) && !Save(c, filled.st, s, user, data, tokens).ok
  {
    hide Run;
    hide Save;
    hide EnsureSpace;
    hide Tidy;
    hide Answers;
    hide Filled;
    hide Upper;
    hide State.IsFull;
    hide NoDup;
    hide Fill;
    var st, last := Run(c, Fill(names, each)).st, LastSaved(Fill(names, each));
    FillRuns(c, names, each);
    FilledIsTidy(c, names, each);
    FilledUpper(st, names, each);
    NothingHotToEvict(c, st, names, each, |data|);
    FilledStaysFull(c, st, last, names, each, |data|);
    SaveRaisesIff(c, st, s, user, data, tokens);
  }
}
