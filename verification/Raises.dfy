/** Saves that are sure not to raise. */
module Raises {
  import opened Types
  import opened Storage
  import opened Policies
  import opened Cascade
  import opened Operations
  import opened Coherence
  import opened Descent
  import opened Placement

  /** The policy always names one of the candidates. */
  ghost predicate Answers(p: Policy) {
    forall calls, now, cands :: cands != [] ==> Select(p, calls, now, cands).Some?
  }

  lemma BuiltInPoliciesAnswer(p: Policy)
    requires !p.Custom?
    ensures Answers(p)
  {
  }

  /** What a caller can know before the call: one copy per session, no empty blobs, no session named "". */
  ghost predicate Tidy(c: System, st: State, last: Store) {
    Sound(c, st, last) && NothingEmpty(last) && Exact(st) && "" !in st.index
  }

  lemma VictimIfAny(c: System, st: State, last: Store, t: Tier, s: Sid)
    requires Tidy(c, st, last) && Answers(c.policy) && st.Has(s, t)
    ensures Victim(c, st, t).Some? && st.Has(Victim(c, st, t).value, t)
  {
    hide Select;
    var cands := Candidates(st.order, st.index, t);
    assert s in st.order;
    assert cands != [];
  }

  lemma TidyHolds(c: System, st: State, last: Store, s: Sid, t: Tier)
    requires Tidy(c, st, last) && st.Has(s, t)
    ensures st.Holds(s, t) && s != ""
  {
    assert Newest(st, last, s);
  }

  /** Sunk or dropped, a demoted warm session leaves the warm tier. */
  lemma WarmSettles(c: System, roomy: State, v: Sid, data: Blob)
    ensures Settle(c, roomy, v, Warm, data).ok && Settle(c, roomy, v, Warm, data).st.warm == roomy.warm - {v}
  {
  }

  /** An eviction from a warm tier with anything in it succeeds: the victim sinks, or is dropped off the cold end. */
  lemma WarmEvictionSucceeds(c: System, st: State, last: Store, s: Sid)
    requires Tidy(c, st, last) && Answers(c.policy) && st.Has(s, Warm)
    ensures Evict(c, st, Warm).ok
  {
    hide Evict;
    hide Demote;
    hide EnsureSpace;
    hide Settle;
    hide Victim;
    hide Tidy;
    hide Answers;
    hide Rivals;
    EvictUnfolds(c, st, Warm);
    VictimIfAny(c, st, last, Warm, s);
    var v := Victim(c, st, Warm).value;
    var told := st.Tell(Chosen(Warm, v, Rivals(st, Warm)));
    TidyHolds(c, st, last, v, Warm);
    DemoteUnfolds(c, told, v);
    WarmSettles(c, EnsureSpace(c, told, Cold, |st.warm[v]|, MAX_ATTEMPTS), v, st.warm[v]);
  }

  lemma EvictionKeepsTidy(c: System, st: State, last: Store, t: Tier)
    requires Tidy(c, st, last)
    ensures Tidy(c, Evict(c, st, t).st, last)
  {
    hide Sound;
    hide Exact;
    hide Evict;
    hide Path;
    var ms := EvictPath(c, st, t);
    PathKeeps(c, st, ms, Evict(c, st, t).st, Rank(t), last);
    PathKeepsExact(c, st, ms, Evict(c, st, t).st, Rank(t));
    PathAddsNobody(c, st, ms, Evict(c, st, t).st, Rank(t), "");
  }

  lemma PathAddsNobody(c: System, st: State, ms: seq<Move>, end: State, r: nat, s: Sid)
    requires Path(c, st, ms, end, r)
    ensures s in end.index ==> s in st.index && Rank(st.index[s].tier) <= Rank(end.index[s].tier)
  {
    PathDescends(c, st, ms, end, r, s);
  }

  /** A tier with nothing indexed holds nothing, so only the blob itself can fill it. */
  lemma EmptyTierHasRoom(c: System, st: State, t: Tier, n: nat)
    requires Exact(st) && st.InTier(t) == {} && (c.Capacity(t) > 0 ==> n <= c.Capacity(t))
    ensures !st.IsFull(c, t, n)
  {
    forall s
      ensures s !in st.In(t)
    {
      assert ExactFor(st, s);
      assert s !in st.InTier(t);
    }
    assert st.In(t) == map[] && Sizes(map[]) == map[];
  }

  /** With as many attempts as there are sessions in the warm tier, space is made for any blob that could fit. */
  lemma {:induction false} WarmMakesRoom(c: System, st: State, last: Store, n: nat, attempts: nat)
    requires Tidy(c, st, last) && Answers(c.policy)
    requires (c.warmCapacity > 0 ==> n <= c.warmCapacity) && |st.InTier(Warm)| <= attempts
    ensures !EnsureSpace(c, st, Warm, n, attempts).IsFull(c, Warm, n)
    decreases attempts
  {
    hide EnsureSpace;
    hide Evict;
    hide Tidy;
    hide Answers;
    hide State.IsFull;
    EnsureSpaceUnfolds(c, st, Warm, n, attempts);
    if st.IsFull(c, Warm, n) {
      FullWarmIsNotEmpty(c, st, last, n);
      var s :| s in st.InTier(Warm);
      WarmEvictionSucceeds(c, st, last, s);
      EvictShrinks(c, st, Warm);
      EvictionKeepsTidy(c, st, last, Warm);
      WarmMakesRoom(c, Evict(c, st, Warm).st, last, n, attempts - 1);
    }
  }

  lemma FullWarmIsNotEmpty(c: System, st: State, last: Store, n: nat)
    requires Tidy(c, st, last) && st.IsFull(c, Warm, n) && (c.warmCapacity > 0 ==> n <= c.warmCapacity)
    ensures st.InTier(Warm) != {} && |st.InTier(Warm)| > 0
  {
    if st.InTier(Warm) == {} {
      EmptyTierHasRoom(c, st, Warm, n);
    }
  }

  // ---- Saves ----

  /** A tier that could hold n bytes if it held nothing else. */
  predicate CouldHold(c: System, t: Tier, n: nat) {
    c.Capacity(t) <= 0 || n <= c.Capacity(t)
  }

  function Upper(st: State): set<Sid> {
    set s | s in st.index && st.index[s].tier != Cold
  }

  lemma TooBigIsFull(c: System, st: State, t: Tier, n: nat)
    requires !CouldHold(c, t, n)
    ensures st.IsFull(c, t, n)
  {
  }

  /** A blob too big for the hot tier and for the warm tier always raises; without a cap on either none does. */
  lemma SaveOfExtremes(c: System, st: State, s: Sid, user: string, data: Blob, tokens: nat)
    ensures !CouldHold(c, Hot, |data|) && !CouldHold(c, Warm, |data|) ==> !Save(c, st, s, user, data, tokens).ok
    ensures c.hotCapacity <= 0 || c.warmCapacity <= 0 ==> Save(c, st, s, user, data, tokens).ok
  {
    hide Save;
    hide EnsureSpace;
    hide State.IsFull;
    SaveRaisesIff(c, st, s, user, data, tokens);
    var hot := EnsureSpace(c, st, Hot, |data|, MAX_ATTEMPTS);
    var warm := EnsureSpace(c, hot, Warm, |data|, MAX_ATTEMPTS);
    if c.hotCapacity <= 0 {
      UncappedNeverFull(c, hot, Hot, |data|);
    } else if c.warmCapacity <= 0 {
      UncappedNeverFull(c, warm, Warm, |data|);
    } else if !CouldHold(c, Hot, |data|) && !CouldHold(c, Warm, |data|) {
      TooBigIsFull(c, hot, Hot, |data|);
      TooBigIsFull(c, warm, Warm, |data|);
    }
  }

  lemma HotCascadeKeepsTidy(c: System, st: State, last: Store, n: nat)
    requires Tidy(c, st, last)
    ensures var roomy := EnsureSpace(c, st, Hot, n, MAX_ATTEMPTS);
      Tidy(c, roomy, last) && roomy.InTier(Warm) <= Upper(st)
  {
    hide Sound;
    hide Exact;
    hide EnsureSpace;
    hide Path;
    var roomy := EnsureSpace(c, st, Hot, n, MAX_ATTEMPTS);
    var ms := EnsurePath(c, st, Hot, n, MAX_ATTEMPTS);
    PathKeeps(c, st, ms, roomy, 0, last);
    PathKeepsExact(c, st, ms, roomy, 0);
    forall s | s in roomy.index
      ensures s in st.index && Rank(st.index[s].tier) <= Rank(roomy.index[s].tier)
    {
      PathAddsNobody(c, st, ms, roomy, 0, s);
    }
  }

  /** With at most 50 sessions above the cold tier, a save whose blob the warm tier could hold does not raise. */
  lemma SaveSucceeds(c: System, st: State, last: Store, s: Sid, user: string, data: Blob, tokens: nat)
    requires Tidy(c, st, last) && Answers(c.policy) && |Upper(st)| <= 50
    requires CouldHold(c, Warm, |data|)
    ensures Save(c, st, s, user, data, tokens).ok
  {
    hide Tidy;
    hide Answers;
    hide Save;
    hide EnsureSpace;
    hide State.IsFull;
    hide State.InTier;
    hide Upper;
    SaveRaisesIff(c, st, s, user, data, tokens);
    var hot := EnsureSpace(c, st, Hot, |data|, MAX_ATTEMPTS);
    HotCascadeKeepsTidy(c, st, last, |data|);
    Smaller(hot.InTier(Warm), Upper(st));
    WarmMakesRoom(c, hot, last, |data|, MAX_ATTEMPTS);
  }

  lemma {:induction false} Smaller(a: set<Sid>, b: set<Sid>)
    requires a <= b
    ensures |a| <= |b|
    decreases |a|
  {
    if a != {} {
      var s :| s in a;
      Smaller(a - {s}, b - {s});
    }
  }

  /** When the warm tier is no smaller than the hot one, as configured by default, such a save raises exactly when its
      blob is larger than the warm tier. */
  lemma SaveRaisesIffTooBig(c: System, st: State, last: Store, s: Sid, user: string, data: Blob, tokens: nat)
    requires Tidy(c, st, last) && Answers(c.policy) && |Upper(st)| <= 50
    requires 0 < c.hotCapacity && (c.warmCapacity <= 0 || c.hotCapacity <= c.warmCapacity)
    ensures !Save(c, st, s, user, data, tokens).ok <==> 0 < c.warmCapacity < |data|
  {
    hide Tidy;
    hide Answers;
    hide Save;
    hide Upper;
    if CouldHold(c, Warm, |data|) {
      SaveSucceeds(c, st, last, s, user, data, tokens);
    } else {
      SaveOfExtremes(c, st, s, user, data, tokens);
    }
  }
}
