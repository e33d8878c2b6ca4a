/** Cascades only descend, lose sessions only off the cold end, and lose none when the cold tier is uncapped. */
module Descent {
  import opened Types
  import opened Policies
  import opened Cascade
  import opened Operations
  import opened Coherence

  /** s is still cached, no hotter than before, its entry and its bytes otherwise untouched. */
  ghost predicate Descended(st: State, end: State, s: Sid) {
    && s in st.index && s in end.index
    && Rank(st.index[s].tier) <= Rank(end.index[s].tier)
    && end.index[s] == st.index[s].(tier := end.index[s].tier)
    && (s in st.In(st.index[s].tier) ==>
          s in end.In(end.index[s].tier) && end.In(end.index[s].tier)[s] == st.In(st.index[s].tier)[s])
  }

  lemma RelocateDescends(st: State, v: Sid, source: Tier, target: Tier, data: Blob, s: Sid)
    requires Rank(source) < Rank(target) && s in st.index && (s == v ==> st.Has(s, source) && s in st.In(source))
    requires v in st.In(source) ==> data == st.In(source)[v]
    ensures Descended(st, st.Relocate(v, source, target, data), s)
  {
  }

  lemma ForgetDescends(st: State, v: Sid, t: Tier, s: Sid)
    requires s in st.index && s != v
    ensures Descended(st, st.Drop(t, v).Forget(v), s)
  {
  }

  lemma TellDescends(st: State, call: Call, s: Sid)
    requires s in st.index
    ensures Descended(st, st.Tell(call), s)
  {
  }

  lemma MoveDescends(c: System, st: State, m: Move, r: nat, s: Sid)
    requires Enabled(c, st, m, r)
    ensures s in Apply(st, m).index ==> Descended(st, Apply(st, m), s)
    ensures s in st.index && s !in Apply(st, m).index ==> m == Discard(s) || m == Erase(s)
  {
    hide Descended;
    hide State.IsFull;
    hide Victim;
    hide Rivals;
    if s in Apply(st, m).index {
      match m
      case Pick(t, v, rivals) =>
        TellDescends(st, Chosen(t, v, rivals), s);
      case Sink(v) =>
        assert s in st.index;
        RelocateDescends(st, v, st.index[v].tier, Below(st.index[v].tier), st.In(st.index[v].tier)[v], s);
      case Discard(v) =>
        ForgetDescends(st, v, Warm, s);
      case Erase(v) =>
        ForgetDescends(st, v, Cold, s);
    }
  }

  /** Whatever is still indexed has descended; whatever is not was a cold victim, or found cold full in warm. */
  lemma {:induction false} PathDescends(c: System, st: State, ms: seq<Move>, end: State, r: nat, s: Sid)
    requires Path(c, st, ms, end, r)
    ensures s in end.index ==> Descended(st, end, s)
    ensures s in st.index && s !in end.index ==> Discard(s) in ms || Erase(s) in ms
    decreases |ms|
  {
    if ms != [] {
      MoveDescends(c, st, ms[0], r, s);
      hide Apply;
      hide Enabled;
      PathDescends(c, Apply(st, ms[0]), ms[1..], end, r, s);
    }
  }

  /** The whole effect of one eviction, seen from outside. */
  lemma EvictDescends(c: System, st: State, t: Tier)
    ensures var Outcome(evicted, end) := Evict(c, st, t);
      // hotter tiers are left alone
      && (forall u: Tier :: Rank(u) < Rank(t) ==> end.In(u) == st.In(u) && end.InTier(u) == st.InTier(u))
      // one session leaves the tier, or none
      && (evicted ==> exists v :: v in st.InTier(t) && end.InTier(t) == st.InTier(t) - {v})
      && (!evicted ==> end.InTier(t) == st.InTier(t))
      // nothing is added to the index, nothing rises, no bytes change, and a hot session is never lost
      && (forall s :: s in end.index ==> Descended(st, end, s))
      && (forall s :: st.Has(s, Hot) ==> s in end.index)
  {
    var end := Evict(c, st, t).st;
    var ms := EvictPath(c, st, t);
    forall u: Tier | Rank(u) < Rank(t)
      ensures end.In(u) == st.In(u) && end.InTier(u) == st.InTier(u)
    {
      PathSparesHotter(c, st, ms, end, Rank(t), u);
    }
    forall s | s in end.index
      ensures Descended(st, end, s)
    {
      PathDescends(c, st, ms, end, Rank(t), s);
    }
    forall s | st.Has(s, Hot)
      ensures s in end.index
    {
      if t != Hot {
        PathSparesHotter(c, st, ms, end, Rank(t), Hot);
      } else {
        HotSurvivesEvict(c, st, s);
      }
    }
  }

  lemma HotSurvivesEvict(c: System, st: State, s: Sid)
    requires st.Has(s, Hot)
    ensures s in Evict(c, st, Hot).st.index
  {
    EvictUnfolds(c, st, Hot);
    hide Evict;
    hide Demote;
    hide EnsureSpace;
    hide Victim;
    var victim := Victim(c, st, Hot);
    if victim.Some? {
      var v := victim.value;
      var told := st.Tell(Chosen(Hot, v, Rivals(st, Hot)));
      DemoteUnfolds(c, told, v);
      if Movable(told, v) {
        var roomy := EnsureSpace(c, told, Warm, |told.hot[v]|, MAX_ATTEMPTS);
        var ms := EnsurePath(c, told, Warm, |told.hot[v]|, MAX_ATTEMPTS);
        assert told.Has(s, Hot);
        PathSparesHotter(c, told, ms, roomy, 1, Hot);
      }
    }
  }

  // ---- An uncapped cold tier loses nothing ----

  lemma {:induction false} LosslessKeepsIndex(c: System, st: State, ms: seq<Move>, end: State, r: nat)
    requires Path(c, st, ms, end, r) && Lossless(ms)
    ensures end.index.Keys == st.index.Keys
    decreases |ms|
  {
    if ms != [] {
      assert Apply(st, ms[0]).index.Keys == st.index.Keys by {
        assert ms[0] in ms;
      }
      assert Lossless(ms[1..]);
      hide Apply;
      hide Enabled;
      LosslessKeepsIndex(c, Apply(st, ms[0]), ms[1..], end, r);
    }
  }

  /** The session that a direct eviction from the cold tier would delete. */
  ghost function ColdVictim(c: System, st: State): set<Sid> {
    match Victim(c, st, Cold)
    case None => {}
    case Some(v) => {v}
  }

  /** One operation's effect on the set of indexed sessions. */
  function Kept(before: set<Sid>, op: Op, coldVictim: set<Sid>): set<Sid> {
    match op
    case DoSave(s, _, _, _) => before + {s}
    case DoDelete(s) => before - {s}
    case DoEvict(Cold) => before - coldVictim
    case _ => before
  }

  /** Sessions saved and not explicitly removed since. */
  ghost function Live(c: System, ops: seq<Op>): set<Sid> {
    if ops == [] then {}
    else
      var init := ops[..|ops| - 1];
      Kept(Live(c, init), ops[|ops| - 1], ColdVictim(c, Run(c, init).st))
  }

  /** No serializer returns the empty string: every blob has at least a header. */
  ghost predicate NonEmpty(ops: seq<Op>) {
    forall op :: op in ops && op.DoSave? ==> op.data != []
  }

  ghost predicate NothingEmpty(last: Store) {
    forall s :: s in last ==> last[s] != []
  }

  lemma {:induction false} LastSavedNotEmpty(ops: seq<Op>)
    requires NonEmpty(ops)
    ensures NothingEmpty(LastSaved(ops))
    decreases |ops|
  {
    if ops != [] {
      assert ops[|ops| - 1] in ops;
      LastSavedNotEmpty(ops[..|ops| - 1]);
    }
  }

  lemma PromoteKeepsIndex(c: System, st: State, s: Sid, t: Tier)
    requires c.coldCapacity <= 0
    ensures Promote(c, st, s, t).st.index.Keys == st.index.Keys
  {
    if s in st.index && st.index[s].tier != t && st.Holds(s, st.index[s].tier) {
      var n := |st.In(st.index[s].tier)[s]|;
      var ms := MakeRoomPath(c, st, t, n);
      LosslessKeepsIndex(c, st, ms, MakeRoom(c, st, t, n).st, Rank(t));
    }
  }

  lemma SaveAddsToIndex(c: System, st: State, s: Sid, user: string, data: Blob, tokens: nat)
    requires c.coldCapacity <= 0
    ensures Save(c, st, s, user, data, tokens).st.index.Keys == st.index.Keys + {s}
  {
    var spot := SaveSpot(c, st, |data|);
    var ms := SaveSpotPath(c, st, |data|);
    LosslessKeepsIndex(c, st, ms, spot.st, 0);
  }

  lemma LoadKeepsIndex(c: System, st: State, s: Sid, last: Store)
    requires c.coldCapacity <= 0 && Coherent(st, last) && NothingEmpty(last)
    ensures Load(c, st, s).st.index.Keys == st.index.Keys
  {
    if s in st.index {
      assert Newest(st, last, s);
      PromoteKeepsIndex(c, Touch(st, s), s, Hot);
    }
  }

  lemma EvictKeepsIndex(c: System, st: State, t: Tier)
    requires c.coldCapacity <= 0
    ensures Evict(c, st, t).st.index.Keys == st.index.Keys - if t == Cold then ColdVictim(c, st) else {}
  {
    if t != Cold {
      var ms := EvictPath(c, st, t);
      LosslessKeepsIndex(c, st, ms, Evict(c, st, t).st, Rank(t));
    }
  }

  lemma StepKeepsLive(c: System, st: State, op: Op, last: Store)
    requires c.coldCapacity <= 0 && Coherent(st, last) && NothingEmpty(last)
    ensures Step(c, st, op).st.index.Keys == Kept(st.index.Keys, op, ColdVictim(c, st))
  {
    hide ColdVictim;
    hide Save;
    hide Load;
    hide Coherent;
    match op
    case DoSave(s, user, data, tokens) => SaveAddsToIndex(c, st, s, user, data, tokens);
    case DoLoad(s) => LoadKeepsIndex(c, st, s, last);
    case DoPromote(s, t) => PromoteKeepsIndex(c, st, s, t);
    case DoDemote(s) =>
      var ms := DemotePath(c, st, s);
      LosslessKeepsIndex(c, st, ms, Demote(c, st, s).st, if s in st.index then Rank(st.index[s].tier) else 2);
    case DoEvict(t) => EvictKeepsIndex(c, st, t);
    case DoDelete(s) =>
    case DoMaintain =>
      var ids := ExpiredIn(c, st, st.order);
      var ms := DemoteAllPath(c, st, ids);
      LosslessKeepsIndex(c, st, ms, DemoteAll(c, st, ids), 0);
    case Tick(at) =>
  }

  /** With an uncapped cold tier the index is exactly the sessions saved and not explicitly removed since. */
  lemma {:induction false} IndexIsLive(c: System, ops: seq<Op>)
    requires c.coldCapacity <= 0 && Run(c, ops).ok && NonEmpty(ops)
    ensures Run(c, ops).st.index.Keys == Live(c, ops)
    decreases |ops|
  {
    if ops != [] {
      var init := ops[..|ops| - 1];
      IndexIsLive(c, init);
      RunIsSound(c, init);
      LastSavedNotEmpty(init);
      StepKeepsLive(c, Run(c, init).st, ops[|ops| - 1], LastSaved(init));
    }
  }

  /** So nothing saved is ever lost: load returns it, through any run of cascades, promotions and maintenance. */
  lemma Durability(c: System, ops: seq<Op>, s: Sid)
    requires c.coldCapacity <= 0 && Run(c, ops).ok && NonEmpty(ops)
    ensures var loaded := Load(c, Run(c, ops).st, s).data;
      if s in Live(c, ops) then s in LastSaved(ops) && loaded == Some(LastSaved(ops)[s]) else loaded == None
  {
    IndexIsLive(c, ops);
    RunIsSound(c, ops);
    LastSavedNotEmpty(ops);
    LoadReturnsLastSave(c, ops, s);
    assert s in Live(c, ops) ==> Newest(Run(c, ops).st, LastSaved(ops), s);
  }
}
