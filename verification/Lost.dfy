/** Tiers that unindexed bytes have put out of use. */
module Lost {
  import opened Types
  import opened Storage
  import opened Cascade
  import opened Operations
  import opened Orphans
  import opened Overtaken

  predicate NobodyIn(index: map<Sid, Entry>, t: Tier) {
    forall s :: s in index ==> index[s].tier != t
  }

  predicate LongEnough(stored: Store, m: nat) {
    forall s :: s in stored ==> |stored[s]| >= m
  }

  /** Nobody is indexed in the tier, so nothing can be evicted from it, and no stored blob is small enough to fit. */
  ghost predicate Lost(c: System, st: State, t: Tier, m: nat) {
    && NobodyIn(st.index, t) && c.Capacity(t) > 0 && Bytes(st.In(t)) + m > c.Capacity(t)
    && LongEnough(st.hot, m) && LongEnough(st.warm, m) && LongEnough(st.cold, m)
  }

  ghost predicate StaysLost(c: System, st: State, end: State, t: Tier, m: nat) {
    Lost(c, end, t, m) && end.In(t) == st.In(t)
  }

  lemma LostIsFull(c: System, st: State, t: Tier, m: nat, n: nat)
    requires Lost(c, st, t, m) && n >= m
    ensures st.IsFull(c, t, n)
  {
  }

  lemma NobodyThere(c: System, st: State, t: Tier, m: nat, s: Sid)
    requires Lost(c, st, t, m)
    ensures !st.Has(s, t)
  {
  }

  lemma WithLost(c: System, st: State, u: Tier, stored: Store, t: Tier, m: nat)
    requires Lost(c, st, t, m) && u != t && LongEnough(stored, m)
    ensures StaysLost(c, st, st.With(u, stored), t, m)
  {
    hide Bytes;
    hide LongEnough;
    hide NobodyIn;
  }

  lemma PutLost(c: System, st: State, u: Tier, s: Sid, data: Blob, t: Tier, m: nat)
    requires Lost(c, st, t, m) && u != t && |data| >= m
    ensures StaysLost(c, st, st.Put(u, s, data), t, m)
  {
    hide Bytes;
    hide State.With;
    WithLost(c, st, u, st.In(u)[s := data], t, m);
  }

  lemma DropLost(c: System, st: State, u: Tier, s: Sid, t: Tier, m: nat)
    requires Lost(c, st, t, m) && u != t
    ensures StaysLost(c, st, st.Drop(u, s), t, m)
  {
    hide Bytes;
    hide State.With;
    WithLost(c, st, u, st.In(u) - {s}, t, m);
  }

  lemma SameStoresLost(c: System, st: State, end: State, t: Tier, m: nat)
    requires Lost(c, st, t, m)
    requires end.hot == st.hot && end.warm == st.warm && end.cold == st.cold
    requires forall s :: s in end.index && end.index[s].tier == t ==> st.Has(s, t)
    ensures StaysLost(c, st, end, t, m)
  {
    hide Bytes;
    hide LongEnough;
  }

  lemma RelocateLost(c: System, st: State, v: Sid, source: Tier, target: Tier, data: Blob, t: Tier, m: nat)
    requires Lost(c, st, t, m) && source != t && target != t && |data| >= m
    ensures StaysLost(c, st, st.Relocate(v, source, target, data), t, m)
  {
    hide Lost;
    hide State.Put;
    hide State.Drop;
    var put := st.Put(target, v, data);
    PutLost(c, st, target, v, data, t, m);
    DropLost(c, put, source, v, t, m);
    SameStoresLost(c, put.Drop(source, v), put.Drop(source, v).Retier(v, target), t, m);
  }

  lemma ForgetLost(c: System, st: State, v: Sid, u: Tier, t: Tier, m: nat)
    requires Lost(c, st, t, m) && u != t
    ensures StaysLost(c, st, st.Drop(u, v).Forget(v), t, m)
  {
    hide Lost;
    hide State.Drop;
    DropLost(c, st, u, v, t, m);
    SameStoresLost(c, st.Drop(u, v), st.Drop(u, v).Forget(v), t, m);
  }

  lemma MoveLost(c: System, st: State, move: Move, r: nat, t: Tier, m: nat)
    requires Lost(c, st, t, m) && Enabled(c, st, move, r)
    ensures StaysLost(c, st, Apply(st, move), t, m)
  {
    hide Lost;
    hide StaysLost;
    hide State.IsFull;
    match move
    case Pick(_, _, _) =>
      SameStoresLost(c, st, Apply(st, move), t, m);
    case Sink(v) =>
      var source, data := st.index[v].tier, st.In(st.index[v].tier)[v];
      NobodyThere(c, st, t, m, v);
      StoredIsLongEnough(c, st, t, m, source, v);
      if Below(source) == t {
        LostIsFull(c, st, t, m, |data|);
      }
      RelocateLost(c, st, v, source, Below(source), data, t, m);
    case Discard(v) =>
      NobodyThere(c, st, t, m, v);
      ForgetLost(c, st, v, Warm, t, m);
    case Erase(v) =>
      NobodyThere(c, st, t, m, v);
      ForgetLost(c, st, v, Cold, t, m);
  }

  lemma StoredIsLongEnough(c: System, st: State, t: Tier, m: nat, u: Tier, s: Sid)
    requires Lost(c, st, t, m) && s in st.In(u)
    ensures |st.In(u)[s]| >= m
  {
  }

  lemma {:induction false} PathLost(c: System, st: State, ms: seq<Move>, end: State, r: nat, t: Tier, m: nat)
    requires Lost(c, st, t, m) && Path(c, st, ms, end, r)
    ensures StaysLost(c, st, end, t, m)
    decreases |ms|
  {
    hide Apply;
    hide Enabled;
    hide Lost;
    if ms == [] {
    } else {
      MoveLost(c, st, ms[0], r, t, m);
      PathLost(c, Apply(st, ms[0]), ms[1..], end, r, t, m);
    }
  }

  lemma SaveToLost(c: System, st: State, u: Tier, s: Sid, user: string, data: Blob, tokens: nat, t: Tier, m: nat)
    requires Lost(c, st, t, m) && u != t && |data| >= m && SaveTo(c, st, u, s, user, data, tokens).ok
    ensures StaysLost(c, st, SaveTo(c, st, u, s, user, data, tokens).st, t, m)
  {
    hide Lost;
    hide Accepts;
    hide State.Put;
    var indexed := IndexSave(c, st, u, s, user, data, tokens);
    SameStoresLost(c, st, indexed, t, m);
    PutLost(c, indexed, u, s, data, t, m);
  }

  lemma SaveLost(c: System, st: State, s: Sid, user: string, data: Blob, tokens: nat, t: Tier, m: nat)
    requires Lost(c, st, t, m) && |data| >= m && Save(c, st, s, user, data, tokens).ok
    ensures StaysLost(c, st, Save(c, st, s, user, data, tokens).st, t, m)
  {
    hide Lost;
    hide IndexSave;
    hide EnsureSpace;
    hide State.IsFull;
    hide Path;
    hide SaveTo;
    var spot := SaveSpot(c, st, |data|);
    var ms := SaveSpotPath(c, st, |data|);
    PathLost(c, st, ms, spot.st, 0, t, m);
    SpotIsElsewhere(c, st, s, user, data, tokens, t, m);
    SaveToLost(c, spot.st, spot.tier, s, user, data, tokens, t, m);
  }

  /** A save that does not raise writes to another tier. */
  lemma SpotIsElsewhere(c: System, st: State, s: Sid, user: string, data: Blob, tokens: nat, t: Tier, m: nat)
    requires Lost(c, SaveSpot(c, st, |data|).st, t, m) && |data| >= m && Save(c, st, s, user, data, tokens).ok
    ensures SaveSpot(c, st, |data|).tier != t
  {
    hide Lost;
    hide EnsureSpace;
    hide Bytes;
    LostIsFull(c, SaveSpot(c, st, |data|).st, t, m, |data|);
  }

  lemma PromoteLost(c: System, st: State, s: Sid, u: Tier, t: Tier, m: nat)
    requires Lost(c, st, t, m)
    ensures StaysLost(c, st, Promote(c, st, s, u).st, t, m)
  {
    hide Lost;
    hide MakeRoom;
    hide Path;
    hide State.IsFull;
    if s in st.index && st.index[s].tier != u && st.Holds(s, st.index[s].tier) {
      var source := st.index[s].tier;
      var data := st.In(source)[s];
      StoredIsLongEnough(c, st, t, m, source, s);
      NobodyThere(c, st, t, m, s);
      var room := MakeRoom(c, st, u, |data|);
      var ms := MakeRoomPath(c, st, u, |data|);
      PathLost(c, st, ms, room.st, Rank(u), t, m);
      if room.ok {
        if u == t {
          LostIsFull(c, room.st, t, m, |data|);
        }
        RelocateLost(c, room.st, s, source, u, data, t, m);
      }
    }
  }

  lemma LoadLost(c: System, st: State, s: Sid, t: Tier, m: nat)
    requires Lost(c, st, t, m)
    ensures StaysLost(c, st, Load(c, st, s).st, t, m)
  {
    hide Lost;
    hide Promote;
    if s in st.index {
      if st.Holds(s, st.index[s].tier) {
        SameStoresLost(c, st, Touch(st, s), t, m);
        PromoteLost(c, Touch(st, s), s, Hot, t, m);
      } else {
        SameStoresLost(c, st, st.Unindex(s), t, m);
      }
    }
  }

  /** No operation that returns normally brings the tier back, or changes a byte of it. */
  lemma StepKeepsLost(c: System, st: State, op: Op, t: Tier, m: nat)
    requires Lost(c, st, t, m) && (op.DoSave? ==> |op.data| >= m) && Step(c, st, op).ok
    ensures StaysLost(c, st, Step(c, st, op).st, t, m)
  {
    hide Lost;
    hide Path;
    hide Save;
    hide Load;
    hide Promote;
    hide Demote;
    hide Evict;
    hide DemoteAll;
    match op
    case DoSave(s, user, data, tokens) => SaveLost(c, st, s, user, data, tokens, t, m);
    case DoLoad(s) => LoadLost(c, st, s, t, m);
    case DoPromote(s, u) => PromoteLost(c, st, s, u, t, m);
    case DoDemote(s) =>
      var ms := DemotePath(c, st, s);
      PathLost(c, st, ms, Demote(c, st, s).st, if s in st.index then Rank(st.index[s].tier) else 2, t, m);
    case DoEvict(u) =>
      var ms := EvictPath(c, st, u);
      PathLost(c, st, ms, Evict(c, st, u).st, Rank(u), t, m);
    case DoDelete(s) =>
      NobodyThere(c, st, t, m, s);
      if s in st.index {
        ForgetLost(c, st, s, st.index[s].tier, t, m);
      }
    case DoMaintain =>
      var ids := ExpiredIn(c, st, st.order);
      var ms := DemoteAllPath(c, st, ids);
      PathLost(c, st, ms, DemoteAll(c, st, ids), 0, t, m);
    case Tick(at) => SameStoresLost(c, st, st.(now := at), t, m);
  }

  predicate SavesAtLeast(ops: seq<Op>, m: nat) {
    forall op :: op in ops && op.DoSave? ==> |op.data| >= m
  }

  /** A lost tier is lost for good: after any run it holds the same bytes and nobody, the orphans' sessions included. */
  lemma {:induction false} LostForGood(c: System, ops: seq<Op>, more: seq<Op>, t: Tier, m: nat)
    requires Lost(c, Run(c, ops).st, t, m) && SavesAtLeast(more, m) && Run(c, ops + more).ok
    ensures StaysLost(c, Run(c, ops).st, Run(c, ops + more).st, t, m)
    decreases |more|
  {
    hide Run;
    hide Step;
    hide Lost;
    if more == [] {
      assert ops + more == ops;
    } else {
      var init, op := more[..|more| - 1], more[|more| - 1];
      RunExtends(c, ops, more);
      LostForGood(c, ops, init, t, m);
      assert op in more;
      StepKeepsLost(c, Run(c, ops + init).st, op, t, m);
    }
  }

  /** The promotion of a deleted session loses the hot tier: as long as no blob is small enough to fit beside its bytes,
      the tier holds them and nobody. */
  lemma PromotionLosesHot(e: Scene, more: seq<Op>, m: nat)
    requires e.Narrow() && 0 < e.cold < |e.x| && m <= |e.x| && m <= |e.y| && |e.x| + m > e.hot
    requires SavesAtLeast(more, m) && Run(e.Room(), e.Script() + more).ok
    ensures var end := Run(e.Room(), e.Script() + more).st;
      end.hot == map[e.a := e.x] && NobodyIn(end.index, Hot)
  {
    hide Run;
    hide Load;
    PromotionOfTheDeleted(e);
    BytesOfOne(e.a, e.x);
    LostForGood(e.Room(), e.Script(), more, Hot, m);
  }
}
