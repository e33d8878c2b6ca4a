/** When every session is stored in one place only, and what the two halves of the statistics then agree on. */
module Placement {
  import opened Types
  import opened Sums
  import opened Storage
  import opened Policies
  import opened Cascade
  import opened Operations
  import opened Index
  import opened Coherence
  import opened Descent

  /** A tier stores a session iff the index says so: no superseded copies, no orphans. */
  ghost predicate Exact(st: State) {
    forall s: Sid :: ExactFor(st, s)
  }

  ghost predicate ExactFor(st: State, s: Sid) {
    (s in st.hot <==> st.Has(s, Hot)) && (s in st.warm <==> st.Has(s, Warm)) && (s in st.cold <==> st.Has(s, Cold))
  }

  /** A change that concerns one session only. */
  lemma OnlyOneChanges(st: State, end: State, s: Sid)
    requires Exact(st)
    requires forall x :: x != s && ExactFor(st, x) ==> ExactFor(end, x)
    ensures Exact(end) <==> ExactFor(end, s)
  {
  }

  lemma ForgetKeepsExact(st: State, s: Sid, t: Tier)
    requires Exact(st) && st.Has(s, t)
    ensures Exact(st.Drop(t, s).Forget(s))
  {
    assert ExactFor(st, s);
    OnlyOneChanges(st, st.Drop(t, s).Forget(s), s);
  }

  lemma RelocateExactFor(st: State, s: Sid, source: Tier, target: Tier, data: Blob, x: Sid)
    requires ExactFor(st, x) && source != target
    ensures ExactFor(st.Relocate(s, source, target, data), x) <==> x != s || st.Has(s, source) || st.Has(s, target)
  {
  }

  /** The copy left behind at the place the session has meanwhile moved to, or the orphan, is what breaks it. */
  lemma RelocateExactIff(st: State, s: Sid, source: Tier, target: Tier, data: Blob)
    requires Exact(st) && source != target
    ensures Exact(st.Relocate(s, source, target, data)) <==> st.Has(s, source) || st.Has(s, target)
  {
    hide ExactFor;
    hide State.Relocate;
    var end := st.Relocate(s, source, target, data);
    forall x | ExactFor(st, x)
      ensures ExactFor(end, x) <==> x != s || st.Has(s, source) || st.Has(s, target)
    {
      RelocateExactFor(st, s, source, target, data, x);
    }
    assert ExactFor(st, s);
    OnlyOneChanges(st, end, s);
  }

  lemma TellKeepsExact(st: State, call: Call)
    requires Exact(st)
    ensures Exact(st.Tell(call))
  {
    assert forall s :: ExactFor(st, s) ==> ExactFor(st.Tell(call), s);
  }

  lemma MoveKeepsExact(c: System, st: State, m: Move, r: nat)
    requires Exact(st) && Enabled(c, st, m, r)
    ensures Exact(Apply(st, m))
  {
    hide Exact;
    hide State.IsFull;
    hide Victim;
    hide Rivals;
    match m
    case Pick(t, v, rivals) => TellKeepsExact(st, Chosen(t, v, rivals));
    case Sink(s) => RelocateExactIff(st, s, st.index[s].tier, Below(st.index[s].tier), st.In(st.index[s].tier)[s]);
    case Discard(s) => ForgetKeepsExact(st, s, Warm);
    case Erase(s) => ForgetKeepsExact(st, s, Cold);
  }

  lemma {:induction false} PathKeepsExact(c: System, st: State, ms: seq<Move>, end: State, r: nat)
    requires Exact(st) && Path(c, st, ms, end, r)
    ensures Exact(end)
    decreases |ms|
  {
    if ms != [] {
      MoveKeepsExact(c, st, ms[0], r);
      hide Apply;
      hide Enabled;
      PathKeepsExact(c, Apply(st, ms[0]), ms[1..], end, r);
    }
  }

  /** Demotion, eviction, deletion and maintenance keep every session in one place. */
  lemma DescentKeepsExact(c: System, st: State, s: Sid, t: Tier)
    requires Exact(st)
    ensures Exact(Demote(c, st, s).st)
    ensures Exact(Evict(c, st, t).st)
    ensures Exact(Delete(st, s).st)
    ensures Exact(Maintain(c, st))
  {
    var ms := DemotePath(c, st, s);
    PathKeepsExact(c, st, ms, Demote(c, st, s).st, if s in st.index then Rank(st.index[s].tier) else 2);
    var ns := EvictPath(c, st, t);
    PathKeepsExact(c, st, ns, Evict(c, st, t).st, Rank(t));
    if s in st.index {
      ForgetKeepsExact(st, s, st.index[s].tier);
    }
    var ids := ExpiredIn(c, st, st.order);
    var os := DemoteAllPath(c, st, ids);
    PathKeepsExact(c, st, os, DemoteAll(c, st, ids), 0);
  }

  /** A save leaves one copy exactly when its session was, at the write, unindexed or indexed in the tier written. */
  lemma SaveExactIff(c: System, st: State, s: Sid, user: string, data: Blob, tokens: nat)
    requires Exact(st) && Save(c, st, s, user, data, tokens).ok
    ensures var spot := SaveSpot(c, st, |data|);
      Exact(Save(c, st, s, user, data, tokens).st) <==> s !in spot.st.index || spot.st.Has(s, spot.tier)
  {
    var spot := SaveSpot(c, st, |data|);
    var ms := SaveSpotPath(c, st, |data|);
    PathKeepsExact(c, st, ms, spot.st, 0);
    SaveToExactIff(c, spot.st, spot.tier, s, user, data, tokens);
  }

  lemma SaveToExactIff(c: System, st: State, t: Tier, s: Sid, user: string, data: Blob, tokens: nat)
    requires Exact(st)
    ensures Exact(IndexSave(c, st, t, s, user, data, tokens).Put(t, s, data)) <==> s !in st.index || st.Has(s, t)
  {
    var end := IndexSave(c, st, t, s, user, data, tokens).Put(t, s, data);
    forall x | ExactFor(st, x)
      ensures ExactFor(end, x) <==> x != s || s !in st.index || st.Has(s, t)
    {
      SaveToExactFor(c, st, t, s, user, data, tokens, x);
    }
    assert ExactFor(st, s);
    hide ExactFor;
    hide IndexSave;
    OnlyOneChanges(st, end, s);
  }

  lemma SaveToExactFor(c: System, st: State, t: Tier, s: Sid, user: string, data: Blob, tokens: nat, x: Sid)
    requires ExactFor(st, x)
    ensures ExactFor(IndexSave(c, st, t, s, user, data, tokens).Put(t, s, data), x)
        <==> x != s || s !in st.index || st.Has(s, t)
  {
  }

  /** Saving, demoting and saving again leaves the superseded bytes in the warm tier, unindexed, and deleting the
      session does not remove them. */
  lemma ResaveLeavesCopy(c: System, s: Sid, user: string, first: Blob, second: Blob)
    requires first != [] && (c.hotCapacity <= 0 || (|first| <= c.hotCapacity && |second| <= c.hotCapacity))
    requires c.warmCapacity <= 0 || |first| <= c.warmCapacity
    ensures var ops := [DoSave(s, user, first, 0), DoDemote(s), DoSave(s, user, second, 0), DoDelete(s)];
      var resaved, deleted := Run(c, ops[..3]), Run(c, ops);
      && resaved.ok && resaved.st.warm == map[s := first] && resaved.st.Has(s, Hot) && !Exact(resaved.st)
      && deleted.ok && deleted.st.warm == map[s := first] && deleted.st.hot == map[] && deleted.st.index == map[]
  {
    hide Save;
    hide IndexSave;
    hide Demote;
    hide State.IsFull;
    hide State.Relocate;
    hide State.Put;
    hide Delete;
    var ops := [DoSave(s, user, first, 0), DoDemote(s), DoSave(s, user, second, 0), DoDelete(s)];
    var saved := IndexSave(c, EMPTY, Hot, s, user, first, 0).Put(Hot, s, first);
    var demoted := saved.Relocate(s, Hot, Warm, first);
    var resaved := IndexSave(c, demoted, Hot, s, user, second, 0).Put(Hot, s, second);
    ResaveStates(c, s, user, first, second);
    SaveWithRoom(c, EMPTY, s, user, first, 0);
    DemoteWithRoom(c, saved, s);
    SaveWithRoom(c, demoted, s, user, second, 0);
    assert ops[..3][..2] == ops[..2] && ops[..2][..1] == ops[..1] && ops[..1][..0] == [];
    assert Run(c, ops[..1]) == Outcome(true, saved);
    assert Run(c, ops[..2]) == Outcome(true, demoted);
    assert Run(c, ops[..3]) == Outcome(true, resaved);
    assert !ExactFor(resaved, s);
  }

  lemma ResaveStates(c: System, s: Sid, user: string, first: Blob, second: Blob)
    requires first != [] && (c.hotCapacity <= 0 || (|first| <= c.hotCapacity && |second| <= c.hotCapacity))
    requires c.warmCapacity <= 0 || |first| <= c.warmCapacity
    ensures var saved := IndexSave(c, EMPTY, Hot, s, user, first, 0).Put(Hot, s, first);
      var demoted := saved.Relocate(s, Hot, Warm, first);
      var resaved := IndexSave(c, demoted, Hot, s, user, second, 0).Put(Hot, s, second);
      && !EMPTY.IsFull(c, Hot, |first|) && !saved.IsFull(c, Warm, |first|) && !demoted.IsFull(c, Hot, |second|)
      && saved.Has(s, Hot) && s in saved.hot && saved.hot[s] == first
      && resaved.warm == map[s := first] && resaved.Has(s, Hot)
      && Delete(resaved, s).st.warm == resaved.warm && Delete(resaved, s).st.hot == map[]
      && Delete(resaved, s).st.index == map[]
  {
    assert Sizes(map[]) == map[];
    assert Bytes(map[]) == 0;
    hide Bytes;
    var saved := IndexSave(c, EMPTY, Hot, s, user, first, 0).Put(Hot, s, first);
    assert saved.Relocate(s, Hot, Warm, first).hot == map[];
  }

  /** A deletion clears every tier exactly when the session was stored nowhere but where the index said. */
  lemma DeleteErasesIff(st: State, s: Sid)
    requires s in st.index
    ensures var end := Delete(st, s).st;
      (forall t: Tier :: s !in end.In(t)) <==> (forall t: Tier :: t != st.index[s].tier ==> s !in st.In(t))
    ensures Exact(st) ==> forall t: Tier :: s !in Delete(st, s).st.In(t)
  {
    hide Exact;
    hide ExactFor;
    forall u: Tier
      ensures s in Delete(st, s).st.In(u) <==> u != st.index[s].tier && s in st.In(u)
    {
      DeleteFrom(st, s, u);
    }
    if Exact(st) {
      StoredWhereIndexed(st, s);
    }
  }

  lemma DeleteFrom(st: State, s: Sid, u: Tier)
    requires s in st.index
    ensures s in Delete(st, s).st.In(u) <==> u != st.index[s].tier && s in st.In(u)
  {
  }

  lemma StoredWhereIndexed(st: State, s: Sid)
    requires Exact(st) && s in st.index
    ensures forall u: Tier :: s in st.In(u) <==> u == st.index[s].tier
  {
    assert ExactFor(st, s);
  }

  /** A promotion leaves one copy exactly when its own cascade did not choose the promoted session. */
  lemma PromoteExactIff(c: System, st: State, s: Sid, t: Tier)
    requires Exact(st) && Promote(c, st, s, t).ok
    ensures var room := MakeRoom(c, st, t, |st.In(st.index[s].tier)[s]|);
      Exact(Promote(c, st, s, t).st) <==> room.st.Has(s, st.index[s].tier)
  {
    var source := st.index[s].tier;
    var data := st.In(source)[s];
    var room := MakeRoom(c, st, t, |data|);
    var ms := MakeRoomPath(c, st, t, |data|);
    PathKeepsExact(c, st, ms, room.st, Rank(t));
    RelocateExactIff(room.st, s, source, t, data);
    PathDescends(c, st, ms, room.st, Rank(t), s);
    if Rank(source) < Rank(t) {
      PathSparesHotter(c, st, ms, room.st, Rank(t), source);
      assert st.Has(s, source);
    }
  }

  // ---- Usage and index statistics ----

  /** Indexed bytes never exceed stored bytes, and stored bytes never exceed a capacity. */
  lemma IndexedWithinStored(c: System, ops: seq<Op>, t: Tier)
    requires Run(c, ops).ok
    ensures var st := Run(c, ops).st;
      && IndexedBytes(st.index, t) <= Bytes(st.In(t))
      && (c.Capacity(t) > 0 ==> Bytes(st.In(t)) <= c.Capacity(t))
  {
    RunIsSound(c, ops);
    var st, last := Run(c, ops).st, LastSaved(ops);
    forall s | s in IndexedSizes(st.index, t)
      ensures s in Sizes(st.In(t)) && IndexedSizes(st.index, t)[s] == Sizes(st.In(t))[s]
    {
      assert Newest(st, last, s);
    }
    hide Coherent;
    SumSubmap(IndexedSizes(st.index, t), Sizes(st.In(t)));
  }

  /** With one copy per session the index and the tiers report the same bytes and the same number of sessions. */
  lemma UsageAgrees(st: State, last: Store, t: Tier)
    requires Coherent(st, last) && Exact(st)
    ensures IndexedBytes(st.index, t) == Bytes(st.In(t))
    ensures |IndexedSizes(st.index, t)| == |st.In(t)|
  {
    var indexed, stored := IndexedSizes(st.index, t), Sizes(st.In(t));
    forall s
      ensures s in indexed <==> s in stored
      ensures s in indexed ==> indexed[s] == stored[s]
    {
      SizeAgrees(st, last, t, s);
    }
    assert indexed == stored;
    assert stored.Keys == st.In(t).Keys;
    assert |stored.Keys| == |stored| && |st.In(t).Keys| == |st.In(t)|;
  }

  lemma SizeAgrees(st: State, last: Store, t: Tier, s: Sid)
    requires Coherent(st, last) && Exact(st)
    ensures s in IndexedSizes(st.index, t) <==> s in Sizes(st.In(t))
    ensures s in IndexedSizes(st.index, t) ==> IndexedSizes(st.index, t)[s] == Sizes(st.In(t))[s]
  {
    assert ExactFor(st, s);
    assert s in st.index ==> Newest(st, last, s);
  }
}
