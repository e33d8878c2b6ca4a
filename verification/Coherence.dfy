/** What the index points at is always the newest data, and no tier outgrows its capacity. */
module Coherence {
  import opened Types
  import opened Storage
  import opened Cascade
  import opened Operations

  /** The index lists each session once; its entry's tier holds the last bytes saved for it, at the recorded size. */
  ghost predicate Coherent(st: State, last: Store) {
    Listed(st) && forall s :: s in st.index ==> Newest(st, last, s)
  }

  ghost predicate Listed(st: State) {
    NoDup(st.order) && forall s :: s in st.order <==> s in st.index
  }

  ghost predicate Newest(st: State, last: Store, s: Sid)
    requires s in st.index
  {
    var t := st.index[s].tier;
    s in last && s in st.In(t) && st.In(t)[s] == last[s] && st.index[s].sizeBytes == |last[s]|
  }

  /** Superseded copies count too. */
  ghost predicate WithinCapacity(c: System, st: State) {
    Fits(st.hot, c.hotCapacity) && Fits(st.warm, c.warmCapacity) && Fits(st.cold, c.coldCapacity)
  }

  ghost predicate Sound(c: System, st: State, last: Store) {
    Coherent(st, last) && WithinCapacity(c, st)
  }

  // ---- Steps ----

  lemma PutFits(c: System, st: State, t: Tier, s: Sid, data: Blob)
    requires WithinCapacity(c, st) && Accepts(c, st, t, s, data)
    ensures WithinCapacity(c, st.Put(t, s, data))
  {
    BytesPut(st.In(t), s, data);
  }

  lemma DropFits(c: System, st: State, t: Tier, s: Sid)
    requires WithinCapacity(c, st)
    ensures WithinCapacity(c, st.Drop(t, s))
  {
    BytesDrop(st.In(t), s);
  }

  lemma RelocateFits(c: System, st: State, s: Sid, source: Tier, target: Tier, data: Blob)
    requires WithinCapacity(c, st) && !st.IsFull(c, target, |data|)
    ensures WithinCapacity(c, st.Relocate(s, source, target, data))
  {
    RoomIsAccepted(c, st, target, s, data);
    PutFits(c, st, target, s, data);
    DropFits(c, st.Put(target, s, data), source, s);
  }

  lemma RelocateNewest(st: State, last: Store, s: Sid, source: Tier, target: Tier, data: Blob, x: Sid)
    requires x in st.index && Newest(st, last, x) && source != target
    requires x == s ==> data == last[s]
    ensures x in st.Relocate(s, source, target, data).index && Newest(st.Relocate(s, source, target, data), last, x)
  {
    if x != s {
      assert st.Relocate(s, source, target, data).index[x] == st.index[x];
    }
  }

  lemma RelocateListed(st: State, s: Sid, source: Tier, target: Tier, data: Blob)
    requires Listed(st)
    ensures Listed(st.Relocate(s, source, target, data))
    ensures st.Relocate(s, source, target, data).index.Keys == st.index.Keys
  {
  }

  /** Moving a session's newest bytes, or an orphan's, keeps the index true. */
  lemma RelocateKeeps(c: System, st: State, last: Store, s: Sid, source: Tier, target: Tier, data: Blob)
    requires Sound(c, st, last) && source != target
    requires s in st.index ==> data == last[s]
    requires !st.IsFull(c, target, |data|)
    ensures Sound(c, st.Relocate(s, source, target, data), last)
  {
    RelocateFits(c, st, s, source, target, data);
    var end := st.Relocate(s, source, target, data);
    RelocateListed(st, s, source, target, data);
    hide Newest;
    hide WithinCapacity;
    hide Listed;
    hide State.Relocate;
    forall x | x in st.index
      ensures x in end.index && Newest(end, last, x)
    {
      RelocateNewest(st, last, s, source, target, data, x);
    }
  }

  lemma ForgetNewest(st: State, last: Store, s: Sid, t: Tier, x: Sid)
    requires x in st.index && x != s && Newest(st, last, x)
    ensures x in st.Drop(t, s).Forget(s).index && Newest(st.Drop(t, s).Forget(s), last, x)
  {
  }

  lemma ForgetListed(st: State, s: Sid)
    requires Listed(st)
    ensures Listed(st.Unindex(s))
  {
    WithoutNoDup(st.order, s);
  }

  lemma ForgetKeeps(c: System, st: State, last: Store, s: Sid, t: Tier)
    requires Sound(c, st, last)
    ensures Sound(c, st.Drop(t, s).Forget(s), last)
  {
    DropFits(c, st, t, s);
    ForgetListed(st, s);
    var end := st.Drop(t, s).Forget(s);
    assert Listed(end) && WithinCapacity(c, end) && end.index.Keys == st.index.Keys - {s};
    hide Newest;
    hide WithinCapacity;
    hide Listed;
    forall x | x in end.index
      ensures Newest(end, last, x)
    {
      ForgetNewest(st, last, s, t, x);
    }
  }

  /** Nothing the index is about has changed. */
  lemma SameStoresKeep(c: System, st: State, end: State, last: Store)
    requires Sound(c, st, last)
    requires end.hot == st.hot && end.warm == st.warm && end.cold == st.cold && end.order == st.order
    requires end.index.Keys == st.index.Keys
    requires forall s :: s in st.index ==>
      end.index[s].tier == st.index[s].tier && end.index[s].sizeBytes == st.index[s].sizeBytes
    ensures Sound(c, end, last)
  {
  }

  lemma MoveKeeps(c: System, st: State, m: Move, last: Store)
    requires Sound(c, st, last) && Enabled(c, st, m, 0)
    ensures Sound(c, Apply(st, m), last)
  {
    match m
    case Pick(t, v, rivals) => SameStoresKeep(c, st, Apply(st, m), last);
    case Sink(s) =>
      assert Newest(st, last, s);
      RelocateKeeps(c, st, last, s, st.index[s].tier, Below(st.index[s].tier), last[s]);
    case Discard(s) => ForgetKeeps(c, st, last, s, Warm);
    case Erase(s) => ForgetKeeps(c, st, last, s, Cold);
  }

  lemma {:induction false} PathKeeps(c: System, st: State, ms: seq<Move>, end: State, r: nat, last: Store)
    requires Sound(c, st, last) && Path(c, st, ms, end, r)
    ensures Sound(c, end, last)
    decreases |ms|
  {
    hide Apply;
    hide Sound;
    if ms != [] {
      EnabledLower(c, st, ms[0], r, 0);
      hide Enabled;
      MoveKeeps(c, st, ms[0], last);
      PathKeeps(c, Apply(st, ms[0]), ms[1..], end, r, last);
    }
  }

  /** Even a promotion whose own cascade moves or deletes the promoted session. */
  lemma PromoteKeeps(c: System, st: State, s: Sid, t: Tier, last: Store)
    requires Sound(c, st, last)
    ensures Sound(c, Promote(c, st, s, t).st, last)
  {
    if s in st.index && st.index[s].tier != t && st.Holds(s, st.index[s].tier) {
      assert Newest(st, last, s);
      var source := st.index[s].tier;
      var data := st.In(source)[s];
      var room := MakeRoom(c, st, t, |data|);
      var ms := MakeRoomPath(c, st, t, |data|);
      PathKeeps(c, st, ms, room.st, Rank(t), last);
      if room.ok {
        RelocateKeeps(c, room.st, last, s, source, t, data);
      }
    }
  }

  lemma SaveNewest(c: System, st: State, t: Tier, s: Sid, user: string, data: Blob, tokens: nat, last: Store, x: Sid)
    requires x != s ==> x in st.index && Newest(st, last, x)
    ensures var end := IndexSave(c, st, t, s, user, data, tokens).Put(t, s, data);
      x in end.index && Newest(end, last[s := data], x)
  {
    if x != s {
      assert IndexSave(c, st, t, s, user, data, tokens).index[x] == st.index[x];
    }
  }

  lemma IndexSaveListed(c: System, st: State, t: Tier, s: Sid, user: string, data: Blob, tokens: nat)
    requires Listed(st)
    ensures Listed(IndexSave(c, st, t, s, user, data, tokens))
    ensures IndexSave(c, st, t, s, user, data, tokens).index.Keys == st.index.Keys + {s}
  {
  }

  lemma SaveToKeeps(c: System, st: State, t: Tier, s: Sid, user: string, data: Blob, tokens: nat, last: Store)
    requires Sound(c, st, last) && SaveTo(c, st, t, s, user, data, tokens).ok
    ensures Sound(c, SaveTo(c, st, t, s, user, data, tokens).st, last[s := data])
  {
    var indexed := IndexSave(c, st, t, s, user, data, tokens);
    IndexSaveListed(c, st, t, s, user, data, tokens);
    PutFits(c, indexed, t, s, data);
    var end := indexed.Put(t, s, data);
    assert Listed(end) && WithinCapacity(c, end) && end.index.Keys == st.index.Keys + {s};
    hide Newest;
    hide WithinCapacity;
    hide Listed;
    forall x | x in end.index
      ensures Newest(end, last[s := data], x)
    {
      SaveNewest(c, st, t, s, user, data, tokens, last, x);
    }
  }

  lemma StepKeeps(c: System, st: State, op: Op, last: Store)
    requires Sound(c, st, last) && Step(c, st, op).ok
    ensures Sound(c, Step(c, st, op).st, Recall(last, op))
  {
    hide Sound;
    hide Path;
    hide Lossless;
    hide Evict;
    hide Demote;
    hide DemoteAll;
    hide Load;
    hide Promote;
    hide SaveTo;
    match op
    case DoSave(s, user, data, tokens) =>
      var spot := SaveSpot(c, st, |data|);
      var ms := SaveSpotPath(c, st, |data|);
      PathKeeps(c, st, ms, spot.st, 0, last);
      SaveToKeeps(c, spot.st, spot.tier, s, user, data, tokens, last);
    case DoLoad(s) => LoadKeeps(c, st, s, last);
    case DoPromote(s, t) => PromoteKeeps(c, st, s, t, last);
    case DoDemote(s) =>
      var ms := DemotePath(c, st, s);
      PathKeeps(c, st, ms, Demote(c, st, s).st, if s in st.index then Rank(st.index[s].tier) else 2, last);
    case DoEvict(t) =>
      var ms := EvictPath(c, st, t);
      PathKeeps(c, st, ms, Evict(c, st, t).st, Rank(t), last);
    case DoDelete(s) =>
      if s in st.index {
        ForgetKeeps(c, st, last, s, st.index[s].tier);
      }
    case DoMaintain =>
      var ids := ExpiredIn(c, st, st.order);
      var ms := DemoteAllPath(c, st, ids);
      PathKeeps(c, st, ms, DemoteAll(c, st, ids), 0, last);
    case Tick(at) =>
      SameStoresKeep(c, st, st.(now := at), last);
  }

  lemma LoadKeeps(c: System, st: State, s: Sid, last: Store)
    requires Sound(c, st, last)
    ensures Sound(c, Load(c, st, s).st, last)
  {
    if s in st.index {
      if st.Holds(s, st.index[s].tier) {
        SameStoresKeep(c, st, Touch(st, s), last);
        PromoteKeeps(c, Touch(st, s), s, Hot, last);
      } else {
        UnindexKeeps(c, st, s, last);
      }
    }
  }

  lemma UnindexKeeps(c: System, st: State, s: Sid, last: Store)
    requires Sound(c, st, last)
    ensures Sound(c, st.Unindex(s), last)
  {
    ForgetListed(st, s);
    hide Listed;
    forall x | x in st.index && x != s
      ensures Newest(st.Unindex(s), last, x)
    {
      assert Newest(st, last, x);
    }
  }

  // ---- Runs ----

  function Recall(last: Store, op: Op): Store {
    if op.DoSave? then last[op.sid := op.data] else last
  }

  /** The bytes of each session's most recent save. */
  function LastSaved(ops: seq<Op>): Store {
    if ops == [] then map[] else Recall(LastSaved(ops[..|ops| - 1]), ops[|ops| - 1])
  }

  /** After every run in which no operation raised, the index is true and every tier is within its capacity. */
  lemma {:induction false} RunIsSound(c: System, ops: seq<Op>)
    requires Run(c, ops).ok
    ensures Sound(c, Run(c, ops).st, LastSaved(ops))
    decreases |ops|
  {
    if ops != [] {
      RunIsSound(c, ops[..|ops| - 1]);
      StepKeeps(c, Run(c, ops[..|ops| - 1]).st, ops[|ops| - 1], LastSaved(ops[..|ops| - 1]));
    }
  }

  /** Load answers exactly for the indexed sessions, with the last bytes saved: never stale, never another's. */
  lemma LoadReturnsLastSave(c: System, ops: seq<Op>, s: Sid)
    requires Run(c, ops).ok
    ensures var st := Run(c, ops).st;
      Load(c, st, s).data
      == if s in st.index && s in LastSaved(ops) && LastSaved(ops)[s] != [] then Some(LastSaved(ops)[s]) else None
  {
    RunIsSound(c, ops);
    var st := Run(c, ops).st;
    assert s in st.index ==> Newest(st, LastSaved(ops), s);
  }

  // ---- Saves that raise ----

  /** A save raises exactly when the hot tier and then the warm tier stay full after their evictions. */
  lemma SaveRaisesIff(c: System, st: State, s: Sid, user: string, data: Blob, tokens: nat)
    ensures var hot := EnsureSpace(c, st, Hot, |data|, MAX_ATTEMPTS);
      Save(c, st, s, user, data, tokens).ok
      <==> !hot.IsFull(c, Hot, |data|) || !EnsureSpace(c, hot, Warm, |data|, MAX_ATTEMPTS).IsFull(c, Warm, |data|)
  {
    var spot := SaveSpot(c, st, |data|);
    var indexed := IndexSave(c, spot.st, spot.tier, s, user, data, tokens);
    if spot.tier == Hot {
      RoomIsAccepted(c, indexed, Hot, s, data);
    }
  }

  /** After a raise the index is true only by luck.  Counting the raised save as the latest, it is true when the warm
      tier held those very bytes already; not counting it, when the warm tier held the previous save and that was as
      long. */
  lemma RaisedSaveIsCoherentIff(c: System, st: State, s: Sid, user: string, data: Blob, tokens: nat, last: Store)
    requires Sound(c, st, last) && !Save(c, st, s, user, data, tokens).ok
    ensures var raised, warm := Save(c, st, s, user, data, tokens).st, SaveSpot(c, st, |data|).st.warm;
      && (Coherent(raised, last[s := data]) <==> s in warm && warm[s] == data)
      && (Coherent(raised, last) <==> s in warm && s in last && warm[s] == last[s] && |last[s]| == |data|)
  {
    hide Save;
    hide Sound;
    hide Coherent;
    var spot := SaveSpot(c, st, |data|);
    var ms := SaveSpotPath(c, st, |data|);
    PathKeeps(c, st, ms, spot.st, 0, last);
    SoundIsCoherent(c, spot.st, last);
    RaisedIndexIff(c, spot.st, s, user, data, tokens, last, last[s := data]);
    RaisedIndexIff(c, spot.st, s, user, data, tokens, last, last);
    RaisedState(c, st, s, user, data, tokens);
  }

  lemma SoundIsCoherent(c: System, st: State, last: Store)
    requires Sound(c, st, last)
    ensures Coherent(st, last)
  {
  }

  lemma RaisedState(c: System, st: State, s: Sid, user: string, data: Blob, tokens: nat)
    requires !Save(c, st, s, user, data, tokens).ok
    ensures Save(c, st, s, user, data, tokens).st
        == IndexSave(c, SaveSpot(c, st, |data|).st, Warm, s, user, data, tokens)
  {
    hide SaveSpot;
    hide IndexSave;
    var spot := SaveSpot(c, st, |data|);
    if spot.tier != Warm {
      SpotHasRoom(c, st, s, user, data, tokens);
    }
  }

  lemma SpotHasRoom(c: System, st: State, s: Sid, user: string, data: Blob, tokens: nat)
    requires SaveSpot(c, st, |data|).tier != Warm
    ensures Save(c, st, s, user, data, tokens).ok
  {
    SaveRaisesIff(c, st, s, user, data, tokens);
    hide Save;
    hide EnsureSpace;
    hide State.IsFull;
  }

  /** What the index says of a session it files under warm without writing there, by any book right of the others. */
  lemma RaisedIndexIff(c: System, st: State, s: Sid, user: string, data: Blob, tokens: nat, last: Store, book: Store)
    requires Coherent(st, last) && forall x :: x in last && x != s ==> x in book && book[x] == last[x]
    ensures Coherent(IndexSave(c, st, Warm, s, user, data, tokens), book)
       <==> s in st.warm && s in book && st.warm[s] == book[s] && |book[s]| == |data|
  {
    var end := IndexSave(c, st, Warm, s, user, data, tokens);
    IndexSaveListed(c, st, Warm, s, user, data, tokens);
    hide Listed;
    hide IndexSave;
    hide Newest;
    forall x | x in end.index
      ensures Newest(end, book, x)
         <==> x != s || (s in st.warm && s in book && st.warm[s] == book[s] && |book[s]| == |data|)
    {
      RaisedNewest(c, st, s, user, data, tokens, last, book, x);
    }
  }

  lemma RaisedNewest(c: System, st: State, s: Sid, user: string, data: Blob, tokens: nat, last: Store, book: Store,
          x: Sid)
    requires x != s ==> x in st.index && Newest(st, last, x) && x in book && book[x] == last[x]
    ensures x in IndexSave(c, st, Warm, s, user, data, tokens).index
    ensures Newest(IndexSave(c, st, Warm, s, user, data, tokens), book, x)
       <==> x != s || (s in st.warm && s in book && st.warm[s] == book[s] && |book[s]| == |data|)
  {
  }

  /** Room for the blob in neither tier: the save raises, and leaves an index entry with nothing behind it. */
  lemma RaisedSaveLeavesEmptyEntry(c: System, s: Sid, user: string, data: Blob, tokens: nat)
    requires 0 < c.hotCapacity < |data| && 0 < c.warmCapacity < |data|
    ensures var save := Save(c, EMPTY, s, user, data, tokens);
      !save.ok && save.st.Has(s, Warm) && save.st.index.Keys == {s} && save.st.warm == map[]
  {
    hide Bytes;
  }
}
