/** Promotions overtaken by their own cascade: the promoted session sinks, or is deleted, while room is made for it. */
module Overtaken {
  import opened Types
  import opened Storage
  import opened Policies
  import opened Cascade
  import opened Operations
  import opened Placement
  import opened Raises

  /** Two sessions and their blobs, before three tiers of given capacities. */
  datatype Scene = Scene(policy: Policy, hot: int, warm: int, cold: int, a: Sid, b: Sid, x: Blob, y: Blob) {
    function Room(): System {
      Config(policy, hot, warm, cold, 16)
    }

    /** Either blob fits in the hot tier and in the warm one, but not both. */
    ghost predicate Narrow() {
      && a != b && a != "" && b != "" && x != [] && y != [] && Answers(policy)
      && |x| <= hot < |x| + |y| && |y| <= hot
      && |x| <= warm < |x| + |y| && |y| <= warm
    }

    function A(t: Tier): Entry {
      Entry("", 0.0, 0.0, 0, 0, t, |x|, 1)
    }

    function B(): Entry {
      Entry("", 0.0, 0.0, 0, 0, Hot, |y|, 1)
    }

    // ---- What the script below passes through ----

    function First(): State {
      State(map[a := x], map[], map[], [a], map[a := A(Hot)], [Inserted(a, A(Hot), 0.0)], 0.0)
    }

    function Sunk(): State {
      State(map[], map[a := x], map[], [a], map[a := A(Warm)], [Inserted(a, A(Hot), 0.0), Chosen(Hot, a, [a])], 0.0)
    }

    /** The second save has sunk the first session. */
    function Stacked(): State {
      State(map[b := y], map[a := x], map[], [a, b], map[a := A(Warm), b := B()],
            [Inserted(a, A(Hot), 0.0), Chosen(Hot, a, [a]), Inserted(b, B(), 0.0)], 0.0)
    }

    function Touched(): State {
      Touch(Stacked(), a)
    }

    function Pushed(): State {
      Touched().Tell(Chosen(Hot, b, [b]))
    }

    function SunkTwice(): State {
      Pushed().Tell(Chosen(Warm, a, [a])).Relocate(a, Warm, Cold, x)
    }

    function DroppedOff(): State {
      Pushed().Tell(Chosen(Warm, a, [a])).Drop(Warm, a).Forget(a)
    }

    /** b has sunk into the warm tier, and a's bytes have gone up. */
    function Overtook(emptied: State): State {
      emptied.Relocate(b, Hot, Warm, y).Relocate(a, Warm, Hot, x)
    }

    function Script(): seq<Op> {
      [DoSave(a, "", x, 0), DoSave(b, "", y, 0), DoLoad(a)]
    }
  }

  // ---- One eviction with one candidate ----

  lemma SoleVictim(c: System, st: State, t: Tier, s: Sid)
    requires Answers(c.policy) && s != "" && Rivals(st, t) == [s]
    ensures Victim(c, st, t) == Some(s)
  {
    hide Select;
    hide Candidates;
    assert Candidates(st.order, st.index, t) != [];
  }

  /** An eviction that needs no room below: the only candidate sinks. */
  lemma SoleSinks(c: System, st: State, t: Tier, s: Sid, next: State)
    requires Answers(c.policy) && s != "" && Rivals(st, t) == [s] && t != Cold
    requires s in st.index && st.index[s].tier == t && st.Holds(s, t)
    requires var told := st.Tell(Chosen(t, s, [s]));
      !told.IsFull(c, Below(t), |st.In(t)[s]|) && next == told.Relocate(s, t, Below(t), st.In(t)[s])
    ensures Evict(c, st, t) == Outcome(true, next)
  {
    hide Evict;
    hide Demote;
    hide Victim;
    hide Rivals;
    hide State.IsFull;
    hide State.Relocate;
    hide Answers;
    SoleVictim(c, st, t, s);
    EvictUnfolds(c, st, t);
    DemoteWithRoom(c, st.Tell(Chosen(t, s, [s])), s);
  }

  /** The only candidate of the warm tier finds cold too small for it even when empty. */
  lemma SoleIsDropped(c: System, st: State, s: Sid)
    requires Answers(c.policy) && s != "" && Rivals(st, Warm) == [s]
    requires Victim(c, st.Tell(Chosen(Warm, s, [s])), Cold) == None
    requires s in st.index && st.index[s].tier == Warm && st.Holds(s, Warm) && st.IsFull(c, Cold, |st.warm[s]|)
    ensures Evict(c, st, Warm) == Outcome(true, st.Tell(Chosen(Warm, s, [s])).Drop(Warm, s).Forget(s))
  {
    hide Evict;
    hide Demote;
    hide EnsureSpace;
    hide Victim;
    hide Rivals;
    hide Bytes;
    hide Answers;
    var told := st.Tell(Chosen(Warm, s, [s]));
    SoleVictim(c, st, Warm, s);
    EvictUnfolds(c, st, Warm);
    DemoteUnfolds(c, told, s);
    EnsureSpaceUnfolds(c, told, Cold, |st.warm[s]|, MAX_ATTEMPTS);
    EvictUnfolds(c, told, Cold);
  }

  lemma BytesOfOne(s: Sid, d: Blob)
    ensures Bytes(map[s := d]) == |d| && Bytes(map[]) == 0
  {
    assert Sizes(map[]) == map[];
    BytesPut(map[], s, d);
    assert map[][s := d] == map[s := d];
  }

  lemma {:induction false} OnlyCandidate(order: seq<Sid>, index: map<Sid, Entry>, t: Tier, s: Sid)
    requires s in order && s in index && index[s].tier == t && NoDup(order)
    requires forall x :: x in order && x != s ==> x in index && index[x].tier != t
    ensures Candidates(order, index, t) == [Candidate(s, index[s])] && Sids(Candidates(order, index, t)) == [s]
  {
    if order[0] == s {
      NoCandidates(order[1..], index, t);
    } else {
      OnlyCandidate(order[1..], index, t, s);
    }
  }

  lemma {:induction false} NoCandidates(order: seq<Sid>, index: map<Sid, Entry>, t: Tier)
    requires forall x :: x in order ==> x in index && index[x].tier != t
    ensures Candidates(order, index, t) == []
  {
    if order != [] {
      NoCandidates(order[1..], index, t);
    }
  }

  // ---- Two saves ----

  lemma FirstRivals(e: Scene)
    ensures Rivals(e.First(), Hot) == [e.a]
  {
    OnlyCandidate([e.a], e.First().index, Hot, e.a);
  }

  lemma FirstSinks(e: Scene)
    requires e.Narrow()
    ensures Evict(e.Room(), e.First(), Hot) == Outcome(true, e.Sunk())
    ensures e.First().IsFull(e.Room(), Hot, |e.y|) && !e.Sunk().IsFull(e.Room(), Hot, |e.y|)
  {
    hide Evict;
    hide Rivals;
    hide Answers;
    hide Bytes;
    FirstRivals(e);
    BytesOfOne(e.a, e.x);
    assert e.First().Tell(Chosen(Hot, e.a, [e.a])).Relocate(e.a, Hot, Warm, e.x) == e.Sunk();
    SoleSinks(e.Room(), e.First(), Hot, e.a, e.Sunk());
  }

  lemma SavesStack(e: Scene)
    requires e.Narrow()
    ensures Save(e.Room(), EMPTY, e.a, "", e.x, 0) == Outcome(true, e.First())
    ensures Save(e.Room(), e.First(), e.b, "", e.y, 0) == Outcome(true, e.Stacked())
  {
    hide Evict;
    hide EnsureSpace;
    hide Answers;
    hide SaveSpot;
    hide State.IsFull;
    hide Accepts;
    NothingStored(e.Room(), |e.x|);
    SaveWithRoom(e.Room(), EMPTY, e.a, "", e.x, 0);
    assert IndexSave(e.Room(), EMPTY, Hot, e.a, "", e.x, 0).Put(Hot, e.a, e.x) == e.First();
    FirstSinks(e);
    OneEvictionIsEnough(e.Room(), e.First(), Hot, |e.y|, e.Sunk());
    SpotIsHot(e.Room(), e.First(), |e.y|, e.Sunk());
    StacksSecond(e);
  }

  lemma NothingStored(c: System, n: nat)
    requires n <= c.hotCapacity
    ensures !EMPTY.IsFull(c, Hot, n)
  {
    BytesOfOne("", []);
  }

  lemma StacksSecond(e: Scene)
    requires e.a != e.b && !e.Sunk().IsFull(e.Room(), Hot, |e.y|)
    ensures var indexed := IndexSave(e.Room(), e.Sunk(), Hot, e.b, "", e.y, 0);
      Accepts(e.Room(), indexed, Hot, e.b, e.y) && indexed.Put(Hot, e.b, e.y) == e.Stacked()
  {
    hide Bytes;
    var indexed := IndexSave(e.Room(), e.Sunk(), Hot, e.b, "", e.y, 0);
    RoomIsAccepted(e.Room(), indexed, Hot, e.b, e.y);
  }

  // ---- The load ----

  lemma StackedRivals(e: Scene)
    requires e.a != e.b
    ensures Rivals(e.Touched(), Hot) == [e.b] && Rivals(e.Pushed(), Warm) == [e.a]
    ensures Candidates(e.Pushed().order, e.Pushed().index, Cold) == []
  {
    hide Candidates;
    hide Sids;
    OnlyCandidate([e.a, e.b], e.Touched().index, Hot, e.b);
    OnlyCandidate([e.a, e.b], e.Pushed().index, Warm, e.a);
    NoCandidates([e.a, e.b], e.Pushed().index, Cold);
  }

  lemma StackedIsFull(e: Scene)
    requires e.Narrow()
    ensures e.Touched().IsFull(e.Room(), Hot, |e.x|) && e.Pushed().IsFull(e.Room(), Warm, |e.y|)
  {
    BytesOfOne(e.b, e.y);
    BytesOfOne(e.a, e.x);
    hide Bytes;
  }

  /** Once the warm tier has been emptied, whatever became of a, b sinks and a's bytes go up. */
  lemma LoadOvertaken(e: Scene, emptied: State)
    requires e.Narrow() && Evict(e.Room(), e.Pushed(), Warm) == Outcome(true, emptied)
    requires emptied.hot == map[e.b := e.y] && emptied.warm == map[]
    ensures Load(e.Room(), e.Stacked(), e.a) == Loaded(Some(e.x), e.Overtook(emptied))
  {
    hide Evict;
    hide MakeRoom;
    hide State.Relocate;
    hide State.IsFull;
    hide Touch;
    hide Answers;
    RoomOvertaken(e, emptied);
    TouchedHolds(e);
  }

  lemma TouchedHolds(e: Scene)
    requires e.a != e.b && e.x != []
    ensures var st, touched := e.Stacked(), e.Touched();
      && e.a in st.index && st.index[e.a].tier == Warm && st.Holds(e.a, Warm) && st.warm[e.a] == e.x
      && e.a in touched.index && touched.index[e.a].tier == Warm && touched.Holds(e.a, Warm) && touched.warm[e.a] == e.x
  {
  }

  lemma RoomOvertaken(e: Scene, emptied: State)
    requires e.Narrow() && Evict(e.Room(), e.Pushed(), Warm) == Outcome(true, emptied)
    requires emptied.hot == map[e.b := e.y] && emptied.warm == map[]
    ensures MakeRoom(e.Room(), e.Touched(), Hot, |e.x|) == Outcome(true, emptied.Relocate(e.b, Hot, Warm, e.y))
  {
    hide Evict;
    hide MakeRoom;
    hide Scene.Touched;
    hide Bytes;
    hide Answers;
    var st := e.Touched();
    StackedIsFull(e);
    BytesOfOne(e.a, e.x);
    SinksOvertaking(e, emptied);
    MakeRoomStep(e.Room(), st, Hot, |e.x|, Evict(e.Room(), st, Hot));
    var next := emptied.Relocate(e.b, Hot, Warm, e.y);
    assert next.hot == map[];
    MakeRoomDone(e.Room(), next, Hot, |e.x|);
  }

  lemma SinksOvertaking(e: Scene, emptied: State)
    requires e.Narrow() && Evict(e.Room(), e.Pushed(), Warm) == Outcome(true, emptied)
    requires emptied.warm == map[]
    ensures Evict(e.Room(), e.Touched(), Hot) == Outcome(true, emptied.Relocate(e.b, Hot, Warm, e.y))
  {
    hide Evict;
    hide Demote;
    hide EnsureSpace;
    hide Victim;
    hide Rivals;
    hide Candidates;
    hide Bytes;
    hide Answers;
    hide State.Relocate;
    var c, st := e.Room(), e.Touched();
    StackedIsFull(e);
    StackedRivals(e);
    BytesOfOne(e.a, e.x);
    SoleVictim(c, st, Hot, e.b);
    EvictUnfolds(c, st, Hot);
    DemoteUnfolds(c, e.Pushed(), e.b);
    OneEvictionIsEnough(c, e.Pushed(), Warm, |e.y|, emptied);
  }

  // ---- Two runs ----

  lemma RunScript(e: Scene)
    requires e.Narrow()
    ensures Run(e.Room(), e.Script()[..2]) == Outcome(true, e.Stacked())
    ensures Run(e.Room(), e.Script()) == Outcome(true, Load(e.Room(), e.Stacked(), e.a).st)
  {
    hide Save;
    hide Load;
    hide Answers;
    hide Scene.Stacked;
    hide Scene.First;
    var ops := e.Script();
    SavesStack(e);
    assert ops[..2][..1] == ops[..1] && ops[..1][..0] == [];
    assert Run(e.Room(), ops[..1]) == Outcome(true, e.First());
  }

  lemma StackedIsExact(e: Scene)
    requires e.a != e.b
    ensures Exact(e.Stacked())
  {
  }

  lemma SinksAgain(e: Scene)
    requires e.Narrow() && (e.cold <= 0 || |e.x| <= e.cold)
    ensures Evict(e.Room(), e.Pushed(), Warm) == Outcome(true, e.SunkTwice())
    ensures var st, end := e.SunkTwice(), e.Overtook(e.SunkTwice());
      && st.hot == map[e.b := e.y] && st.warm == map[] && end.Has(e.a, Hot)
      && end.hot == map[e.a := e.x] && end.warm == map[e.b := e.y] && end.cold == map[e.a := e.x]
  {
    hide Evict;
    hide Rivals;
    hide Answers;
    hide Bytes;
    BytesOfOne(e.a, e.x);
    StackedRivals(e);
    SoleSinks(e.Room(), e.Pushed(), Warm, e.a, e.SunkTwice());
  }

  /** Making room in hot sinks the session being promoted from warm to cold; the promotion leaves that copy. */
  lemma PromotionLeavesCopy(e: Scene)
    requires e.Narrow() && (e.cold <= 0 || |e.x| <= e.cold)
    ensures var before, after := Run(e.Room(), e.Script()[..2]), Run(e.Room(), e.Script());
      && before.ok && Exact(before.st) && after.ok && !Exact(after.st)
      && after.st.Has(e.a, Hot) && after.st.hot == map[e.a := e.x]
      && after.st.warm == map[e.b := e.y] && after.st.cold == map[e.a := e.x]
  {
    hide Run;
    hide Load;
    hide Evict;
    hide Answers;
    hide Scene.Stacked;
    hide Scene.Pushed;
    hide Scene.SunkTwice;
    hide State.Relocate;
    RunScript(e);
    StackedIsExact(e);
    SinksAgain(e);
    LoadOvertaken(e, e.SunkTwice());
    assert !ExactFor(Run(e.Room(), e.Script()).st, e.a);
  }

  lemma DropsOff(e: Scene)
    requires e.Narrow() && 0 < e.cold < |e.x|
    ensures Evict(e.Room(), e.Pushed(), Warm) == Outcome(true, e.DroppedOff())
    ensures var st, end := e.DroppedOff(), e.Overtook(e.DroppedOff());
      && st.hot == map[e.b := e.y] && st.warm == map[] && end.index.Keys == {e.b} && end.Has(e.b, Warm)
      && end.hot == map[e.a := e.x] && end.warm == map[e.b := e.y] && end.cold == map[]
  {
    hide Evict;
    hide Rivals;
    hide Candidates;
    hide Answers;
    hide Bytes;
    StackedRivals(e);
    BytesOfOne(e.a, e.x);
    SoleIsDropped(e.Room(), e.Pushed(), e.a);
  }

  /** With no room in cold, making room in hot deletes the session being promoted.  The load still answers, and its
      bytes go to the hot tier all the same, unindexed: the next load misses. */
  lemma PromotionOfTheDeleted(e: Scene)
    requires e.Narrow() && 0 < e.cold < |e.x|
    ensures var before, after := Run(e.Room(), e.Script()[..2]), Run(e.Room(), e.Script());
      && before.ok && Exact(before.st) && Load(e.Room(), before.st, e.a).data == Some(e.x)
      && after.ok && !Exact(after.st) && after.st.index.Keys == {e.b} && after.st.Has(e.b, Warm)
      && after.st.hot == map[e.a := e.x] && after.st.warm == map[e.b := e.y] && after.st.cold == map[]
      && Load(e.Room(), after.st, e.a).data == None
  {
    hide Run;
    hide Promote;
    hide Evict;
    hide Answers;
    hide Scene.Stacked;
    hide Scene.Pushed;
    hide Scene.DroppedOff;
    hide State.Relocate;
    RunScript(e);
    StackedIsExact(e);
    DropsOff(e);
    LoadOvertaken(e, e.DroppedOff());
    assert e.a !in e.Overtook(e.DroppedOff()).index.Keys;
    assert !ExactFor(Run(e.Room(), e.Script()).st, e.a);
  }
}
