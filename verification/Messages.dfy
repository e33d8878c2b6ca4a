/** What the manager tells its policy, whatever the policy: who comes, who is used, who goes. */
module Messages {
  import opened Types
  import opened Policies
  import opened Cascade
  import opened Operations
  import opened Coherence
  import opened Descent

  /** Inserts and accesses, in order: what a policy learns of use. */
  function Touches(calls: seq<Call>): seq<Call> {
    if calls == [] then []
    else
      var last, init := calls[|calls| - 1], Touches(calls[..|calls| - 1]);
      if last.Inserted? || last.Accessed? then init + [last] else init
  }

  /** The sessions a policy has been told of and not told to be gone. */
  function Present(calls: seq<Call>): set<Sid> {
    if calls == [] then {}
    else
      var last, init := calls[|calls| - 1], Present(calls[..|calls| - 1]);
      if last.Inserted? then init + {last.sid} else if last.Removed? then init - {last.sid} else init
  }

  lemma OneMoreCall(calls: seq<Call>, call: Call)
    ensures Touches(calls + [call])
         == if call.Inserted? || call.Accessed? then Touches(calls) + [call] else Touches(calls)
    ensures Present(calls + [call])
         == if call.Inserted? then Present(calls) + {call.sid}
            else if call.Removed? then Present(calls) - {call.sid}
            else Present(calls)
  {
    assert (calls + [call])[..|calls|] == calls;
  }

  /** No use reported, and whoever has left the index reported gone. */
  ghost predicate Quiet(st: State, end: State) {
    && Touches(end.calls) == Touches(st.calls)
    && (Present(st.calls) == st.index.Keys ==> Present(end.calls) == end.index.Keys)
  }

  // ---- Cascades ----

  lemma MoveIsQuiet(c: System, st: State, m: Move, r: nat)
    requires Enabled(c, st, m, r)
    ensures Quiet(st, Apply(st, m))
  {
    match m
    case Pick(t, v, rivals) => OneMoreCall(st.calls, Chosen(t, v, rivals));
    case Sink(s) =>
    case Discard(s) => OneMoreCall(st.calls, Removed(s));
    case Erase(s) => OneMoreCall(st.calls, Removed(s));
  }

  lemma {:induction false} PathIsQuiet(c: System, st: State, ms: seq<Move>, end: State, r: nat)
    requires Path(c, st, ms, end, r)
    ensures Quiet(st, end)
    decreases |ms|
  {
    hide Apply;
    hide Enabled;
    hide Touches;
    hide Present;
    if ms != [] {
      MoveIsQuiet(c, st, ms[0], r);
      PathIsQuiet(c, Apply(st, ms[0]), ms[1..], end, r);
    }
  }

  lemma PromoteIsQuiet(c: System, st: State, s: Sid, t: Tier)
    ensures Quiet(st, Promote(c, st, s, t).st)
  {
    hide MakeRoom;
    hide Path;
    hide Touches;
    hide Present;
    if s in st.index && st.index[s].tier != t && st.Holds(s, st.index[s].tier) {
      var data := st.In(st.index[s].tier)[s];
      var room := MakeRoom(c, st, t, |data|).st;
      var ms := MakeRoomPath(c, st, t, |data|);
      PathIsQuiet(c, st, ms, room, Rank(t));
      RelocateIsSilent(room, s, st.index[s].tier, t, data);
    }
  }

  lemma DemoteIsQuiet(c: System, st: State, s: Sid)
    ensures Quiet(st, Demote(c, st, s).st)
  {
    hide Demote;
    hide Path;
    var ms := DemotePath(c, st, s);
    PathIsQuiet(c, st, ms, Demote(c, st, s).st, if s in st.index then Rank(st.index[s].tier) else 2);
  }

  lemma EvictIsQuiet(c: System, st: State, t: Tier)
    ensures Quiet(st, Evict(c, st, t).st)
  {
    hide Evict;
    hide Path;
    var ms := EvictPath(c, st, t);
    PathIsQuiet(c, st, ms, Evict(c, st, t).st, Rank(t));
  }

  lemma MaintainIsQuiet(c: System, st: State)
    ensures Quiet(st, Maintain(c, st))
  {
    hide DemoteAll;
    hide Path;
    var ids := ExpiredIn(c, st, st.order);
    var ms := DemoteAllPath(c, st, ids);
    PathIsQuiet(c, st, ms, DemoteAll(c, st, ids), 0);
  }

  lemma RelocateIsSilent(st: State, s: Sid, source: Tier, t: Tier, data: Blob)
    ensures st.Relocate(s, source, t, data).calls == st.calls
    ensures st.Relocate(s, source, t, data).index.Keys == st.index.Keys
  {
  }

  // ---- Saves and loads ----

  /** A session is announced by the save that finds it unindexed when it writes, and by no other. */
  lemma SaveTells(c: System, st: State, s: Sid, user: string, data: Blob, tokens: nat)
    ensures var room, end := SaveSpot(c, st, |data|).st, Save(c, st, s, user, data, tokens).st;
      && s in end.index
      && Touches(end.calls)
           == Touches(st.calls) + (if s in room.index then [] else [Inserted(s, end.index[s], room.now)])
      && (Present(st.calls) == st.index.Keys ==> Present(end.calls) == end.index.Keys)
  {
    hide SaveSpot;
    hide Accepts;
    hide Path;
    hide Touches;
    hide Present;
    var spot := SaveSpot(c, st, |data|);
    var ms := SaveSpotPath(c, st, |data|);
    PathIsQuiet(c, st, ms, spot.st, 0);
    IndexTells(c, spot.st, spot.tier, s, user, data, tokens);
  }

  lemma IndexTells(c: System, st: State, t: Tier, s: Sid, user: string, data: Blob, tokens: nat)
    ensures var end := IndexSave(c, st, t, s, user, data, tokens);
      && s in end.index
      && Touches(end.calls) == Touches(st.calls) + (if s in st.index then [] else [Inserted(s, end.index[s], st.now)])
      && (Present(st.calls) == st.index.Keys ==> Present(end.calls) == end.index.Keys)
  {
    var end := IndexSave(c, st, t, s, user, data, tokens);
    if s !in st.index {
      OneMoreCall(st.calls, Inserted(s, end.index[s], st.now));
    } else {
      assert end.index.Keys == st.index.Keys;
    }
  }

  /** A hit is the one access reported by a load, with the entry as it then stands; a miss of an unknown session reports
      nothing. */
  lemma LoadTells(c: System, st: State, s: Sid)
    ensures var end := Load(c, st, s).st;
      && Touches(end.calls) == Touches(st.calls)
           + (if s in st.index && st.Holds(s, st.index[s].tier) then
                [Accessed(s, st.index[s].(lastAccessed := st.now, accessCount := st.index[s].accessCount + 1), st.now)]
              else [])
      && ((s in st.index ==> st.Holds(s, st.index[s].tier)) && Present(st.calls) == st.index.Keys ==>
            Present(end.calls) == end.index.Keys)
  {
    hide Promote;
    hide Touches;
    hide Present;
    if s in st.index && st.Holds(s, st.index[s].tier) {
      var entry := st.index[s].(lastAccessed := st.now, accessCount := st.index[s].accessCount + 1);
      OneMoreCall(st.calls, Accessed(s, entry, st.now));
      PromoteIsQuiet(c, Touch(st, s), s, Hot);
      assert Touch(st, s).index.Keys == st.index.Keys;
    }
  }

  // ---- Runs ----

  lemma DeleteTells(st: State, s: Sid)
    ensures var end := Delete(st, s).st;
      && Touches(end.calls) == Touches(st.calls)
      && (Present(st.calls) == st.index.Keys ==> Present(end.calls) == end.index.Keys)
  {
    hide Touches;
    hide Present;
    OneMoreCall(st.calls, Removed(s));
  }

  lemma IndexedIsHeld(st: State, last: Store, s: Sid)
    requires Coherent(st, last) && NothingEmpty(last) && s in st.index
    ensures st.Holds(s, st.index[s].tier)
  {
    assert Newest(st, last, s);
  }

  lemma StepTells(c: System, st: State, op: Op, last: Store)
    requires Coherent(st, last) && NothingEmpty(last) && Present(st.calls) == st.index.Keys
    ensures Present(Step(c, st, op).st.calls) == Step(c, st, op).st.index.Keys
    ensures !op.DoSave? && !op.DoLoad? ==> Touches(Step(c, st, op).st.calls) == Touches(st.calls)
  {
    hide Save;
    hide Load;
    hide Promote;
    hide Demote;
    hide Evict;
    hide Delete;
    hide Maintain;
    hide Touches;
    hide Present;
    hide Coherent;
    hide NothingEmpty;
    hide State.Holds;
    match op
    case DoSave(s, user, data, tokens) => SaveTells(c, st, s, user, data, tokens);
    case DoLoad(s) =>
      if s in st.index { IndexedIsHeld(st, last, s); }
      LoadTells(c, st, s);
    case DoPromote(s, t) => PromoteIsQuiet(c, st, s, t);
    case DoDemote(s) => DemoteIsQuiet(c, st, s);
    case DoEvict(t) => EvictIsQuiet(c, st, t);
    case DoDelete(s) => DeleteTells(st, s);
    case DoMaintain => MaintainIsQuiet(c, st);
    case Tick(at) =>
  }

  /** After every run of non-empty blobs the policy has been told of exactly the indexed sessions. */
  lemma {:induction false} ToldWhoIsThere(c: System, ops: seq<Op>)
    requires Run(c, ops).ok && NonEmpty(ops)
    ensures Present(Run(c, ops).st.calls) == Run(c, ops).st.index.Keys
    decreases |ops|
  {
    hide Step;
    hide Present;
    if ops == [] {
      NobodyThere();
    } else {
      var init := ops[..|ops| - 1];
      ToldWhoIsThere(c, init);
      RunIsSound(c, init);
      LastSavedNotEmpty(init);
      StepTells(c, Run(c, init).st, ops[|ops| - 1], LastSaved(init));
    }
  }

  lemma NobodyThere()
    ensures Present([]) == {}
  {
  }
}
