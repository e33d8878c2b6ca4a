/** Least recently used: the access list, its class, and what it does in every run of the manager. */
module Lru {
  import opened Types
  import opened Policies
  import opened Cascade
  import opened Operations
  import opened Coherence
  import opened Descent

  /** The policy object keeps the list itself and reorders it in place. */
  class LruEvictionPolicy {
    var accessOrder: seq<Sid>
    ghost var calls: seq<Call>

    ghost predicate Valid()
      reads this
    {
      accessOrder == Recency(calls)
    }

    constructor ()
      ensures Valid() && calls == []
    {
      accessOrder, calls := [], [];
    }

    method OnAccess(s: Sid, entry: Entry, now: real)
      requires Valid()
      modifies this
      ensures Valid() && calls == old(calls) + [Accessed(s, entry, now)]
    {
      if s in accessOrder {
        accessOrder := Without(accessOrder, s) + [s];
      } else {
        accessOrder := accessOrder + [s];
      }
      calls := calls + [Accessed(s, entry, now)];
      assert calls[..|calls| - 1] == old(calls);
    }

    method OnInsert(s: Sid, entry: Entry, now: real)
      requires Valid()
      modifies this
      ensures Valid() && calls == old(calls) + [Inserted(s, entry, now)]
    {
      if s !in accessOrder {
        accessOrder := accessOrder + [s];
      }
      calls := calls + [Inserted(s, entry, now)];
      assert calls[..|calls| - 1] == old(calls);
    }

    method OnRemove(s: Sid)
      requires Valid()
      modifies this
      ensures Valid() && calls == old(calls) + [Removed(s)]
    {
      if s in accessOrder {
        accessOrder := Without(accessOrder, s);
      }
      calls := calls + [Removed(s)];
      assert calls[..|calls| - 1] == old(calls);
    }

    /** Scans oldest first; falls back to the first candidate. */
    method SelectVictim(now: real, cands: seq<Candidate>) returns (victim: Option<Sid>)
      requires Valid()
      ensures victim == if cands == [] then None else Select(Policy.Lru, calls, now, cands)
    {
      if cands == [] {
        return None;
      }
      var ids := Sids(cands);
      for i := 0 to |accessOrder|
        invariant FirstListed(accessOrder[i..], cands) == FirstListed(accessOrder, cands)
      {
        assert accessOrder[i..][1..] == accessOrder[i + 1..];
        if accessOrder[i] in ids {
          return Some(accessOrder[i]);
        }
      }
      victim := Some(cands[0].sid);
    }
  }

  // ---- The list, told message by message ----

  /** Position, counted from 1, of the last message that inserted or accessed s. */
  function LastTouch(calls: seq<Call>, s: Sid): (r: nat)
    ensures r <= |calls|
  {
    if calls == [] then 0
    else
      var last := calls[|calls| - 1];
      if (last.Inserted? || last.Accessed?) && last.sid == s then |calls|
      else LastTouch(calls[..|calls| - 1], s)
  }

  ghost predicate OldestFirst(list: seq<Sid>, calls: seq<Call>) {
    forall i, j :: 0 <= i < j < |list| ==> LastTouch(calls, list[i]) < LastTouch(calls, list[j])
  }

  /** The access list holds the indexed sessions, each once, strictly ordered by when they were last touched. */
  ghost predicate Tracked(st: State) {
    && (forall s :: s in Recency(st.calls) <==> s in st.index)
    && OldestFirst(Recency(st.calls), st.calls)
  }

  lemma Told(calls: seq<Call>, call: Call)
    ensures (calls + [call])[..|calls|] == calls
    ensures Recency(calls + [call]) == Heard(Recency(calls), call)
    ensures forall x :: LastTouch(calls + [call], x)
                     == if (call.Inserted? || call.Accessed?) && call.sid == x then |calls| + 1 else LastTouch(calls, x)
  {
  }

  /** A removal keeps the order; an insert or access puts the session last, after everything touched before. */
  lemma TouchKeepsOrder(calls: seq<Call>, call: Call)
    requires OldestFirst(Recency(calls), calls)
    requires call.Inserted? ==> call.sid !in Recency(calls)
    ensures OldestFirst(Recency(calls + [call]), calls + [call])
  {
    Told(calls, call);
    var list := Recency(calls);
    if call.Accessed? || call.Removed? {
      WithoutKeepsOrder(list, call.sid, (a, b) => LastTouch(calls, a) < LastTouch(calls, b));
      assert forall i :: 0 <= i < |Without(list, call.sid)| ==> Without(list, call.sid)[i] in Without(list, call.sid);
    }
    if call.Inserted? {
      assert forall i :: 0 <= i < |list| ==> list[i] in list;
    }
  }

  /** The sessions a policy should know of after a message. */
  function Known(before: set<Sid>, call: Call): set<Sid> {
    match call
    case Removed(s) => before - {s}
    case Chosen(_, _, _) => before
    case _ => before + {call.sid}
  }

  lemma TellTracks(st: State, end: State, call: Call)
    requires Tracked(st) && end.calls == st.calls + [call]
    requires call.Inserted? ==> call.sid !in st.index
    requires end.index.Keys == Known(st.index.Keys, call)
    ensures Tracked(end)
  {
    Told(st.calls, call);
    TouchKeepsOrder(st.calls, call);
  }

  lemma MoveTracks(c: System, st: State, m: Move, r: nat)
    requires Tracked(st) && Enabled(c, st, m, r)
    ensures Tracked(Apply(st, m))
  {
    match m
    case Pick(t, v, rivals) => TellTracks(st, Apply(st, m), Chosen(t, v, rivals));
    case Sink(s) =>
    case Discard(s) => TellTracks(st, Apply(st, m), Removed(s));
    case Erase(s) => TellTracks(st, Apply(st, m), Removed(s));
  }

  // ---- Victims ----

  /** v is the least recently touched of the candidates. */
  ghost predicate LeastRecent(calls: seq<Call>, v: Sid, rivals: seq<Sid>) {
    v in rivals && forall w :: w in rivals && w != v ==> LastTouch(calls, v) < LastTouch(calls, w)
  }

  /** Every victim chosen from message `from` on was, when chosen, the least recently touched candidate. */
  ghost predicate ChoseLeastRecent(calls: seq<Call>, from: nat) {
    forall i :: from <= i < |calls| && calls[i].Chosen? ==> LeastRecent(calls[..i], calls[i].sid, calls[i].rivals)
  }

  lemma {:induction false} FirstListedIsOldest(list: seq<Sid>, calls: seq<Call>, cands: seq<Candidate>)
    requires cands != [] && OldestFirst(list, calls)
    requires forall s :: s in Sids(cands) ==> s in list
    ensures FirstListed(list, cands) in list
    ensures LeastRecent(calls, FirstListed(list, cands), Sids(cands))
  {
    assert Sids(cands)[0] in Sids(cands);
    if list[0] in Sids(cands) {
      forall w | w in Sids(cands) && w != list[0]
        ensures LastTouch(calls, list[0]) < LastTouch(calls, w)
      {
        var j :| 0 <= j < |list| && list[j] == w;
      }
    } else {
      FirstListedIsOldest(list[1..], calls, cands);
    }
  }

  /** The list knows every candidate, so the scan never falls through to the fallback. */
  lemma SelectIsOldest(st: State, t: Tier)
    requires Tracked(st) && Candidates(st.order, st.index, t) != []
    ensures var v := FirstListed(Recency(st.calls), Candidates(st.order, st.index, t));
      v in Recency(st.calls) && LeastRecent(st.calls, v, Rivals(st, t))
  {
    FirstListedIsOldest(Recency(st.calls), st.calls, Candidates(st.order, st.index, t));
  }

  lemma ChoiceTold(calls: seq<Call>, call: Call, from: nat)
    requires ChoseLeastRecent(calls, from)
    requires call.Chosen? ==> LeastRecent(calls, call.sid, call.rivals)
    ensures ChoseLeastRecent(calls + [call], from)
  {
    var all := calls + [call];
    forall i | from <= i < |all| && all[i].Chosen?
      ensures LeastRecent(all[..i], all[i].sid, all[i].rivals)
    {
      assert all[..i] == calls[..i];
      assert calls[..|calls|] == calls;
    }
  }

  lemma {:induction false} PathTracks(c: System, st: State, ms: seq<Move>, end: State, r: nat, from: nat)
    requires c.policy == Policy.Lru
    requires Tracked(st) && ChoseLeastRecent(st.calls, from) && Path(c, st, ms, end, r)
    ensures Tracked(end) && ChoseLeastRecent(end.calls, from)
    decreases |ms|
  {
    if ms != [] {
      MoveTracks(c, st, ms[0], r);
      MoveChooses(c, st, ms[0], r, from);
      hide Apply;
      hide Enabled;
      hide ChoseLeastRecent;
      hide Tracked;
      PathTracks(c, Apply(st, ms[0]), ms[1..], end, r, from);
    }
  }

  lemma MoveChooses(c: System, st: State, m: Move, r: nat, from: nat)
    requires c.policy == Policy.Lru
    requires Tracked(st) && ChoseLeastRecent(st.calls, from) && Enabled(c, st, m, r)
    ensures ChoseLeastRecent(Apply(st, m).calls, from)
  {
    if m.Pick? {
      SelectIsOldest(st, m.tier);
      ChoiceTold(st.calls, Chosen(m.tier, m.victim, m.rivals), from);
    } else if !m.Sink? {
      ChoiceTold(st.calls, Removed(m.sid), from);
    }
  }

  // ---- Runs ----

  /** Tracked, and every victim so far was the least recently touched of the candidates. */
  ghost predicate LruState(st: State) {
    Tracked(st) && ChoseLeastRecent(st.calls, 0)
  }

  lemma TellKeepsLru(st: State, end: State, call: Call)
    requires LruState(st) && end.calls == st.calls + [call] && !call.Chosen?
    requires call.Inserted? ==> call.sid !in st.index
    requires end.index.Keys == Known(st.index.Keys, call)
    ensures LruState(end)
  {
    TellTracks(st, end, call);
    ChoiceTold(st.calls, call, 0);
  }

  lemma PathKeepsLru(c: System, st: State, ms: seq<Move>, end: State, r: nat)
    requires c.policy == Policy.Lru && LruState(st) && Path(c, st, ms, end, r)
    ensures LruState(end)
  {
    PathTracks(c, st, ms, end, r, 0);
  }

  lemma SameCallsKeepLru(st: State, end: State)
    requires LruState(st) && end.calls == st.calls && end.index.Keys == st.index.Keys
    ensures LruState(end)
  {
  }

  lemma PromoteKeepsLru(c: System, st: State, s: Sid, t: Tier)
    requires c.policy == Policy.Lru && LruState(st)
    ensures LruState(Promote(c, st, s, t).st)
  {
    hide LruState;
    hide MakeRoom;
    if s in st.index && st.index[s].tier != t && st.Holds(s, st.index[s].tier) {
      var n := |st.In(st.index[s].tier)[s]|;
      var room := MakeRoom(c, st, t, n);
      var ms := MakeRoomPath(c, st, t, n);
      PathKeepsLru(c, st, ms, room.st, Rank(t));
      SameCallsKeepLru(room.st, Promote(c, st, s, t).st);
    }
  }

  lemma SaveKeepsLru(c: System, st: State, s: Sid, user: string, data: Blob, tokens: nat)
    requires c.policy == Policy.Lru && LruState(st)
    ensures LruState(Save(c, st, s, user, data, tokens).st)
  {
    hide LruState;
    hide SaveSpot;
    hide IndexSave;
    hide Accepts;
    var spot := SaveSpot(c, st, |data|);
    var ms := SaveSpotPath(c, st, |data|);
    PathKeepsLru(c, st, ms, spot.st, 0);
    var indexed := IndexSave(c, spot.st, spot.tier, s, user, data, tokens);
    IndexSaveKeepsLru(c, spot.st, spot.tier, s, user, data, tokens);
    SameCallsKeepLru(indexed, indexed.Put(spot.tier, s, data));
  }

  lemma IndexSaveKeepsLru(c: System, st: State, t: Tier, s: Sid, user: string, data: Blob, tokens: nat)
    requires LruState(st)
    ensures LruState(IndexSave(c, st, t, s, user, data, tokens))
  {
    hide LruState;
    var end := IndexSave(c, st, t, s, user, data, tokens);
    if s in st.index {
      SameCallsKeepLru(st, end);
    } else {
      TellKeepsLru(st, end, Inserted(s, end.index[s], st.now));
    }
  }

  lemma LoadKeepsLru(c: System, st: State, s: Sid, last: Store)
    requires c.policy == Policy.Lru && LruState(st) && Coherent(st, last) && NothingEmpty(last)
    ensures LruState(Load(c, st, s).st)
  {
    if s in st.index {
      assert Newest(st, last, s);
      var touched := Touch(st, s);
      TellKeepsLru(st, touched, Accessed(s, touched.index[s], st.now));
      PromoteKeepsLru(c, touched, s, Hot);
    }
  }

  lemma StepKeepsLru(c: System, st: State, op: Op, last: Store)
    requires c.policy == Policy.Lru && LruState(st) && Coherent(st, last) && NothingEmpty(last)
    ensures LruState(Step(c, st, op).st)
  {
    hide LruState;
    match op
    case DoSave(s, user, data, tokens) => SaveKeepsLru(c, st, s, user, data, tokens);
    case DoLoad(s) => LoadKeepsLru(c, st, s, last);
    case DoPromote(s, t) => PromoteKeepsLru(c, st, s, t);
    case DoDemote(s) =>
      var ms := DemotePath(c, st, s);
      PathKeepsLru(c, st, ms, Demote(c, st, s).st, if s in st.index then Rank(st.index[s].tier) else 2);
    case DoEvict(t) =>
      var ms := EvictPath(c, st, t);
      PathKeepsLru(c, st, ms, Evict(c, st, t).st, Rank(t));
    case DoDelete(s) => DeleteKeepsLru(st, s);
    case DoMaintain =>
      var ids := ExpiredIn(c, st, st.order);
      var ms := DemoteAllPath(c, st, ids);
      PathKeepsLru(c, st, ms, DemoteAll(c, st, ids), 0);
    case Tick(at) => TickKeepsLru(st, at);
  }

  lemma DeleteKeepsLru(st: State, s: Sid)
    requires LruState(st)
    ensures LruState(Delete(st, s).st)
  {
    hide LruState;
    if s in st.index {
      TellKeepsLru(st, Delete(st, s).st, Removed(s));
    }
  }

  lemma TickKeepsLru(st: State, at: real)
    requires LruState(st)
    ensures LruState(st.(now := at))
  {
  }

  /** In every reachable state the access list is the index in order of last touch, and every victim ever chosen
      was at that moment the least recently touched candidate.  Re-saving a session is not a touch. */
  lemma {:induction false} RunIsLru(c: System, ops: seq<Op>)
    requires c.policy == Policy.Lru && Run(c, ops).ok && NonEmpty(ops)
    ensures LruState(Run(c, ops).st)
    decreases |ops|
  {
    if ops != [] {
      var init := ops[..|ops| - 1];
      RunIsLru(c, init);
      RunIsSound(c, init);
      LastSavedNotEmpty(init);
      StepKeepsLru(c, Run(c, init).st, ops[|ops| - 1], LastSaved(init));
    }
  }

  // ---- The promoted session during a load ----

  /** A cascade only removes and chooses; it touches nobody. */
  ghost predicate NoTouchSince(calls: seq<Call>, from: nat) {
    from <= |calls| && forall i :: from <= i < |calls| ==> calls[i].Chosen? || calls[i].Removed?
  }

  lemma {:induction false} PathTouchesNobody(c: System, st: State, ms: seq<Move>, end: State, r: nat, from: nat)
    requires Path(c, st, ms, end, r) && NoTouchSince(st.calls, from)
    ensures st.calls <= end.calls && NoTouchSince(end.calls, from)
    decreases |ms|
  {
    hide Enabled;
    hide Apply;
    if ms != [] {
      MoveTouchesNobody(st, ms[0], from);
      PathTouchesNobody(c, Apply(st, ms[0]), ms[1..], end, r, from);
    }
  }

  lemma MoveTouchesNobody(st: State, m: Move, from: nat)
    requires NoTouchSince(st.calls, from)
    ensures st.calls <= Apply(st, m).calls && NoTouchSince(Apply(st, m).calls, from)
  {
  }

  /** After the touch, a load only makes room. */
  lemma LoadTouchesOnce(c: System, st: State, s: Sid)
    requires s in st.index && st.Holds(s, st.index[s].tier)
    ensures var touched, end := Touch(st, s).calls, Load(c, st, s).st.calls;
      touched <= end && NoTouchSince(end, |touched|) && LastTouch(touched, s) == |touched| == |st.calls| + 1
  {
    hide MakeRoom;
    hide NoTouchSince;
    var touched := Touch(st, s);
    var from := |touched.calls|;
    assert NoTouchSince(touched.calls, from) by {
      NothingSinceEnd(touched.calls);
    }
    if st.index[s].tier != Hot {
      var n := |st.In(st.index[s].tier)[s]|;
      var ms := MakeRoomPath(c, touched, Hot, n);
      PathTouchesNobody(c, touched, ms, MakeRoom(c, touched, Hot, n).st, 0, from);
    }
  }

  lemma NothingSinceEnd(calls: seq<Call>)
    ensures NoTouchSince(calls, |calls|)
  {
  }

  lemma {:induction false} TouchesBefore(calls: seq<Call>, from: nat, s: Sid)
    requires NoTouchSince(calls, from)
    ensures LastTouch(calls, s) == LastTouch(calls[..from], s)
    decreases |calls|
  {
    if from < |calls| {
      var init := calls[..|calls| - 1];
      TouchesBefore(init, from, s);
      assert init[..from] == calls[..from];
    } else {
      assert calls[..from] == calls;
    }
  }

  /** While s was the last to be touched, s can only be the victim when it has no rivals. */
  lemma LastTouchedLosesToAnyone(calls: seq<Call>, from: nat, s: Sid, i: nat)
    requires NoTouchSince(calls, from) && LastTouch(calls[..from], s) == from > 0
    requires ChoseLeastRecent(calls, 0) && from <= i < |calls| && calls[i].Chosen? && calls[i].sid == s
    ensures forall w :: w in calls[i].rivals ==> w == s
  {
    var upTo := calls[..i];
    assert upTo[..from] == calls[..from];
    forall w | w in calls[i].rivals
      ensures w == s
    {
      TouchesBefore(upTo, from, s);
      TouchesBefore(upTo, from, w);
      assert LastTouch(calls[..from], w) <= from;
    }
  }

  /** During the promotion that follows a load, the loaded session is chosen only when nobody else is in its tier. */
  lemma PromotedIsChosenOnlyAlone(c: System, ops: seq<Op>, s: Sid)
    requires c.policy == Policy.Lru && Run(c, ops).ok && NonEmpty(ops) && s in Run(c, ops).st.index
    ensures var before, after := Run(c, ops).st.calls, Load(c, Run(c, ops).st, s).st.calls;
      forall i :: |before| < i < |after| && after[i].Chosen? && after[i].sid == s ==>
        forall w :: w in after[i].rivals ==> w == s
  {
    hide Run;
    hide Load;
    hide Touch;
    hide NoTouchSince;
    hide LastTouch;
    hide Tracked;
    hide ChoseLeastRecent;
    RunIsLru(c, ops);
    RunIsSound(c, ops);
    LastSavedNotEmpty(ops);
    var st, end := Run(c, ops).st, Load(c, Run(c, ops).st, s).st;
    assert Newest(st, LastSaved(ops), s);
    LoadKeepsLru(c, st, s, LastSaved(ops));
    LoadTouchesOnce(c, st, s);
    var touched := Touch(st, s).calls;
    assert end.calls[..|touched|] == touched;
    forall i | |st.calls| < i < |end.calls| && end.calls[i].Chosen? && end.calls[i].sid == s
      ensures forall w :: w in end.calls[i].rivals ==> w == s
    {
      LastTouchedLosesToAnyone(end.calls, |touched|, s, i);
    }
  }
}
