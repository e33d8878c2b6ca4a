/** Stored bytes that no index entry points at: how long they stay, and how they put a whole tier out of use. */
module Orphans {
  import opened Types
  import opened Policies
  import opened Cascade
  import opened Operations

  /** Where the index says a session is. */
  function Recorded(st: State, s: Sid): Option<Tier> {
    if s in st.index then Some(st.index[s].tier) else None
  }

  predicate SameCopy(before: Store, after: Store, s: Sid) {
    if s in before then s in after && after[s] == before[s] else s !in after
  }

  /** Every tier holds the same of a session before and after. */
  ghost predicate SameCopies(st: State, end: State, s: Sid) {
    forall t: Tier :: SameCopy(st.In(t), end.In(t), s)
  }

  /** An unindexed session stays so, and one recorded where it was keeps all its copies, those superseded included. */
  ghost predicate Leaves(st: State, end: State, s: Sid) {
    && (Recorded(st, s) == None ==> Recorded(end, s) == None)
    && (Recorded(end, s) == Recorded(st, s) ==> SameCopies(st, end, s))
  }

  // ---- Cascades ----

  /** How cold a session is recorded, unindexed coldest of all: no move of a cascade lowers it. */
  function Depth(st: State, s: Sid): nat {
    match Recorded(st, s)
    case None => 3
    case Some(t) => Rank(t)
  }

  ghost predicate Deepens(st: State, end: State, s: Sid) {
    Depth(end, s) > Depth(st, s) || (Recorded(end, s) == Recorded(st, s) && SameCopies(st, end, s))
  }

  lemma RelocateSpares(st: State, v: Sid, source: Tier, target: Tier, data: Blob, s: Sid)
    requires s != v
    ensures var end := st.Relocate(v, source, target, data);
      Recorded(end, s) == Recorded(st, s) && SameCopies(st, end, s)
  {
    hide SameCopy;
    var end := st.Relocate(v, source, target, data);
    forall u: Tier
      ensures SameCopy(st.In(u), end.In(u), s)
    {
      RelocateSparesIn(st, v, source, target, data, s, u);
    }
  }

  lemma RelocateSparesIn(st: State, v: Sid, source: Tier, target: Tier, data: Blob, s: Sid, u: Tier)
    requires s != v
    ensures SameCopy(st.In(u), st.Relocate(v, source, target, data).In(u), s)
  {
  }

  lemma RelocateRecords(st: State, v: Sid, source: Tier, target: Tier, data: Blob)
    ensures Recorded(st.Relocate(v, source, target, data), v) == if v in st.index then Some(target) else None
  {
  }

  lemma RelocateDeepens(st: State, v: Sid, source: Tier, target: Tier, data: Blob, s: Sid)
    requires s == v ==> st.Has(v, source) && Rank(source) < Rank(target)
    ensures Deepens(st, st.Relocate(v, source, target, data), s)
  {
    hide State.Relocate;
    hide SameCopies;
    if s == v {
      RelocateRecords(st, v, source, target, data);
    } else {
      RelocateSpares(st, v, source, target, data, s);
    }
  }

  lemma ForgetDeepens(st: State, v: Sid, t: Tier, s: Sid)
    requires s == v ==> s in st.index
    ensures Deepens(st, st.Drop(t, v).Forget(v), s)
  {
  }

  lemma TellDeepens(st: State, call: Call, s: Sid)
    ensures Deepens(st, st.Tell(call), s)
  {
  }

  lemma MoveDeepens(c: System, st: State, m: Move, r: nat, s: Sid)
    requires Enabled(c, st, m, r)
    ensures Deepens(st, Apply(st, m), s)
  {
    hide Deepens;
    hide State.IsFull;
    hide Victim;
    hide Rivals;
    match m
    case Pick(t, v, rivals) =>
      TellDeepens(st, Chosen(t, v, rivals), s);
    case Sink(v) =>
      RelocateDeepens(st, v, st.index[v].tier, Below(st.index[v].tier), st.In(st.index[v].tier)[v], s);
    case Discard(v) =>
      ForgetDeepens(st, v, Warm, s);
    case Erase(v) =>
      ForgetDeepens(st, v, Cold, s);
  }

  lemma DeepensThen(a: State, b: State, d: State, s: Sid)
    requires Deepens(a, b, s) && Deepens(b, d, s)
    ensures Deepens(a, d, s)
  {
  }

  lemma DeepensLeaves(st: State, end: State, s: Sid)
    requires Deepens(st, end, s)
    ensures Leaves(st, end, s)
  {
  }

  lemma {:induction false} PathDeepens(c: System, st: State, ms: seq<Move>, end: State, r: nat, s: Sid)
    requires Path(c, st, ms, end, r)
    ensures Deepens(st, end, s)
    decreases |ms|
  {
    hide Apply;
    hide Enabled;
    if ms == [] {
    } else {
      hide Deepens;
      var next := Apply(st, ms[0]);
      MoveDeepens(c, st, ms[0], r, s);
      PathDeepens(c, next, ms[1..], end, r, s);
      DeepensThen(st, next, end, s);
    }
  }

  lemma PathLeaves(c: System, st: State, ms: seq<Move>, end: State, r: nat, s: Sid)
    requires Path(c, st, ms, end, r)
    ensures Leaves(st, end, s)
  {
    hide *;
    PathDeepens(c, st, ms, end, r, s);
    DeepensLeaves(st, end, s);
  }

  // ---- Operations ----

  lemma LeavesThen(a: State, b: State, d: State, s: Sid)
    requires Leaves(a, b, s) && Recorded(d, s) == Recorded(b, s) && SameCopies(b, d, s)
    ensures Leaves(a, d, s)
  {
  }

  lemma IndexSaveSpares(c: System, st: State, t: Tier, x: Sid, user: string, data: Blob, tokens: nat, s: Sid, u: Tier)
    ensures var indexed := IndexSave(c, st, t, x, user, data, tokens);
      (s != x ==> Recorded(indexed, s) == Recorded(st, s)) && indexed.In(u) == st.In(u)
  {
  }

  lemma PutSpares(st: State, t: Tier, x: Sid, data: Blob, s: Sid, u: Tier)
    requires s != x
    ensures SameCopy(st.In(u), st.Put(t, x, data).In(u), s) && st.Put(t, x, data).index == st.index
  {
  }

  lemma SaveToSpares(c: System, st: State, t: Tier, x: Sid, user: string, data: Blob, tokens: nat, s: Sid)
    requires s != x
    ensures var end := SaveTo(c, st, t, x, user, data, tokens).st;
      Recorded(end, s) == Recorded(st, s) && SameCopies(st, end, s)
  {
    hide Accepts;
    hide IndexSave;
    hide State.Put;
    hide State.In;
    var indexed, end := IndexSave(c, st, t, x, user, data, tokens), SaveTo(c, st, t, x, user, data, tokens).st;
    IndexSaveSpares(c, st, t, x, user, data, tokens, s, t);
    PutSpares(indexed, t, x, data, s, t);
    forall u: Tier
      ensures SameCopy(st.In(u), end.In(u), s)
    {
      IndexSaveSpares(c, st, t, x, user, data, tokens, s, u);
      PutSpares(indexed, t, x, data, s, u);
    }
  }

  /** A save leaves the other sessions alone, when it raises too. */
  lemma SaveLeaves(c: System, st: State, x: Sid, user: string, data: Blob, tokens: nat, s: Sid)
    requires s != x
    ensures Leaves(st, Save(c, st, x, user, data, tokens).st, s)
  {
    hide Leaves;
    hide SaveSpot;
    hide SaveTo;
    hide Path;
    hide SameCopies;
    hide Recorded;
    var spot := SaveSpot(c, st, |data|);
    var ms := SaveSpotPath(c, st, |data|);
    PathLeaves(c, st, ms, spot.st, 0, s);
    SaveToSpares(c, spot.st, spot.tier, x, user, data, tokens, s);
    LeavesThen(st, spot.st, SaveTo(c, spot.st, spot.tier, x, user, data, tokens).st, s);
  }

  lemma PromoteLeaves(c: System, st: State, x: Sid, t: Tier, s: Sid)
    ensures Leaves(st, Promote(c, st, x, t).st, s)
  {
    if x in st.index && st.index[x].tier != t && st.Holds(x, st.index[x].tier) {
      LiftLeaves(c, st, x, st.index[x].tier, t, st.In(st.index[x].tier)[x], s);
    }
  }

  lemma LiftLeaves(c: System, st: State, x: Sid, source: Tier, t: Tier, data: Blob, s: Sid)
    requires st.Has(x, source) && source != t
    ensures Leaves(st, LiftInto(c, st, x, source, t, data).st, s)
  {
    hide MakeRoom;
    hide Path;
    hide State.IsFull;
    var room := MakeRoom(c, st, t, |data|);
    var ms := MakeRoomPath(c, st, t, |data|);
    PathLeaves(c, st, ms, room.st, Rank(t), s);
    if room.ok {
      RelocateLeaves(st, room.st, x, source, t, data, s);
    }
  }

  /** The promoted session is recorded in the target afterwards, or nowhere; the others are as room making left them. */
  lemma RelocateLeaves(st: State, roomy: State, x: Sid, source: Tier, t: Tier, data: Blob, s: Sid)
    requires st.Has(x, source) && source != t && Leaves(st, roomy, s)
    ensures Leaves(st, roomy.Relocate(x, source, t, data), s)
  {
    hide State.Relocate;
    hide SameCopies;
    if s == x {
      RelocateRecords(roomy, x, source, t, data);
    } else {
      RelocateSpares(roomy, x, source, t, data, s);
      LeavesThen(st, roomy, roomy.Relocate(x, source, t, data), s);
    }
  }

  lemma LoadLeaves(c: System, st: State, x: Sid, s: Sid)
    ensures Leaves(st, Load(c, st, x).st, s)
  {
    hide Promote;
    if x in st.index && st.Holds(x, st.index[x].tier) {
      PromoteLeaves(c, Touch(st, x), x, Hot, s);
    }
  }

  /** Whatever the operation, only saving a session, or moving it in the index, touches any of its copies. */
  lemma StepLeavesCopies(c: System, st: State, op: Op, s: Sid)
    requires op.DoSave? ==> op.sid != s
    ensures Leaves(st, Step(c, st, op).st, s)
  {
    hide Save;
    hide Load;
    hide Promote;
    hide Demote;
    hide Evict;
    hide DemoteAll;
    hide Path;
    match op
    case DoSave(x, user, data, tokens) => SaveLeaves(c, st, x, user, data, tokens, s);
    case DoLoad(x) => LoadLeaves(c, st, x, s);
    case DoPromote(x, t) => PromoteLeaves(c, st, x, t, s);
    case DoDemote(x) =>
      hide Leaves;
      var ms := DemotePath(c, st, x);
      PathLeaves(c, st, ms, Demote(c, st, x).st, if x in st.index then Rank(st.index[x].tier) else 2, s);
    case DoEvict(t) =>
      hide Leaves;
      var ms := EvictPath(c, st, t);
      PathLeaves(c, st, ms, Evict(c, st, t).st, Rank(t), s);
    case DoDelete(x) =>
      if x in st.index {
        ForgetDeepens(st, x, st.index[x].tier, s);
        DeepensLeaves(st, Delete(st, x).st, s);
      }
    case DoMaintain =>
      hide Leaves;
      var ids := ExpiredIn(c, st, st.order);
      var ms := DemoteAllPath(c, st, ids);
      PathLeaves(c, st, ms, DemoteAll(c, st, ids), 0, s);
    case Tick(at) =>
  }

  // ---- Runs ----

  predicate NeverSaves(ops: seq<Op>, s: Sid) {
    forall op :: op in ops && op.DoSave? ==> op.sid != s
  }

  lemma RunExtends(c: System, ops: seq<Op>, more: seq<Op>)
    requires more != []
    ensures var before := Run(c, ops + more[..|more| - 1]);
      Run(c, ops + more) == if before.ok then Step(c, before.st, more[|more| - 1]) else Outcome(false, before.st)
  {
    hide Step;
    var all := ops + more;
    assert all[..|all| - 1] == ops + more[..|more| - 1];
  }

  /** An orphan stays byte for byte, through any run, until its session is saved again. */
  lemma {:induction false} OrphanStays(c: System, ops: seq<Op>, more: seq<Op>, s: Sid)
    requires Recorded(Run(c, ops).st, s) == None && NeverSaves(more, s)
    ensures Recorded(Run(c, ops + more).st, s) == None
    ensures SameCopies(Run(c, ops).st, Run(c, ops + more).st, s)
    decreases |more|
  {
    hide Run;
    hide Step;
    if more == [] {
      assert ops + more == ops;
    } else {
      var init, op := more[..|more| - 1], more[|more| - 1];
      OrphanStays(c, ops, init, s);
      RunExtends(c, ops, more);
      assert op in more;
      StepLeavesCopies(c, Run(c, ops + init).st, op, s);
    }
  }

  /** So does a superseded copy while its session is not saved and stays where it is recorded. */
  lemma {:induction false} SupersededStays(c: System, ops: seq<Op>, more: seq<Op>, s: Sid)
    requires NeverSaves(more, s)
    requires forall i :: 0 <= i <= |more| ==> Recorded(Run(c, ops + more[..i]).st, s) == Recorded(Run(c, ops).st, s)
    ensures SameCopies(Run(c, ops).st, Run(c, ops + more).st, s)
    decreases |more|
  {
    hide Run;
    hide Step;
    hide Recorded;
    if more == [] {
      assert ops + more == ops;
    } else {
      var n := |more| - 1;
      var init, op := more[..n], more[n];
      assert forall i :: 0 <= i <= n ==> init[..i] == more[..i];
      SupersededStays(c, ops, init, s);
      RunExtends(c, ops, more);
      assert op in more && more[..|more|] == more;
      StepLeavesCopies(c, Run(c, ops + init).st, op, s);
    }
  }
}
