/** Whom a maintenance pass demotes, and where that leaves everybody. */
module Maintenance {
  import opened Types
  import opened Storage
  import opened Policies
  import opened Cascade
  import opened Operations
  import opened Coherence
  import opened Descent
  import opened Orphans
  import opened Evictions

  // ---- The list ----

  /** Does the policy ask for the session's entry to be demoted? */
  predicate Due(c: System, st: State, s: Sid) {
    s in st.index && Expired(c.policy, st.calls, st.now, Candidate(s, st.index[s]))
  }

  /** One is listed somewhere before the other. */
  ghost predicate Before(order: seq<Sid>, a: Sid, b: Sid) {
    exists i, j :: 0 <= i < j < |order| && order[i] == a && order[j] == b
  }

  /** A selection from the order, in that order. */
  ghost predicate Ordered(order: seq<Sid>, ids: seq<Sid>) {
    forall i, j :: 0 <= i < j < |ids| ==> Before(order, ids[i], ids[j])
  }

  lemma BeforeLater(order: seq<Sid>, a: Sid, b: Sid)
    requires order != [] && Before(order[1..], a, b)
    ensures Before(order, a, b)
  {
    var i, j :| 0 <= i < j < |order[1..]| && order[1..][i] == a && order[1..][j] == b;
    assert order[i + 1] == a && order[j + 1] == b;
  }

  lemma FirstIsBefore(order: seq<Sid>, b: Sid)
    requires order != [] && b in order[1..]
    ensures Before(order, order[0], b)
  {
    var k :| 0 <= k < |order[1..]| && order[1..][k] == b;
    assert order[0] == order[0] && order[k + 1] == b;
  }

  lemma OrderedLater(order: seq<Sid>, ids: seq<Sid>)
    requires order != [] && Ordered(order[1..], ids) && forall s :: s in ids ==> s in order[1..]
    ensures Ordered(order, ids) && Ordered(order, [order[0]] + ids)
  {
    hide Before;
    forall i, j | 0 <= i < j < |ids|
      ensures Before(order, ids[i], ids[j])
    {
      BeforeLater(order, ids[i], ids[j]);
    }
    forall j | 0 <= j < |ids|
      ensures Before(order, order[0], ids[j])
    {
      FirstIsBefore(order, ids[j]);
    }
    assert forall j :: 1 <= j < |ids| + 1 ==> ([order[0]] + ids)[j] == ids[j - 1];
  }

  /** Exactly the sessions the policy asks for, each once, as the index orders them. */
  lemma {:induction false} ExpiredAreDue(c: System, st: State, order: seq<Sid>)
    requires NoDup(order)
    ensures var ids := ExpiredIn(c, st, order);
      NoDup(ids) && Ordered(order, ids) && forall s :: s in ids <==> s in order && Due(c, st, s)
    decreases |order|
  {
    hide Expired;
    hide Before;
    hide Ordered;
    if order == [] {
      NothingOrdered(order);
    } else {
      var rest := ExpiredIn(c, st, order[1..]);
      ExpiredAreDue(c, st, order[1..]);
      OrderedLater(order, rest);
      assert ExpiredIn(c, st, order) == if Due(c, st, order[0]) then [order[0]] + rest else rest;
    }
  }

  lemma NothingOrdered(order: seq<Sid>)
    ensures Ordered(order, [])
  {
  }

  /** A policy is offered its candidates in the same order, each once. */
  lemma {:induction false} OfferedInOrder(order: seq<Sid>, index: map<Sid, Entry>, t: Tier)
    requires NoDup(order)
    ensures var ids := Sids(Candidates(order, index, t));
      NoDup(ids) && Ordered(order, ids)
      && forall s :: s in ids <==> s in order && s in index && index[s].tier == t
    decreases |order|
  {
    hide Before;
    hide Ordered;
    hide Sids;
    hide Candidates;
    OfferedUnfolds(order, index, t);
    if order == [] {
      NothingOrdered(order);
    } else {
      OfferedInOrder(order[1..], index, t);
      OrderedLater(order, Sids(Candidates(order[1..], index, t)));
    }
  }

  lemma OfferedUnfolds(order: seq<Sid>, index: map<Sid, Entry>, t: Tier)
    ensures Sids(Candidates(order, index, t))
         == if order == [] then []
            else
              var rest := Sids(Candidates(order[1..], index, t));
              if order[0] in index && index[order[0]].tier == t then [order[0]] + rest else rest
  {
  }

  // ---- The pass ----

  /** With nobody due a pass changes nothing, not even what the policy has been told. */
  lemma NobodyDue(c: System, st: State)
    requires forall s :: s in st.order ==> !Due(c, st, s)
    ensures Maintain(c, st) == st
  {
    hide Expired;
    NoneExpired(c, st, st.order);
  }

  lemma {:induction false} NoneExpired(c: System, st: State, order: seq<Sid>)
    requires forall s :: s in order ==> !Due(c, st, s)
    ensures ExpiredIn(c, st, order) == []
  {
    hide Expired;
    if order != [] {
      assert order[0] in order;
      NoneExpired(c, st, order[1..]);
    }
  }

  /** Only value density with a threshold, and policies not written out here, ever ask for a demotion. */
  lemma NeverDue(c: System, st: State)
    requires !c.policy.Custom? && (c.policy.ValueDensity? ==> c.policy.threshold <= 0.0)
    ensures Maintain(c, st) == st
  {
    forall s | s in st.order
      ensures !Due(c, st, s)
    {
    }
    NobodyDue(c, st);
  }

  /** Bytes of the listed sessions that are indexed in the tier. */
  function BytesDue(st: State, ids: seq<Sid>, t: Tier): nat {
    if ids == [] then 0
    else BytesDue(st, ids[1..], t) + if st.Has(ids[0], t) && ids[0] in st.In(t) then |st.In(t)[ids[0]]| else 0
  }

  /** Each of the two lower tiers has room for the listed sessions of the tier above it. */
  ghost predicate RoomBelow(c: System, st: State, ids: seq<Sid>) {
    && (c.warmCapacity <= 0 || Bytes(st.warm) + BytesDue(st, ids, Hot) <= c.warmCapacity)
    && (c.coldCapacity <= 0 || Bytes(st.cold) + BytesDue(st, ids, Warm) <= c.coldCapacity)
  }

  function OneLower(t: Tier): Tier {
    if t == Cold then Cold else Below(t)
  }

  /** One demotion with room below: nothing but its session has moved. */
  ghost predicate MovedOnly(st: State, end: State, s: Sid)
    requires s in st.index
  {
    && end.index == st.index[s := st.index[s].(tier := OneLower(st.index[s].tier))]
    && end.order == st.order && end.calls == st.calls && end.now == st.now
    && forall x :: x != s ==> SameCopies(st, end, x)
  }

  lemma SinkMovesOnly(st: State, s: Sid, data: Blob)
    requires s in st.index && st.index[s].tier != Cold
    ensures var t := st.index[s].tier;
      MovedOnly(st, st.Relocate(s, t, Below(t), data), s)
  {
    var t := st.index[s].tier;
    hide SameCopies;
    forall x | x != s
      ensures SameCopies(st, st.Relocate(s, t, Below(t), data), x)
    {
      RelocateSpares(st, s, t, Below(t), data, x);
    }
  }

  lemma {:induction false} BytesDueSame(st: State, end: State, ids: seq<Sid>, t: Tier)
    requires forall x :: x in ids ==> Recorded(end, x) == Recorded(st, x) && SameCopies(st, end, x)
    ensures BytesDue(end, ids, t) == BytesDue(st, ids, t)
  {
    if ids != [] {
      assert ids[0] in ids && SameCopy(st.In(t), end.In(t), ids[0]);
      assert Recorded(end, ids[0]) == Recorded(st, ids[0]);
      BytesDueSame(st, end, ids[1..], t);
    }
  }

  lemma SinkBytes(st: State, s: Sid, data: Blob)
    requires s in st.index && st.index[s].tier != Cold && s in st.In(st.index[s].tier)
    requires data == st.In(st.index[s].tier)[s]
    ensures var t := st.index[s].tier;
      var end := st.Relocate(s, t, Below(t), data);
      && Bytes(end.In(t)) == Bytes(st.In(t)) - |data|
      && Bytes(end.In(Below(t))) <= Bytes(st.In(Below(t))) + |data|
      && forall u: Tier :: u != t && u != Below(t) ==> end.In(u) == st.In(u)
  {
    var t := st.index[s].tier;
    BytesDrop(st.In(t), s);
    BytesPut(st.In(Below(t)), s, data);
    hide Bytes;
    var end := st.Relocate(s, t, Below(t), data);
    assert end.In(t) == st.In(t) - {s} && end.In(Below(t)) == st.In(Below(t))[s := data];
  }

  /** The first of the list is lowered, and there is room for the others still. */
  lemma DemoteFirst(c: System, st: State, last: Store, ids: seq<Sid>)
    requires Sound(c, st, last) && NothingEmpty(last) && NoDup(ids) && RoomBelow(c, st, ids)
    requires ids != [] && forall s :: s in ids ==> s in st.index
    ensures ids[0] in st.index
    ensures var next := Demote(c, st, ids[0]).st;
      && Sound(c, next, last) && MovedOnly(st, next, ids[0]) && RoomBelow(c, next, ids[1..])
      && (st.index[ids[0]].tier != Cold ==> ids[0] !in next.In(st.index[ids[0]].tier))
  {
    hide Demote;
    hide Bytes;
    hide Sound;
    hide MovedOnly;
    hide Path;
    hide SameCopies;
    var s, next := ids[0], Demote(c, st, ids[0]).st;
    assert s in ids;
    var t := st.index[s].tier;
    var ms := DemotePath(c, st, s);
    PathKeeps(c, st, ms, next, Rank(t), last);
    SoundHolds(c, st, last, s);
    if t == Cold {
      DemoteLowers(c, st, s);
      NothingMoved(st, s);
    } else {
      var data := st.In(t)[s];
      RoomToSink(c, st, ids);
      DemoteWithRoom(c, st, s);
      SinkMovesOnly(st, s, data);
      SinkBytes(st, s, data);
      RestIsSame(st, next, ids);
      SinkLeaves(st, s, data);
    }
  }

  lemma SinkLeaves(st: State, s: Sid, data: Blob)
    requires s in st.index && st.index[s].tier != Cold
    ensures s !in st.Relocate(s, st.index[s].tier, Below(st.index[s].tier), data).In(st.index[s].tier)
  {
  }

  lemma SoundHolds(c: System, st: State, last: Store, s: Sid)
    requires Sound(c, st, last) && NothingEmpty(last) && s in st.index
    ensures st.Holds(s, st.index[s].tier) && s in last && st.In(st.index[s].tier)[s] == last[s]
    ensures Movable(st, s) <==> st.index[s].tier != Cold
  {
    assert Newest(st, last, s);
  }

  lemma NothingMoved(st: State, s: Sid)
    requires st.Has(s, Cold)
    ensures MovedOnly(st, st, s)
  {
    assert st.index[s := st.index[s]] == st.index;
  }

  lemma RoomToSink(c: System, st: State, ids: seq<Sid>)
    requires RoomBelow(c, st, ids) && ids != [] && Movable(st, ids[0])
    ensures var t := st.index[ids[0]].tier;
      !st.IsFull(c, Below(t), |st.In(t)[ids[0]]|)
  {
    hide Bytes;
  }

  lemma RestIsSame(st: State, next: State, ids: seq<Sid>)
    requires ids != [] && NoDup(ids) && ids[0] in st.index && MovedOnly(st, next, ids[0])
    ensures forall t: Tier :: BytesDue(next, ids[1..], t) == BytesDue(st, ids[1..], t)
  {
    hide SameCopies;
    forall t: Tier
      ensures BytesDue(next, ids[1..], t) == BytesDue(st, ids[1..], t)
    {
      BytesDueSame(st, next, ids[1..], t);
    }
  }

  /** Where the demotion of a list leaves one session. */
  ghost predicate Settled(st: State, end: State, ids: seq<Sid>, s: Sid)
    requires s in st.index
  {
    && s in end.index
    && end.index[s] == (if s in ids then st.index[s].(tier := OneLower(st.index[s].tier)) else st.index[s])
    && (s in ids && st.index[s].tier != Cold ==> s !in end.In(st.index[s].tier))
    && (s !in ids ==> SameCopies(st, end, s))
  }

  lemma {:induction false} DemoteAllSettles(c: System, st: State, last: Store, ids: seq<Sid>, s: Sid)
    requires Sound(c, st, last) && NothingEmpty(last) && NoDup(ids) && RoomBelow(c, st, ids)
    requires (forall x :: x in ids ==> x in st.index) && s in st.index
    ensures var end := DemoteAll(c, st, ids);
      && Sound(c, end, last) && end.index.Keys == st.index.Keys
      && end.order == st.order && end.calls == st.calls && Settled(st, end, ids, s)
    decreases |ids|
  {
    hide Demote;
    hide Sound;
    hide RoomBelow;
    hide SameCopies;
    hide SameCopy;
    if ids == [] {
      SameAsItself(st, s);
    } else {
      var next := Demote(c, st, ids[0]).st;
      DemoteFirst(c, st, last, ids);
      DemoteAllSettles(c, next, last, ids[1..], s);
      SettledLater(st, next, DemoteAll(c, next, ids[1..]), ids, s);
    }
  }

  lemma SameAsItself(st: State, s: Sid)
    ensures SameCopies(st, st, s)
  {
  }

  lemma SettledLater(st: State, next: State, end: State, ids: seq<Sid>, s: Sid)
    requires ids != [] && NoDup(ids) && ids[0] in st.index && s in st.index && MovedOnly(st, next, ids[0])
    requires st.index[ids[0]].tier != Cold ==> ids[0] !in next.In(st.index[ids[0]].tier)
    requires Settled(next, end, ids[1..], s)
    ensures Settled(st, end, ids, s)
  {
    if s == ids[0] {
      assert s !in ids[1..];
      var t := st.index[s].tier;
      assert SameCopy(next.In(t), end.In(t), s);
    } else {
      assert s in ids <==> s in ids[1..];
      assert SameCopies(st, next, s);
    }
  }

  /** A pass that finds room below lowers every session due by one tier, bytes and all, and touches nobody else. */
  lemma MaintainLowersDue(c: System, st: State, last: Store, s: Sid)
    requires Sound(c, st, last) && NothingEmpty(last) && s in st.index
    requires RoomBelow(c, st, ExpiredIn(c, st, st.order))
    ensures var end, entry := Maintain(c, st), st.index[s];
      var t := if Due(c, st, s) then OneLower(entry.tier) else entry.tier;
      && s in end.index && end.index[s] == entry.(tier := t)
      && s in last && s in end.In(t) && end.In(t)[s] == last[s]
      && (t != entry.tier ==> s !in end.In(entry.tier))
      && (!Due(c, st, s) ==> SameCopies(st, end, s))
      && end.index.Keys == st.index.Keys && end.order == st.order && end.calls == st.calls
  {
    hide Due;
    hide RoomBelow;
    hide SameCopies;
    hide DemoteAll;
    hide ExpiredIn;
    hide Sound;
    var ids, end := ExpiredIn(c, st, st.order), Maintain(c, st);
    SoundLists(c, st, last);
    ExpiredAreDue(c, st, st.order);
    DemoteAllSettles(c, st, last, ids, s);
    SoundHolds(c, end, last, s);
  }

  lemma SoundLists(c: System, st: State, last: Store)
    requires Sound(c, st, last)
    ensures NoDup(st.order) && forall s :: s in st.order <==> s in st.index
  {
  }
}
