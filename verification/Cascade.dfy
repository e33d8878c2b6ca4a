/** What each manager operation does to the tiers, the index and the policy's message history. */
module Cascade {
  import opened Types
  import opened Storage
  import opened Policies

  datatype Config = Config(policy: Policy, hotCapacity: int, warmCapacity: int, coldCapacity: int, blockSize: nat) {
    function Capacity(t: Tier): int {
      match t
      case Hot => hotCapacity
      case Warm => warmCapacity
      case Cold => coldCapacity
    }
  }

  type System = c: Config | c.blockSize >= 1
    witness Config(Lru, 0, 0, 0, 1)

  /** The index keeps its sessions in insertion order; the policy is the messages it has received. */
  datatype State = State(
    hot: Store, warm: Store, cold: Store, order: seq<Sid>, index: map<Sid, Entry>, calls: seq<Call>, now: real) {
    function In(t: Tier): Store {
      match t
      case Hot => hot
      case Warm => warm
      case Cold => cold
    }

    function With(t: Tier, s: Store): State {
      match t
      case Hot => this.(hot := s)
      case Warm => this.(warm := s)
      case Cold => this.(cold := s)
    }

    predicate Has(s: Sid, t: Tier) {
      s in index && index[s].tier == t
    }

    /** The truth value of a tier lookup: present and not empty. */
    predicate Holds(s: Sid, t: Tier) {
      s in In(t) && In(t)[s] != []
    }

    function Put(t: Tier, s: Sid, data: Blob): State {
      With(t, In(t)[s := data])
    }

    function Drop(t: Tier, s: Sid): State {
      With(t, In(t) - {s})
    }

    function Tell(call: Call): State {
      this.(calls := calls + [call])
    }

    function Unindex(s: Sid): State {
      this.(order := Without(order, s), index := index - {s})
    }

    /** An entry that has left the index may still be written to; nobody can see it. */
    function Retier(s: Sid, t: Tier): State {
      if s in index then this.(index := index[s := index[s].(tier := t)]) else this
    }

    /** Write the copy, delete the one at the source, point the index at the new place. */
    function Relocate(s: Sid, source: Tier, target: Tier, data: Blob): State {
      Put(target, s, data).Drop(source, s).Retier(s, target)
    }

    /** Gone for good: out of the index, and the policy told so. */
    function Forget(s: Sid): State {
      Unindex(s).Tell(Removed(s))
    }

    ghost predicate IsFull(c: System, t: Tier, n: nat) {
      Full(In(t), c.Capacity(t), n)
    }

    /** Sessions indexed in a tier. */
    function InTier(t: Tier): set<Sid> {
      set s | s in index && index[s].tier == t
    }
  }

  /** What an operation reports, and the state it leaves. */
  datatype Outcome = Outcome(ok: bool, st: State)

  function Candidates(order: seq<Sid>, index: map<Sid, Entry>, t: Tier): (r: seq<Candidate>)
    ensures forall i :: 0 <= i < |r| ==>
      r[i].sid in order && r[i].sid in index && r[i].entry == index[r[i].sid] && r[i].entry.tier == t
    ensures forall s :: s in order && s in index && index[s].tier == t ==> exists c :: c in r && c.sid == s
  {
    if order == [] then []
    else
      var rest := Candidates(order[1..], index, t);
      if order[0] in index && index[order[0]].tier == t then
        var r := [Candidate(order[0], index[order[0]])] + rest;
        assert r[0] in r && forall c :: c in rest ==> c in r;
        r
      else rest
  }

  // ---- Eviction cascades ----

  const MAX_ATTEMPTS: nat := 50

  /** Permanent removal from the index and from the tier it names. */
  function Delete(st: State, s: Sid): Outcome {
    if s !in st.index then Outcome(false, st)
    else Outcome(true, st.Drop(st.index[s].tier, s).Forget(s))
  }

  /** The policy's choice among a tier's sessions, if it makes one; an empty id reads as none. */
  ghost function Victim(c: System, st: State, t: Tier): (r: Option<Sid>)
    ensures r.Some? ==> r.value in Rivals(st, t) && st.Has(r.value, t)
  {
    var cands := Candidates(st.order, st.index, t);
    if cands == [] then None
    else
      var choice := Select(c.policy, st.calls, st.now, cands);
      if choice == Some("") then None else choice
  }

  function Rivals(st: State, t: Tier): seq<Sid> {
    Sids(Candidates(st.order, st.index, t))
  }

  ghost function Evict(c: System, st: State, t: Tier): Outcome
    decreases 2 - Rank(t), 0, 2
  {
    match Victim(c, st, t)
    case None => Outcome(false, st)
    case Some(v) =>
      var told := st.Tell(Chosen(t, v, Rivals(st, t)));
      if t == Cold then Outcome(true, Delete(told, v).st) else Demote(c, told, v)
  }

  ghost function EnsureSpace(c: System, st: State, t: Tier, n: nat, attempts: nat): State
    decreases 2 - Rank(t), attempts, 3
  {
    if st.IsFull(c, t, n) && attempts > 0 then
      var Outcome(evicted, next) := Evict(c, st, t);
      if evicted then EnsureSpace(c, next, t, n, attempts - 1) else next
    else st
  }

  ghost function Demote(c: System, st: State, s: Sid): Outcome
    decreases 2 - (if s in st.index then Rank(st.index[s].tier) else 2), 0, 1
  {
    if !Movable(st, s) then Outcome(false, st)
    else
      var source := st.index[s].tier;
      var data := st.In(source)[s];
      Settle(c, EnsureSpace(c, st, Below(source), |data|, MAX_ATTEMPTS), s, source, data)
  }

  predicate Movable(st: State, s: Sid) {
    s in st.index && st.index[s].tier != Cold && st.Holds(s, st.index[s].tier)
  }

  /** Room was made one tier below, or not: move the session, or lose it off the cold end, or leave it. */
  ghost function Settle(c: System, roomy: State, s: Sid, source: Tier, data: Blob): Outcome
    requires source != Cold
  {
    if !roomy.IsFull(c, Below(source), |data|) then Outcome(true, roomy.Relocate(s, source, Below(source), data))
    else if source == Warm then Outcome(true, roomy.Drop(source, s).Forget(s))
    else Outcome(false, roomy)
  }

  lemma EvictUnfolds(c: System, st: State, t: Tier)
    ensures Evict(c, st, t)
         == var victim := Victim(c, st, t);
            if victim == None then Outcome(false, st)
            else
              var told := st.Tell(Chosen(t, victim.value, Rivals(st, t)));
              if t == Cold then Outcome(true, Delete(told, victim.value).st) else Demote(c, told, victim.value)
  {
  }

  lemma EnsureSpaceUnfolds(c: System, st: State, t: Tier, n: nat, attempts: nat)
    ensures EnsureSpace(c, st, t, n, attempts)
         == if st.IsFull(c, t, n) && attempts > 0 then
              var Outcome(evicted, next) := Evict(c, st, t);
              if evicted then EnsureSpace(c, next, t, n, attempts - 1) else next
            else st
  {
  }

  lemma DemoteUnfolds(c: System, st: State, s: Sid)
    ensures Demote(c, st, s)
         == if Movable(st, s) then
              var source, data := st.index[s].tier, st.In(st.index[s].tier)[s];
              Settle(c, EnsureSpace(c, st, Below(source), |data|, MAX_ATTEMPTS), s, source, data)
            else Outcome(false, st)
  {
  }

  // ---- Cascades as sequences of single moves ----

  /** The only things a cascade ever does, one at a time. */
  datatype Move =
    | Pick(tier: Tier, victim: Sid, rivals: seq<Sid>) // ask the policy
    | Sink(sid: Sid)    // one tier down, bytes and all
    | Discard(sid: Sid) // a warm session that found cold still full
    | Erase(sid: Sid)   // a cold victim

  function Apply(st: State, m: Move): State {
    match m
    case Pick(t, v, rivals) => st.Tell(Chosen(t, v, rivals))
    case Sink(s) =>
      if s in st.index && st.index[s].tier != Cold && s in st.In(st.index[s].tier) then
        var source := st.index[s].tier;
        st.Relocate(s, source, Below(source), st.In(source)[s])
      else st
    case Discard(s) => st.Drop(Warm, s).Forget(s)
    case Erase(s) => Delete(st, s).st
  }

  /** The guard under which a cascade that may touch tiers of rank r and colder makes the move. */
  ghost predicate Enabled(c: System, st: State, m: Move, r: nat) {
    match m
    case Pick(t, v, rivals) =>
      Rank(t) >= r && Victim(c, st, t) == Some(v) && rivals == Rivals(st, t)
    case Sink(s) =>
      && s in st.index && st.index[s].tier != Cold && Rank(st.index[s].tier) >= r
      && st.Holds(s, st.index[s].tier)
      && !st.IsFull(c, Below(st.index[s].tier), |st.In(st.index[s].tier)[s]|)
    case Discard(s) =>
      && st.Has(s, Warm) && Rank(Warm) >= r
      && st.Holds(s, Warm)
      && st.IsFull(c, Cold, |st.warm[s]|)
    case Erase(s) => st.Has(s, Cold) && Rank(Cold) >= r
  }

  ghost predicate Path(c: System, st: State, ms: seq<Move>, end: State, r: nat)
    decreases |ms|
  {
    if ms == [] then st == end
    else Enabled(c, st, ms[0], r) && Path(c, Apply(st, ms[0]), ms[1..], end, r)
  }

  predicate Lossless(ms: seq<Move>) {
    forall m :: m in ms ==> m.Pick? || m.Sink?
  }

  lemma EnabledLower(c: System, st: State, m: Move, r: nat, q: nat)
    requires Enabled(c, st, m, r) && r >= q
    ensures Enabled(c, st, m, q)
  {
  }

  lemma {:induction false} PathThen(c: System, a: State, ms: seq<Move>, b: State, ns: seq<Move>, d: State, r: nat,
          q: nat)
    requires Path(c, a, ms, b, r) && Path(c, b, ns, d, q) && r >= q
    ensures Path(c, a, ms + ns, d, q)
    decreases |ms|
  {
    hide Apply;
    hide Enabled;
    if ms == [] {
      assert ms + ns == ns;
    } else {
      EnabledLower(c, a, ms[0], r, q);
      PathThen(c, Apply(a, ms[0]), ms[1..], b, ns, d, r, q);
      assert (ms + ns)[1..] == ms[1..] + ns;
    }
  }

  lemma MoveSparesHotter(c: System, st: State, m: Move, r: nat, t: Tier)
    requires Enabled(c, st, m, r) && Rank(t) < r
    ensures Apply(st, m).In(t) == st.In(t) && Apply(st, m).InTier(t) == st.InTier(t)
    ensures forall s :: st.Has(s, t) ==> Apply(st, m).Has(s, t) && Apply(st, m).index[s] == st.index[s]
  {
    assert forall s :: Apply(st, m).Has(s, t) <==> st.Has(s, t);
  }

  /** A cascade from tier rank r down leaves every hotter tier alone: stored bytes and indexed entries. */
  lemma {:induction false} PathSparesHotter(c: System, st: State, ms: seq<Move>, end: State, r: nat, t: Tier)
    requires Path(c, st, ms, end, r) && Rank(t) < r
    ensures end.In(t) == st.In(t) && end.InTier(t) == st.InTier(t)
    ensures forall s :: st.Has(s, t) ==> end.Has(s, t) && end.index[s] == st.index[s]
    decreases |ms|
  {
    if ms != [] {
      MoveSparesHotter(c, st, ms[0], r, t);
      hide Apply;
      hide Enabled;
      PathSparesHotter(c, Apply(st, ms[0]), ms[1..], end, r, t);
    }
  }

  lemma EvictPath(c: System, st: State, t: Tier) returns (ms: seq<Move>)
    ensures var Outcome(ok, end) := Evict(c, st, t);
      && Path(c, st, ms, end, Rank(t))
      && (c.coldCapacity <= 0 && t != Cold ==> Lossless(ms))
      && (ok ==> exists v :: v in st.InTier(t) && end.InTier(t) == st.InTier(t) - {v})
      && (!ok ==> end.InTier(t) == st.InTier(t))
    decreases 2 - Rank(t), 0, 1
  {
    ms := [];
    EvictUnfolds(c, st, t);
    hide Evict;
    hide Demote;
    hide Victim;
    hide Rivals;
    var victim := Victim(c, st, t);
    if victim.Some? {
      var pick := Pick(t, victim.value, Rivals(st, t));
      if t == Cold {
        ms := [pick, Erase(victim.value)];
        ErasePath(c, st, pick, victim.value);
      } else {
        ms := DemotePath(c, Apply(st, pick), victim.value);
        ms := [pick] + ms;
      }
    }
  }

  lemma ErasePath(c: System, st: State, pick: Move, v: Sid)
    requires Enabled(c, st, pick, 2) && pick.Pick? && st.Has(v, Cold)
    ensures var end := Delete(Apply(st, pick), v).st;
      && Path(c, st, [pick, Erase(v)], end, 2)
      && end.InTier(Cold) == st.InTier(Cold) - {v}
  {
    hide Victim;
    hide Rivals;
    var told := Apply(st, pick);
    var end := Delete(told, v).st;
    assert Enabled(c, told, Erase(v), 2) && Apply(told, Erase(v)) == end;
    assert [pick, Erase(v)][1..] == [Erase(v)] && [Erase(v)][1..] == [];
    assert Path(c, end, [], end, 2);
  }

  lemma EnsurePath(c: System, st: State, t: Tier, n: nat, attempts: nat) returns (ms: seq<Move>)
    ensures Path(c, st, ms, EnsureSpace(c, st, t, n, attempts), Rank(t))
    ensures c.coldCapacity <= 0 ==> Lossless(ms)
    decreases 2 - Rank(t), attempts, 2
  {
    ms := [];
    if st.IsFull(c, t, n) && attempts > 0 {
      var Outcome(evicted, next) := Evict(c, st, t);
      ms := EvictPath(c, st, t);
      if evicted {
        var ns := EnsurePath(c, next, t, n, attempts - 1);
        PathThen(c, st, ms, next, ns, EnsureSpace(c, next, t, n, attempts - 1), Rank(t), Rank(t));
        ms := ms + ns;
      }
    }
  }

  lemma DemotePath(c: System, st: State, s: Sid) returns (ms: seq<Move>)
    ensures var Outcome(ok, end) := Demote(c, st, s);
      && Path(c, st, ms, end, if s in st.index then Rank(st.index[s].tier) else 2)
      && (c.coldCapacity <= 0 ==> Lossless(ms))
      && (s in st.index ==>
            var source := st.index[s].tier;
            end.InTier(source) == if ok then st.InTier(source) - {s} else st.InTier(source))
    decreases 2 - (if s in st.index then Rank(st.index[s].tier) else 2), 0, 0
  {
    ms := [];
    DemoteUnfolds(c, st, s);
    hide Demote;
    hide EnsureSpace;
    hide Settle;
    hide Apply;
    hide Enabled;
    if Movable(st, s) {
      var source := st.index[s].tier;
      var data := st.In(source)[s];
      var roomy := EnsureSpace(c, st, Below(source), |data|, MAX_ATTEMPTS);
      ms := EnsurePath(c, st, Below(source), |data|, MAX_ATTEMPTS);
      PathSparesHotter(c, st, ms, roomy, Rank(Below(source)), source);
      assert st.Has(s, source);
      var last := SettlePath(c, roomy, s, source, data);
      PathThen(c, st, ms, roomy, last, Settle(c, roomy, s, source, data).st, Rank(Below(source)), Rank(source));
      ms := ms + last;
    }
  }

  /** One move, or none when a hot session finds the warm tier still full. */
  lemma SettlePath(c: System, roomy: State, s: Sid, source: Tier, data: Blob) returns (ms: seq<Move>)
    requires source != Cold && roomy.Has(s, source) && roomy.Holds(s, source) && data == roomy.In(source)[s]
    ensures var Outcome(ok, end) := Settle(c, roomy, s, source, data);
      && Path(c, roomy, ms, end, Rank(source))
      && (c.coldCapacity <= 0 ==> Lossless(ms))
      && end.InTier(source) == if ok then roomy.InTier(source) - {s} else roomy.InTier(source)
  {
    var end := Settle(c, roomy, s, source, data).st;
    ms := [];
    if !roomy.IsFull(c, Below(source), |data|) {
      ms := [Sink(s)];
      assert end == Apply(roomy, Sink(s));
      assert end.InTier(source) == roomy.InTier(source) - {s};
    } else if source == Warm {
      ms := [Discard(s)];
      assert end == Apply(roomy, Discard(s));
      assert end.InTier(source) == roomy.InTier(source) - {s};
    }
    if ms != [] {
      assert Path(c, end, ms[1..], end, Rank(source));
    }
  }
}
