/** What an index entry says of its session: sizes and times of the last use, and uses since it was new. */
module Entries {
  import opened Types
  import opened Cascade
  import opened Operations
  import opened Descent

  /** If the session is still indexed, nothing about its entry has changed but the tier. */
  predicate OnlyMoved(st: State, end: State, s: Sid) {
    s in end.index ==> s in st.index && end.index[s] == st.index[s].(tier := end.index[s].tier)
  }

  // ---- Cascades ----

  lemma PathOnlyMoves(c: System, st: State, ms: seq<Move>, end: State, r: nat, s: Sid)
    requires Path(c, st, ms, end, r)
    ensures OnlyMoved(st, end, s)
  {
    hide Path;
    PathDescends(c, st, ms, end, r, s);
  }

  lemma {:induction false} PathKeepsTime(c: System, st: State, ms: seq<Move>, end: State, r: nat)
    requires Path(c, st, ms, end, r)
    ensures end.now == st.now
    decreases |ms|
  {
    if ms != [] {
      assert Apply(st, ms[0]).now == st.now;
      hide Apply;
      hide Enabled;
      PathKeepsTime(c, Apply(st, ms[0]), ms[1..], end, r);
    }
  }

  lemma MaintainOnlyMoves(c: System, st: State, s: Sid)
    ensures OnlyMoved(st, Maintain(c, st), s) && Maintain(c, st).now == st.now
  {
    hide DemoteAll;
    hide Path;
    hide OnlyMoved;
    var ids := ExpiredIn(c, st, st.order);
    var ms := DemoteAllPath(c, st, ids);
    PathOnlyMoves(c, st, ms, DemoteAll(c, st, ids), 0, s);
    PathKeepsTime(c, st, ms, DemoteAll(c, st, ids), 0);
  }

  lemma PromoteOnlyMoves(c: System, st: State, x: Sid, t: Tier, s: Sid)
    ensures OnlyMoved(st, Promote(c, st, x, t).st, s) && Promote(c, st, x, t).st.now == st.now
  {
    hide MakeRoom;
    hide Path;
    hide State.Relocate;
    if x in st.index && st.index[x].tier != t && st.Holds(x, st.index[x].tier) {
      var data := st.In(st.index[x].tier)[x];
      var room := MakeRoom(c, st, t, |data|);
      var ms := MakeRoomPath(c, st, t, |data|);
      PathOnlyMoves(c, st, ms, room.st, Rank(t), s);
      PathKeepsTime(c, st, ms, room.st, Rank(t));
      RelocateOnlyMoves(st, room.st, x, st.index[x].tier, t, data, s);
    }
  }

  lemma RelocateOnlyMoves(st: State, room: State, x: Sid, source: Tier, target: Tier, data: Blob, s: Sid)
    requires OnlyMoved(st, room, s)
    ensures OnlyMoved(st, room.Relocate(x, source, target, data), s)
    ensures room.Relocate(x, source, target, data).now == room.now
  {
  }

  // ---- Loads and saves ----

  /** A hit stamps the entry and counts the access; the other entries are left alone. */
  lemma LoadStamps(c: System, st: State, x: Sid, s: Sid)
    ensures var end := Load(c, st, x).st;
      && end.now == st.now
      && (s in end.index ==>
            && s in st.index
            && end.index[s] == (if s != x then st.index[s].(tier := end.index[s].tier)
                                else st.index[s].(tier := end.index[s].tier, lastAccessed := st.now,
                                                  accessCount := st.index[s].accessCount + 1)))
  {
    hide Promote;
    if x in st.index && st.Holds(x, st.index[x].tier) {
      PromoteOnlyMoves(c, Touch(st, x), x, Hot, s);
    }
  }

  /** As many blocks as the tokens need, the last one not empty. */
  predicate BlocksFor(blocks: nat, tokens: nat, blockSize: nat) {
    tokens <= blocks * blockSize < tokens + blockSize
  }

  lemma BlocksNeeded(tokens: nat, blockSize: nat)
    requires blockSize >= 1
    ensures BlocksFor((tokens + blockSize - 1) / blockSize, tokens, blockSize)
  {
    var q, r := (tokens + blockSize - 1) / blockSize, (tokens + blockSize - 1) % blockSize;
    assert tokens + blockSize - 1 == blockSize * q + r;
  }

  /** A new entry, or the old one with its contents, its size and its last access brought up to date. */
  predicate Renewed(st: State, room: State, end: State, s: Sid, user: string, data: Blob, tokens: nat, blockSize: nat) {
    && s in end.index
    && var e := end.index[s];
       && e.lastAccessed == st.now && e.sizeBytes == |data| && e.tokenCount == tokens
       && BlocksFor(e.numBlocks, tokens, blockSize)
       && if s in room.index then
            s in st.index && e.userId == st.index[s].userId && e.createdAt == st.index[s].createdAt
            && e.accessCount == st.index[s].accessCount
          else e.userId == user && e.createdAt == st.now && e.accessCount == 1
  }

  lemma IndexRenews(c: System, st: State, room: State, t: Tier, s: Sid, user: string, data: Blob, tokens: nat)
    requires OnlyMoved(st, room, s) && room.now == st.now
    ensures Renewed(st, room, IndexSave(c, room, t, s, user, data, tokens), s, user, data, tokens, c.blockSize)
  {
    BlocksNeeded(tokens, c.blockSize);
    hide BlocksFor;
  }

  lemma IndexSpares(c: System, st: State, room: State, t: Tier, x: Sid, user: string, data: Blob, tokens: nat, s: Sid)
    requires OnlyMoved(st, room, s) && s != x
    ensures OnlyMoved(st, IndexSave(c, room, t, x, user, data, tokens), s)
    ensures IndexSave(c, room, t, x, user, data, tokens).now == room.now
  {
  }

  /** A save, raise or not, renews its session's entry and at most moves the others. */
  lemma SaveRenews(c: System, st: State, x: Sid, user: string, data: Blob, tokens: nat, s: Sid)
    ensures var end := Save(c, st, x, user, data, tokens).st;
      && end.now == st.now
      && if s == x then Renewed(st, SaveSpot(c, st, |data|).st, end, s, user, data, tokens, c.blockSize)
         else OnlyMoved(st, end, s)
  {
    hide SaveSpot;
    hide Accepts;
    hide Path;
    hide OnlyMoved;
    hide Renewed;
    hide IndexSave;
    hide State.Put;
    var spot := SaveSpot(c, st, |data|);
    var ms := SaveSpotPath(c, st, |data|);
    PathOnlyMoves(c, st, ms, spot.st, 0, s);
    PathKeepsTime(c, st, ms, spot.st, 0);
    var indexed := IndexSave(c, spot.st, spot.tier, x, user, data, tokens);
    if s == x {
      IndexRenews(c, st, spot.st, spot.tier, s, user, data, tokens);
    } else {
      IndexSpares(c, st, spot.st, spot.tier, x, user, data, tokens, s);
    }
    IndexTime(c, spot.st, spot.tier, x, user, data, tokens);
    PutKeepsIndex(st, spot.st, indexed, spot.tier, x, data, user, tokens, c.blockSize, s);
  }

  lemma IndexTime(c: System, room: State, t: Tier, x: Sid, user: string, data: Blob, tokens: nat)
    ensures IndexSave(c, room, t, x, user, data, tokens).now == room.now
  {
  }

  lemma PutKeepsIndex(st: State, room: State, end: State, t: Tier, x: Sid, data: Blob, user: string, tokens: nat,
          blockSize: nat, s: Sid)
    ensures var put := end.Put(t, x, data);
      && put.now == end.now
      && (Renewed(st, room, end, s, user, data, tokens, blockSize) ==>
            Renewed(st, room, put, s, user, data, tokens, blockSize))
      && (OnlyMoved(st, end, s) ==> OnlyMoved(st, put, s))
  {
  }

  // ---- Runs ----

  /** What the operations say the clock shows. */
  function Clock(ops: seq<Op>): real {
    if ops == [] then 0.0
    else
      var op := ops[|ops| - 1];
      if op.Tick? then op.at else Clock(ops[..|ops| - 1])
  }

  /** The most recent save of a session, and when it was last saved or loaded. */
  datatype Use = Use(tokens: nat, at: real)

  function LastUse(ops: seq<Op>, s: Sid): Use {
    if ops == [] then Use(0, 0.0)
    else
      var op, init := ops[|ops| - 1], ops[..|ops| - 1];
      var use := LastUse(init, s);
      match op
      case DoSave(x, _, _, tokens) => if x == s then Use(tokens, Clock(init)) else use
      case DoLoad(x) => if x == s then use.(at := Clock(init)) else use
      case _ => use
  }

  /** What a step makes of one entry, cascades aside. */
  ghost predicate StepEntry(c: System, st: State, op: Op, end: State, s: Sid) {
    match op
    case DoSave(x, user, data, tokens) =>
      if s == x then Renewed(st, SaveSpot(c, st, |data|).st, end, s, user, data, tokens, c.blockSize)
      else OnlyMoved(st, end, s)
    case DoLoad(x) =>
      s in end.index ==>
        && s in st.index
        && end.index[s] == (if s != x then st.index[s].(tier := end.index[s].tier)
                            else st.index[s].(tier := end.index[s].tier, lastAccessed := st.now,
                                              accessCount := st.index[s].accessCount + 1))
    case _ => OnlyMoved(st, end, s)
  }

  lemma StepEntries(c: System, st: State, op: Op, s: Sid)
    ensures var end := Step(c, st, op).st;
      StepEntry(c, st, op, end, s) && end.now == if op.Tick? then op.at else st.now
  {
    hide Save;
    hide Load;
    hide Promote;
    hide Demote;
    hide Evict;
    hide Maintain;
    hide Path;
    hide Renewed;
    hide SaveSpot;
    match op
    case DoSave(x, user, data, tokens) => SaveRenews(c, st, x, user, data, tokens, s);
    case DoLoad(x) => LoadStamps(c, st, x, s);
    case DoPromote(x, t) => PromoteOnlyMoves(c, st, x, t, s);
    case DoDemote(x) =>
      var ms := DemotePath(c, st, x);
      var r := if x in st.index then Rank(st.index[x].tier) else 2;
      PathOnlyMoves(c, st, ms, Demote(c, st, x).st, r, s);
      PathKeepsTime(c, st, ms, Demote(c, st, x).st, r);
    case DoEvict(t) =>
      var ms := EvictPath(c, st, t);
      PathOnlyMoves(c, st, ms, Evict(c, st, t).st, Rank(t), s);
      PathKeepsTime(c, st, ms, Evict(c, st, t).st, Rank(t));
    case DoDelete(x) =>
    case DoMaintain => MaintainOnlyMoves(c, st, s);
    case Tick(at) =>
  }

  /** The entry shows the tokens of the last save, as many blocks as they need, and the time of the last use. */
  ghost predicate Shows(c: System, st: State, s: Sid, use: Use)
    requires s in st.index
  {
    && st.index[s].tokenCount == use.tokens && st.index[s].lastAccessed == use.at
    && BlocksFor(st.index[s].numBlocks, use.tokens, c.blockSize)
  }

  lemma ShowsNext(c: System, ops: seq<Op>, st: State, end: State, s: Sid)
    requires ops != [] && s in end.index && StepEntry(c, st, ops[|ops| - 1], end, s)
    requires st.now == Clock(ops[..|ops| - 1])
    requires s in st.index ==> Shows(c, st, s, LastUse(ops[..|ops| - 1], s))
    ensures Shows(c, end, s, LastUse(ops, s))
  {
    hide BlocksFor;
    hide SaveSpot;
  }

  /** After every run, for every indexed session. */
  lemma {:induction false} EntryShowsLastUse(c: System, ops: seq<Op>, s: Sid)
    requires Run(c, ops).ok
    ensures Run(c, ops).st.now == Clock(ops)
    ensures s in Run(c, ops).st.index ==> Shows(c, Run(c, ops).st, s, LastUse(ops, s))
    decreases |ops|
  {
    hide Step;
    hide Shows;
    hide StepEntry;
    hide LastUse;
    if ops != [] {
      var init, op := ops[..|ops| - 1], ops[|ops| - 1];
      EntryShowsLastUse(c, init, s);
      var st := Run(c, init).st;
      StepEntries(c, st, op, s);
      if s in Run(c, ops).st.index {
        ShowsNext(c, ops, st, Run(c, ops).st, s);
      }
    }
  }

  // ---- Since it was new ----

  /** Who saved a session when it was last new, when that was, and how often it has been used. */
  datatype Origin = Origin(user: string, at: real, uses: nat)

  ghost function OriginOf(c: System, ops: seq<Op>, s: Sid): Origin {
    if ops == [] then Origin("", 0.0, 0)
    else
      var op, init := ops[|ops| - 1], ops[..|ops| - 1];
      var origin := OriginOf(c, init, s);
      match op
      case DoSave(x, user, _, _) => if x == s && s !in Live(c, init) then Origin(user, Clock(init), 1) else origin
      case DoLoad(x) => if x == s && s in Live(c, init) then origin.(uses := origin.uses + 1) else origin
      case _ => origin
  }

  ghost predicate From(st: State, s: Sid, origin: Origin)
    requires s in st.index
  {
    st.index[s].userId == origin.user && st.index[s].createdAt == origin.at && st.index[s].accessCount == origin.uses
  }

  /** With an uncapped cold tier, where no cascade loses an entry: its owner, its age, and all its uses. */
  lemma {:induction false} EntryShowsOrigin(c: System, ops: seq<Op>, s: Sid)
    requires c.coldCapacity <= 0 && Run(c, ops).ok && NonEmpty(ops)
    ensures s in Run(c, ops).st.index ==> From(Run(c, ops).st, s, OriginOf(c, ops, s))
    decreases |ops|
  {
    hide Run;
    hide From;
    hide Live;
    hide OriginOf;
    if ops != [] {
      var init, op := ops[..|ops| - 1], ops[|ops| - 1];
      RunNext(c, ops);
      EntryShowsOrigin(c, init, s);
      EntryShowsLastUse(c, init, s);
      var st := Run(c, init).st;
      IndexIsLive(c, init);
      StepEntries(c, st, op, s);
      if op.DoSave? {
        SpotKeepsIndex(c, st, |op.data|);
      }
      if s in Run(c, ops).st.index {
        FromNext(c, ops, st, Run(c, ops).st, s);
      }
    } else {
      NothingRun(c, ops);
    }
  }

  lemma NothingRun(c: System, ops: seq<Op>)
    requires ops == []
    ensures Run(c, ops).st.index == map[]
  {
  }

  lemma RunNext(c: System, ops: seq<Op>)
    requires ops != [] && Run(c, ops).ok
    ensures Run(c, ops[..|ops| - 1]).ok && Run(c, ops) == Step(c, Run(c, ops[..|ops| - 1]).st, ops[|ops| - 1])
  {
    hide Step;
  }

  lemma SpotKeepsIndex(c: System, st: State, n: nat)
    requires c.coldCapacity <= 0
    ensures SaveSpot(c, st, n).st.index.Keys == st.index.Keys
  {
    hide SaveSpot;
    var ms := SaveSpotPath(c, st, n);
    LosslessKeepsIndex(c, st, ms, SaveSpot(c, st, n).st, 0);
  }

  lemma FromNext(c: System, ops: seq<Op>, st: State, end: State, s: Sid)
    requires ops != [] && s in end.index && StepEntry(c, st, ops[|ops| - 1], end, s)
    requires st.now == Clock(ops[..|ops| - 1]) && st.index.Keys == Live(c, ops[..|ops| - 1])
    requires ops[|ops| - 1].DoSave? ==> SaveSpot(c, st, |ops[|ops| - 1].data|).st.index.Keys == st.index.Keys
    requires s in st.index ==> From(st, s, OriginOf(c, ops[..|ops| - 1], s))
    ensures From(end, s, OriginOf(c, ops, s))
  {
    hide BlocksFor;
    hide SaveSpot;
    hide Live;
  }
}
