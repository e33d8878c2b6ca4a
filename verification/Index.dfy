/** The index of cached sessions, and the policy object that hears about them. */
module Index {
  import opened Types
  import opened Sums
  import opened Policies
  import opened Cascade

  /** Metadata of one session; the manager writes to it in place. */
  class CacheEntry {
    const sessionId: Sid
    const userId: string
    const createdAt: real
    var lastAccessed: real
    var tokenCount: nat
    var numBlocks: nat
    var tier: Tier
    var sizeBytes: nat
    var accessCount: nat

    constructor (sessionId: Sid, entry: Entry)
      ensures this.sessionId == sessionId && Value() == entry
    {
      this.sessionId := sessionId;
      userId, createdAt, lastAccessed := entry.userId, entry.createdAt, entry.lastAccessed;
      tokenCount, numBlocks, tier := entry.tokenCount, entry.numBlocks, entry.tier;
      sizeBytes, accessCount := entry.sizeBytes, entry.accessCount;
    }

    function Value(): Entry
      reads this
    {
      Entry(userId, createdAt, lastAccessed, tokenCount, numBlocks, tier, sizeBytes, accessCount)
    }

    /** What a save of a known session overwrites: not its user, its age or its access count. */
    method Overwrite(t: Tier, now: real, size: nat, tokens: nat, blocks: nat)
      modifies this
      ensures Value() == old(Value()).(
                tier := t, lastAccessed := now, sizeBytes := size, tokenCount := tokens, numBlocks := blocks)
    {
      tier, lastAccessed, sizeBytes, tokenCount, numBlocks := t, now, size, tokens, blocks;
    }

    method Access(now: real)
      modifies this
      ensures Value() == old(Value()).(lastAccessed := now, accessCount := old(accessCount) + 1)
    {
      lastAccessed, accessCount := now, accessCount + 1;
    }
  }

  /** Bytes the index believes a tier holds. */
  ghost function IndexedBytes(index: map<Sid, Entry>, t: Tier): nat {
    SumValues(IndexedSizes(index, t))
  }

  function IndexedSizes(index: map<Sid, Entry>, t: Tier): map<Sid, nat> {
    map s | s in index && index[s].tier == t :: index[s].sizeBytes
  }

  class CacheIndex {
    var order: seq<Sid>
    var entries: map<Sid, CacheEntry>
    ghost var contents: map<Sid, Entry> // what the entries say

    /** An entry is filed under its own id, so no entry is filed twice. */
    ghost predicate Valid()
      reads this, entries.Values
    {
      && contents.Keys == entries.Keys
      && (forall s :: s in order <==> s in entries)
      && forall s :: s in entries ==> entries[s].sessionId == s && entries[s].Value() == contents[s]
    }

    constructor ()
      ensures Valid() && order == [] && entries == map[]
    {
      order, entries, contents := [], map[], map[];
    }

    method Add(entry: CacheEntry)
      requires Valid()
      modifies this
      ensures Valid()
      ensures entries == old(entries)[entry.sessionId := entry]
      ensures contents == old(contents)[entry.sessionId := entry.Value()]
      ensures order == if entry.sessionId in old(contents) then old(order) else old(order) + [entry.sessionId]
    {
      if entry.sessionId !in entries {
        order := order + [entry.sessionId];
      }
      entries := entries[entry.sessionId := entry];
      contents := contents[entry.sessionId := entry.Value()];
    }

    method Remove(sid: Sid) returns (found: bool)
      requires Valid()
      modifies this
      ensures Valid()
      ensures found == (sid in old(contents))
      ensures entries == old(entries) - {sid} && contents == old(contents) - {sid}
      ensures order == Without(old(order), sid)
    {
      if sid in entries {
        entries, contents := entries - {sid}, contents - {sid};
        order := Without(order, sid);
        return true;
      }
      found := false;
    }

    /** Write the tier field of an entry, which may have left the index by now. */
    method SetTier(entry: CacheEntry, t: Tier)
      requires Valid()
      requires entry.sessionId in entries ==> entries[entry.sessionId] == entry
      modifies entry, `contents
      ensures Valid()
      ensures contents == if entry.sessionId in old(contents)
                          then old(contents)[entry.sessionId := old(contents)[entry.sessionId].(tier := t)]
                          else old(contents)
    {
      entry.tier := t;
      if entry.sessionId in contents {
        contents := contents[entry.sessionId := contents[entry.sessionId].(tier := t)];
      }
    }

    method FindByTier(t: Tier) returns (cands: seq<Candidate>)
      requires Valid()
      ensures cands == Candidates(order, contents, t)
    {
      cands := [];
      var i := |order|;
      while i > 0
        invariant 0 <= i <= |order|
        invariant cands == Candidates(order[i..], contents, t)
      {
        i := i - 1;
        var s := order[i];
        assert order[i..][1..] == order[i + 1..];
        if s in entries && entries[s].tier == t {
          cands := [Candidate(s, entries[s].Value())] + cands;
        }
      }
    }

    /** Sessions and bytes of one tier, however the entries are walked. */
    method Stats(t: Tier) returns (count: nat, size: nat)
      requires Valid()
      ensures count == |IndexedSizes(contents, t)|
      ensures size == IndexedBytes(contents, t)
    {
      count, size := 0, 0;
      var left := entries;
      ghost var unseen := contents;
      while left != map[]
        invariant left.Keys == unseen.Keys && unseen.Keys <= contents.Keys
        invariant forall s :: s in left ==> left[s] == entries[s] && unseen[s] == contents[s]
        invariant count + |IndexedSizes(unseen, t)| == |IndexedSizes(contents, t)|
        invariant size + IndexedBytes(unseen, t) == IndexedBytes(contents, t)
        decreases left.Keys
      {
        var s :| s in left;
        OneEntryLess(unseen, s, t);
        if entries[s].tier == t {
          count, size := count + 1, size + entries[s].sizeBytes;
        }
        left, unseen := left - {s}, unseen - {s};
      }
    }
  }

  lemma OneEntryLess(index: map<Sid, Entry>, s: Sid, t: Tier)
    requires s in index
    ensures |IndexedSizes(index, t)| == |IndexedSizes(index - {s}, t)| + if index[s].tier == t then 1 else 0
    ensures IndexedBytes(index, t)
         == IndexedBytes(index - {s}, t) + if index[s].tier == t then index[s].sizeBytes else 0
  {
    SizesWithout(index, s, t);
    var sizes := IndexedSizes(index, t);
    hide IndexedSizes;
    if index[s].tier == t {
      SumRemove(sizes, s);
      CountRemove(sizes, s);
    }
  }

  lemma SizesWithout(index: map<Sid, Entry>, s: Sid, t: Tier)
    requires s in index
    ensures IndexedSizes(index - {s}, t) == IndexedSizes(index, t) - {s}
    ensures index[s].tier == t ==> s in IndexedSizes(index, t) && IndexedSizes(index, t)[s] == index[s].sizeBytes
    ensures index[s].tier != t ==> IndexedSizes(index, t) - {s} == IndexedSizes(index, t)
  {
  }

  /** A policy object: its state is the messages it has been sent. */
  class EvictionPolicy {
    const policy: Policy
    var calls: seq<Call>

    constructor (policy: Policy)
      ensures this.policy == policy && calls == []
    {
      this.policy := policy;
      calls := [];
    }

    method Tell(call: Call)
      modifies this
      ensures calls == old(calls) + [call]
    {
      calls := calls + [call];
    }

    method SelectVictim(tier: Tier, now: real, cands: seq<Candidate>) returns (victim: Option<Sid>)
      requires cands != []
      modifies this
      ensures victim == Select(policy, old(calls), now, cands)
      ensures calls
           == old(calls) + if victim.Some? && victim.value != "" then [Chosen(tier, victim.value, Sids(cands))] else []
    {
      victim := Select(policy, calls, now, cands);
      if victim.Some? && victim.value != "" {
        calls := calls + [Chosen(tier, victim.value, Sids(cands))];
      }
    }
  }
}
