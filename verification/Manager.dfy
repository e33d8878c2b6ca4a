/** The tiered cache manager, operating on its tiers and index in place. */
module Manager {
  import opened Types
  import opened Storage
  import opened Policies
  import opened Cascade
  import opened Operations
  import opened Index

  /** The same entry objects, or fewer. */
  ghost predicate Within(now: map<Sid, CacheEntry>, before: map<Sid, CacheEntry>)
    ensures Within(now, before) ==> now.Values <= before.Values
    ensures now == before ==> Within(now, before)
  {
    forall s :: s in now ==> s in before && now[s] == before[s]
  }

  lemma WithinThen(now: map<Sid, CacheEntry>, between: map<Sid, CacheEntry>, before: map<Sid, CacheEntry>)
    requires Within(now, between) && Within(between, before)
    ensures Within(now, before)
  {
  }

  class TieredCacheManager {
    const hot: HotTier
    const warm: DirectoryTier
    const cold: DirectoryTier
    const index: CacheIndex
    const policy: EvictionPolicy
    const blockSize: nat
    var now: real

    ghost predicate Valid()
      reads hot, index, index.entries.Values
      ensures Valid() ==> blockSize >= 1
    {
      hot.Valid() && index.Valid() && warm != cold && blockSize >= 1
    }

    ghost function Sys(): System
      requires blockSize >= 1
    {
      Config(policy.policy, hot.capacity, warm.capacity, cold.capacity, blockSize)
    }

    /** The state the manager, its tiers, its index and its policy are in together. */
    ghost function Abs(): State
      reads this, hot, warm, cold, index, policy
    {
      State(hot.storage, warm.files, cold.files, index.order, index.contents, policy.calls, now)
    }

    constructor (policy: Policy, hotCapacity: int, warmCapacity: int, coldCapacity: int, blockSize: nat)
      requires blockSize >= 1
      ensures Valid() && Abs() == EMPTY && index.entries == map[]
      ensures fresh(hot) && fresh(warm) && fresh(cold) && fresh(index) && fresh(this.policy)
      ensures Sys() == Config(policy, hotCapacity, warmCapacity, coldCapacity, blockSize)
    {
      hot := new HotTier(hotCapacity);
      warm := new DirectoryTier(warmCapacity);
      cold := new DirectoryTier(coldCapacity);
      index := new CacheIndex();
      this.policy := new EvictionPolicy(policy);
      this.blockSize := blockSize;
      now := 0.0;
    }

    // ---- The tier a name stands for ----

    method TierIsFull(t: Tier, n: nat) returns (full: bool)
      requires Valid()
      ensures full == Abs().IsFull(Sys(), t, n)
    {
      match t
      case Hot => full := hot.IsFull(n);
      case Warm => full := warm.IsFull(n);
      case Cold => full := cold.IsFull(n);
    }

    method TierGet(t: Tier, s: Sid) returns (data: Option<Blob>)
      ensures data == if s in Abs().In(t) then Some(Abs().In(t)[s]) else None
    {
      match t
      case Hot => data := hot.Get(s);
      case Warm => data := warm.Get(s);
      case Cold => data := cold.Get(s);
    }

    /** False when the tier raises MemoryError. */
    method TierPut(t: Tier, s: Sid, data: Blob) returns (ok: bool)
      requires Valid()
      modifies hot, warm, cold
      ensures Valid() && ok == Accepts(Sys(), old(Abs()), t, s, data)
      ensures Abs() == if ok then old(Abs()).Put(t, s, data) else old(Abs())
    {
      match t
      case Hot => ok := hot.Put(s, data);
      case Warm => ok := warm.Put(s, data);
      case Cold => ok := cold.Put(s, data);
    }

    method TierDelete(t: Tier, s: Sid)
      requires Valid()
      modifies hot, warm, cold
      ensures Valid() && Abs() == old(Abs()).Drop(t, s)
    {
      match t
      case Hot => var _ := hot.Delete(s);
      case Warm => var _ := warm.Delete(s);
      case Cold => var _ := cold.Delete(s);
    }

    /** Move a session's copy.  Its entry may have left the index by now, and is written to all the same. */
    method Relocate(entry: CacheEntry, source: Tier, target: Tier, data: Blob)
      requires Valid() && source != target
      requires entry.sessionId in index.entries ==> index.entries[entry.sessionId] == entry
      requires Accepts(Sys(), Abs(), target, entry.sessionId, data)
      modifies hot, warm, cold, entry, index`contents
      ensures Valid() && Abs() == old(Abs()).Relocate(entry.sessionId, source, target, data)
    {
      var _ := TierPut(target, entry.sessionId, data);
      TierDelete(source, entry.sessionId);
      index.SetTier(entry, target);
    }

    method Forget(s: Sid)
      requires Valid()
      modifies index, policy
      ensures Valid() && index.entries == old(index.entries) - {s}
      ensures Abs() == old(Abs()).Forget(s)
    {
      var _ := index.Remove(s);
      policy.Tell(Removed(s));
    }

    // ---- Eviction cascades ----

    method EvictFromTier(t: Tier) returns (evicted: bool)
      requires Valid()
      modifies hot, warm, cold, index, policy, index.entries.Values
      ensures Valid() && Outcome(evicted, Abs()) == Evict(Sys(), old(Abs()), t)
      ensures Within(index.entries, old(index.entries))
      decreases 2 - Rank(t), 0, 2
    {
      hide Cascade.Demote;
      hide Evict;
      hide Cascade.Delete;
      hide Select;
      hide Candidates;
      ghost var c, start := Sys(), Abs();
      EvictUnfolds(c, start, t);
      var cands := index.FindByTier(t);
      if cands == [] {
        return false;
      }
      var victim := policy.SelectVictim(t, now, cands);
      if victim == None || victim.value == "" {
        return false;
      }
      assert Abs() == start.Tell(Chosen(t, victim.value, Sids(cands)));
      if t == Cold {
        var _ := Delete(victim.value);
        return true;
      }
      evicted := Demote(victim.value);
    }

    method EnsureSpaceInTier(t: Tier, n: nat)
      requires Valid()
      modifies hot, warm, cold, index, policy, index.entries.Values
      ensures Valid() && Abs() == EnsureSpace(Sys(), old(Abs()), t, n, MAX_ATTEMPTS)
      ensures Within(index.entries, old(index.entries))
      decreases 2 - Rank(t), 1
    {
      hide *;
      ghost var c, start := Sys(), Abs();
      var attempts := 0;
      var full := TierIsFull(t, n);
      while full && attempts < MAX_ATTEMPTS
        invariant Valid() && 0 <= attempts <= MAX_ATTEMPTS
        invariant full == Abs().IsFull(c, t, n)
        invariant Within(index.entries, old(index.entries))
        invariant EnsureSpace(c, Abs(), t, n, MAX_ATTEMPTS - attempts) == EnsureSpace(c, start, t, n, MAX_ATTEMPTS)
        decreases MAX_ATTEMPTS - attempts
      {
        EnsureSpaceUnfolds(c, Abs(), t, n, MAX_ATTEMPTS - attempts);
        ghost var before := index.entries;
        var evicted := EvictFromTier(t);
        WithinThen(index.entries, before, old(index.entries));
        if !evicted {
          return;
        }
        attempts := attempts + 1;
        full := TierIsFull(t, n);
      }
      EnsureSpaceUnfolds(c, Abs(), t, n, MAX_ATTEMPTS - attempts);
    }

    method Demote(s: Sid) returns (demoted: bool)
      requires Valid()
      modifies hot, warm, cold, index, policy, index.entries.Values
      ensures Valid() && Outcome(demoted, Abs()) == Cascade.Demote(Sys(), old(Abs()), s)
      ensures Within(index.entries, old(index.entries))
      decreases 2 - (if s in index.entries then Rank(index.entries[s].tier) else 2), 0, 1
    {
      hide Cascade.Demote;
      hide EnsureSpace;
      hide Cascade.Settle;
      DemoteUnfolds(Sys(), Abs(), s);
      demoted := false;
      if s in index.entries && index.entries[s].tier != Cold {
        var entry := index.entries[s];
        var source := entry.tier;
        var data := TierGet(source, s);
        if data != None && data.value != [] {
          demoted := Sink(entry, source, data.value);
        }
      }
    }

    /** Make room one tier below and settle there. */
    method Sink(entry: CacheEntry, source: Tier, data: Blob) returns (moved: bool)
      requires Valid() && source != Cold
      requires entry.sessionId in index.entries && index.entries[entry.sessionId] == entry
      modifies hot, warm, cold, index, policy, index.entries.Values
      ensures Valid()
      ensures Outcome(moved, Abs())
           == var roomy := EnsureSpace(Sys(), old(Abs()), Below(source), |data|, MAX_ATTEMPTS);
              Cascade.Settle(Sys(), roomy, entry.sessionId, source, data)
      ensures Within(index.entries, old(index.entries))
      decreases 2 - Rank(source), 0, 0
    {
      hide EnsureSpace;
      hide Cascade.Settle;
      EnsureSpaceInTier(Below(source), |data|);
      moved := Settle(entry, source, data);
    }

    /** The end of a demotion, once room has been sought. */
    method Settle(entry: CacheEntry, source: Tier, data: Blob) returns (moved: bool)
      requires Valid() && source != Cold
      requires entry.sessionId in index.entries ==> index.entries[entry.sessionId] == entry
      modifies hot, warm, cold, index, policy, entry
      ensures Valid() && Outcome(moved, Abs()) == Cascade.Settle(Sys(), old(Abs()), entry.sessionId, source, data)
      ensures Within(index.entries, old(index.entries))
    {
      var target := Below(source);
      var full := TierIsFull(target, |data|);
      if full {
        if target == Cold {
          TierDelete(source, entry.sessionId);
          Forget(entry.sessionId);
          return true;
        }
        return false;
      }
      Relocate(entry, source, target, data);
      moved := true;
    }

    method Delete(s: Sid) returns (deleted: bool)
      requires Valid()
      modifies hot, warm, cold, index, policy
      ensures Valid() && Outcome(deleted, Abs()) == Cascade.Delete(old(Abs()), s)
      ensures Within(index.entries, old(index.entries))
    {
      if s !in index.entries {
        return false;
      }
      TierDelete(index.entries[s].tier, s);
      Forget(s);
      deleted := true;
    }

    // ---- Moving up ----

    method MakeRoom(t: Tier, n: nat) returns (roomy: bool)
      requires Valid()
      modifies hot, warm, cold, index, policy, index.entries.Values
      ensures Valid() && Outcome(roomy, Abs()) == Operations.MakeRoom(Sys(), old(Abs()), t, n)
      ensures Within(index.entries, old(index.entries))
    {
      hide *;
      ghost var c, start, st := Sys(), Abs(), Abs();
      var full := TierIsFull(t, n);
      while full
        invariant Valid() && Within(index.entries, old(index.entries)) && st == Abs()
        invariant full == st.IsFull(c, t, n)
        invariant Operations.MakeRoom(c, st, t, n) == Operations.MakeRoom(c, start, t, n)
        decreases |st.InTier(t)|
      {
        ghost var before := index.entries;
        var evicted := EvictFromTier(t);
        WithinThen(index.entries, before, old(index.entries));
        MakeRoomStep(c, st, t, n, Outcome(evicted, Abs()));
        if !evicted {
          return false;
        }
        st := Abs();
        full := TierIsFull(t, n);
      }
      MakeRoomDone(c, st, t, n);
      roomy := true;
    }

    method Promote(s: Sid, target: Tier) returns (promoted: bool)
      requires Valid()
      modifies hot, warm, cold, index, policy, index.entries.Values
      ensures Valid() && Outcome(promoted, Abs()) == Operations.Promote(Sys(), old(Abs()), s, target)
      ensures Within(index.entries, old(index.entries))
    {
      hide Operations.MakeRoom;
      hide Full;
      promoted := false;
      if s in index.entries && index.entries[s].tier != target {
        var entry := index.entries[s];
        var source := entry.tier;
        var data := TierGet(source, s);
        if data != None && data.value != [] {
          promoted := Lift(entry, source, target, data.value);
        }
      }
    }

    method Lift(entry: CacheEntry, source: Tier, target: Tier, data: Blob) returns (moved: bool)
      requires Valid() && source != target
      requires entry.sessionId in index.entries && index.entries[entry.sessionId] == entry
      modifies hot, warm, cold, index, policy, index.entries.Values
      ensures Valid() && Outcome(moved, Abs()) == LiftInto(Sys(), old(Abs()), entry.sessionId, source, target, data)
      ensures Within(index.entries, old(index.entries))
    {
      hide Operations.MakeRoom;
      ghost var c, start := Sys(), Abs();
      moved := MakeRoom(target, |data|);
      if moved {
        ghost var ms := MakeRoomPath(c, start, target, |data|);
        RoomIsAccepted(c, Abs(), target, entry.sessionId, data);
        Relocate(entry, source, target, data);
      }
    }

    // ---- Saving and loading ----

    method SaveToTier(t: Tier, s: Sid, user: string, data: Blob, tokens: nat) returns (ok: bool)
      requires Valid()
      modifies hot, warm, cold, index, policy, index.entries.Values
      ensures Valid() && Outcome(ok, Abs()) == SaveTo(Sys(), old(Abs()), t, s, user, data, tokens)
      ensures forall e :: e in index.entries.Values ==> e in old(index.entries.Values) || fresh(e)
    {
      hide Full;
      hide Fits;
      IndexEntry(t, s, user, data, tokens);
      ok := TierPut(t, s, data);
    }

    method IndexEntry(t: Tier, s: Sid, user: string, data: Blob, tokens: nat)
      requires Valid()
      modifies index, policy, index.entries.Values
      ensures Valid() && Abs() == IndexSave(Sys(), old(Abs()), t, s, user, data, tokens)
      ensures forall e :: e in index.entries.Values ==> e in old(index.entries.Values) || fresh(e)
    {
      var blocks := (tokens + blockSize - 1) / blockSize;
      if s in index.entries {
        OverwriteEntry(s, t, |data|, tokens, blocks);
      } else {
        AddEntry(s, Entry(user, now, now, tokens, blocks, t, |data|, 1));
      }
    }

    method AddEntry(s: Sid, value: Entry)
      requires Valid() && s !in index.entries
      modifies index, policy
      ensures Valid() && fresh(index.entries.Values - old(index.entries.Values))
      ensures index.contents == old(index.contents)[s := value] && index.order == old(index.order) + [s]
      ensures policy.calls == old(policy.calls) + [Inserted(s, value, now)]
    {
      var entry := new CacheEntry(s, value);
      index.Add(entry);
      policy.Tell(Inserted(s, value, now));
    }

    method OverwriteEntry(s: Sid, t: Tier, size: nat, tokens: nat, blocks: nat)
      requires Valid() && s in index.entries
      modifies index`contents, index.entries[s]
      ensures Valid() && s in old(index.contents)
      ensures index.contents
           == var entry := old(index.contents)[s].(
                tier := t, lastAccessed := now, sizeBytes := size, tokenCount := tokens, numBlocks := blocks);
              old(index.contents)[s := entry]
    {
      var entry := index.entries[s];
      entry.Overwrite(t, now, size, tokens, blocks);
      index.contents := index.contents[s := entry.Value()];
    }

    /** Save to the hot tier, or to the warm tier when the hot tier cannot make room; false when the put raises. */
    method Save(s: Sid, user: string, data: Blob, tokens: nat) returns (ok: bool)
      requires Valid()
      modifies hot, warm, cold, index, policy, index.entries.Values
      ensures Valid() && Outcome(ok, Abs()) == Operations.Save(Sys(), old(Abs()), s, user, data, tokens)
      ensures forall e :: e in index.entries.Values ==> e in old(index.entries.Values) || fresh(e)
    {
      hide EnsureSpace;
      hide SaveTo;
      hide Full;
      EnsureSpaceInTier(Hot, |data|);
      var full := TierIsFull(Hot, |data|);
      if full {
        EnsureSpaceInTier(Warm, |data|);
        ok := SaveToTier(Warm, s, user, data, tokens);
      } else {
        ok := SaveToTier(Hot, s, user, data, tokens);
      }
    }

    method Load(s: Sid) returns (data: Option<Blob>)
      requires Valid()
      modifies hot, warm, cold, index, policy, index.entries.Values
      ensures Valid() && Loaded(data, Abs()) == Operations.Load(Sys(), old(Abs()), s)
      ensures Within(index.entries, old(index.entries))
    {
      hide Operations.Promote;
      if s !in index.entries {
        return None;
      }
      var tier := index.entries[s].tier;
      data := TierGet(tier, s);
      if data == None || data.value == [] {
        var _ := index.Remove(s);
        return None;
      }
      RecordAccess(s);
      if tier != Hot {
        var _ := Promote(s, Hot);
      }
    }

    method RecordAccess(s: Sid)
      requires Valid() && s in index.entries
      modifies index`contents, policy, index.entries[s]
      ensures Valid() && s in old(Abs()).index && Abs() == Touch(old(Abs()), s)
    {
      hide CacheIndex.Valid;
      var value := AccessEntry(s);
      policy.Tell(Accessed(s, value, now));
    }

    method AccessEntry(s: Sid) returns (value: Entry)
      requires Valid() && s in index.entries
      modifies index`contents, index.entries[s]
      ensures Valid() && s in old(index.contents)
      ensures value
          == old(index.contents)[s].(lastAccessed := now, accessCount := old(index.contents)[s].accessCount + 1)
      ensures index.contents == old(index.contents)[s := value]
    {
      var entry := index.entries[s];
      entry.Access(now);
      value := entry.Value();
      index.contents := index.contents[s := value];
    }

    // ---- Maintenance and time ----

    method RunMaintenance()
      requires Valid()
      modifies hot, warm, cold, index, policy, index.entries.Values
      ensures Valid() && Abs() == Maintain(Sys(), old(Abs()))
      ensures Within(index.entries, old(index.entries))
    {
      var expired := ExpiredSessions();
      DemoteThese(expired);
    }

    method DemoteThese(ids: seq<Sid>)
      requires Valid()
      modifies hot, warm, cold, index, policy, index.entries.Values
      ensures Valid() && Abs() == DemoteAll(Sys(), old(Abs()), ids)
      ensures Within(index.entries, old(index.entries))
    {
      hide *;
      ghost var c, start := Sys(), Abs();
      for i := 0 to |ids|
        invariant Valid() && Within(index.entries, old(index.entries))
        invariant DemoteAll(c, Abs(), ids[i..]) == DemoteAll(c, start, ids)
      {
        DemoteAllFrom(c, Abs(), ids, i);
        ghost var before := index.entries;
        var _ := Demote(ids[i]);
        WithinThen(index.entries, before, old(index.entries));
      }
      DemoteAllFrom(c, Abs(), ids, |ids|);
    }

    method ExpiredSessions() returns (expired: seq<Sid>)
      requires Valid()
      ensures expired == ExpiredIn(Sys(), Abs(), Abs().order)
    {
      hide Expired;
      expired := [];
      var i := |index.order|;
      while i > 0
        invariant 0 <= i <= |index.order|
        invariant expired == ExpiredIn(Sys(), Abs(), index.order[i..])
      {
        i := i - 1;
        var s := index.order[i];
        assert index.order[i..][1..] == index.order[i + 1..];
        if Expired(policy.policy, policy.calls, now, Candidate(s, index.entries[s].Value())) {
          expired := [s] + expired;
        }
      }
    }

    method SetClock(at: real)
      requires Valid()
      modifies this
      ensures Valid() && Abs() == old(Abs()).(now := at)
    {
      now := at;
    }
  }
}
