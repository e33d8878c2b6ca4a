/** The storage tiers: an in-memory tier with running byte accounting, and directories of files. */
module Storage {
  import opened Types
  import opened Sums

  function Sizes(s: Store): map<Sid, nat> {
    map k | k in s :: |s[k]|
  }

  /** Bytes stored in a tier. */
  ghost function Bytes(s: Store): nat {
    SumValues(Sizes(s))
  }

  /** Would adding n bytes exceed the capacity?  A non-positive capacity means uncapped. */
  ghost predicate Full(s: Store, capacity: int, n: nat) {
    capacity > 0 && Bytes(s) + n > capacity
  }

  ghost predicate Fits(s: Store, capacity: int) {
    capacity > 0 ==> Bytes(s) <= capacity
  }

  lemma NoBytes()
    ensures Bytes(map[]) == 0
  {
    assert Sizes(map[]) == map[];
  }

  lemma BytesPut(s: Store, k: Sid, d: Blob)
    ensures Bytes(s[k := d]) + (if k in s then |s[k]| else 0) == Bytes(s) + |d|
  {
    assert Sizes(s[k := d]) == Sizes(s)[k := |d|];
    SumPut(Sizes(s), k, |d|);
  }

  lemma BytesDrop(s: Store, k: Sid)
    ensures Bytes(s - {k}) + (if k in s then |s[k]| else 0) == Bytes(s)
  {
    assert Sizes(s - {k}) == Sizes(s) - {k};
    if k in s {
      SumRemove(Sizes(s), k);
    } else {
      assert Sizes(s) - {k} == Sizes(s);
    }
  }

  /** The in-memory tier keeps a size per key and a running byte total. */
  class HotTier {
    const capacity: int
    var storage: Store
    var sizes: map<Sid, nat>
    var currentBytes: int

    ghost predicate Valid()
      reads this
    {
      && sizes == Sizes(storage)
      && currentBytes == Bytes(storage)
    }

    constructor (capacity: int)
      ensures Valid() && storage == map[] && this.capacity == capacity
    {
      this.capacity := capacity;
      storage := map[];
      sizes := map[];
      currentBytes := 0;
    }

    method IsFull(n: nat) returns (full: bool)
      requires Valid()
      ensures full == Full(storage, capacity, n)
    {
      full := capacity > 0 && currentBytes + n > capacity;
    }

    /** Replaces the old copy when there is one; a write that would exceed the capacity raises and changes nothing. */
    method Put(key: Sid, data: Blob) returns (ok: bool)
      requires Valid()
      modifies this
      ensures Valid()
      ensures ok == Fits(old(storage)[key := data], capacity)
      ensures storage == if ok then old(storage)[key := data] else old(storage)
    {
      var oldSize := if key in sizes then sizes[key] else 0;
      BytesPut(storage, key, data);
      if capacity > 0 && currentBytes - oldSize + |data| > capacity {
        return false;
      }
      storage := storage[key := data];
      sizes := sizes[key := |data|];
      currentBytes := currentBytes - oldSize + |data|;
      ok := true;
    }

    method Get(key: Sid) returns (data: Option<Blob>)
      ensures data == if key in storage then Some(storage[key]) else None
    {
      data := if key in storage then Some(storage[key]) else None;
    }

    method Delete(key: Sid) returns (found: bool)
      requires Valid()
      modifies this
      ensures Valid()
      ensures found == (key in old(storage))
      ensures storage == old(storage) - {key}
    {
      BytesDrop(storage, key);
      if key in storage {
        var size := sizes[key];
        sizes := sizes - {key};
        storage := storage - {key};
        currentBytes := currentBytes - size;
        return true;
      }
      found := false;
    }

    method Clear()
      modifies this
      ensures Valid() && storage == map[]
    {
      storage := map[];
      sizes := map[];
      currentBytes := 0;
    }
  }

  /** A directory of files, one per key: the warm tier and the local cold tier. */
  class DirectoryTier {
    const capacity: int
    var files: Store

    constructor (capacity: int)
      ensures files == map[] && this.capacity == capacity
    {
      this.capacity := capacity;
      files := map[];
    }

    /** Walks the directory; the order in which files are listed does not matter. */
    method Usage() returns (currentBytes: nat, entryCount: nat)
      ensures currentBytes == Bytes(files)
      ensures entryCount == |files|
    {
      currentBytes, entryCount := 0, 0;
      var left := files;
      while left != map[]
        invariant currentBytes + Bytes(left) == Bytes(files)
        invariant entryCount + |left| == |files|
        decreases |left|
      {
        var key :| key in left;
        BytesDrop(left, key);
        currentBytes, entryCount := currentBytes + |left[key]|, entryCount + 1;
        left := left - {key};
      }
    }

    method IsFull(n: nat) returns (full: bool)
      ensures full == Full(files, capacity, n)
    {
      if capacity <= 0 {
        return false;
      }
      var bytes, _ := Usage();
      full := bytes + n > capacity;
    }

    /** The room check counts the old copy of the key too, so an overwrite needs room for both. */
    method Put(key: Sid, data: Blob) returns (ok: bool)
      modifies this
      ensures ok == !Full(old(files), capacity, |data|)
      ensures files == if ok then old(files)[key := data] else old(files)
    {
      var full := IsFull(|data|);
      if full {
        return false;
      }
      files := files[key := data];
      ok := true;
    }

    method Get(key: Sid) returns (data: Option<Blob>)
      ensures data == if key in files then Some(files[key]) else None
    {
      data := if key in files then Some(files[key]) else None;
    }

    method Delete(key: Sid) returns (found: bool)
      modifies this
      ensures found == (key in old(files))
      ensures files == old(files) - {key}
    {
      if key in files {
        files := files - {key};
        return true;
      }
      found := false;
    }

    method Clear()
      modifies this
      ensures files == map[]
    {
      files := map[];
    }
  }
}
