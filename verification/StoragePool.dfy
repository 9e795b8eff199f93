/** The pool of emptied message buffers kept for reuse. */
module StoragePools {
  import opened Wrappers

  const MAX_BYTES: nat := 16 * 1024 * 1024
  const MAX_ENTRIES: nat := 256

  /** A growable buffer: what it holds, and how much it has room for. */
  datatype Buffer = Buffer(contents: seq<U8>, capacity: U64) {
    function Clear(): Buffer { this.(contents := []) }
  }

  const NEW := Buffer([], 0)

  datatype Storage = Storage(channel: Buffer, payload: Buffer)

  function SaturatingAdd(a: U64, b: U64): U64 {
    if a + b > U64_MAX then U64_MAX else a + b
  }

  function Room(s: Storage): U64 {
    SaturatingAdd(s.channel.capacity, s.payload.capacity)
  }

  /** The room for both buffers, however much that is. */
  function Capacity(s: Storage): nat {
    s.channel.capacity + s.payload.capacity
  }

  function TotalRoom(entries: seq<Storage>): nat {
    if entries == [] then 0 else TotalRoom(entries[..|entries| - 1]) + Room(entries[|entries| - 1])
  }

  predicate Emptied(s: Storage) {
    s.channel.contents == [] && s.payload.contents == []
  }

  /** What a release does to the pooled entries. */
  function Released(entries: seq<Storage>, s: Storage): seq<Storage> {
    if |entries| < MAX_ENTRIES && TotalRoom(entries) + Room(s) <= MAX_BYTES
    then entries + [Storage(s.channel.Clear(), s.payload.Clear())]
    else entries
  }

  class StoragePool {
    var entries: seq<Storage>
    var retainedBytes: U64

    /** The retained bytes are exactly the room of the entries, all empty and within both limits. */
    ghost predicate Valid()
      reads this
    {
      && retainedBytes == TotalRoom(entries) <= MAX_BYTES
      && |entries| <= MAX_ENTRIES
      && forall i | 0 <= i < |entries| :: Emptied(entries[i])
    }

    constructor ()
      ensures Valid() && entries == []
    {
      entries, retainedBytes := [], 0;
    }

    /** The newest entry, or new storage; either way empty. The saturating subtraction is exact. */
    method AcquireStorage() returns (storage: Storage)
      requires Valid()
      modifies this
      ensures Valid() && Emptied(storage)
      ensures old(entries) == [] ==> storage == Storage(NEW, NEW) && entries == []
      ensures old(entries) != [] ==> old(entries) == entries + [storage]
      ensures retainedBytes == old(retainedBytes) - Room(storage)
    {
      if entries == [] {
        return Storage(NEW, NEW);
      }
      storage := entries[|entries| - 1];
      entries := entries[..|entries| - 1];
      retainedBytes := SaturatingSub(retainedBytes, Room(storage));
    }

    /** The emptied storage becomes the newest entry exactly if both limits have room for it. */
    method ReleaseStorage(storage: Storage)
      requires Valid()
      modifies this
      ensures Valid() && entries == Released(old(entries), storage)
      ensures entries == if |old(entries)| < 256 && old(retainedBytes) + Capacity(storage) <= 0x100_0000
                         then old(entries) + [Storage(storage.channel.Clear(), storage.payload.Clear())]
                         else old(entries)
    {
      var cleared := Storage(storage.channel.Clear(), storage.payload.Clear());
      var retained := Room(cleared);
      if retainedBytes + retained > U64_MAX {
        return;
      }
      var next := retainedBytes + retained;
      if |entries| >= MAX_ENTRIES || next > MAX_BYTES {
        return;
      }
      assert (entries + [cleared])[..|entries|] == entries;
      entries := entries + [cleared];
      retainedBytes := next;
    }
  }

  // ---------- Over any number of calls ----------

  datatype Call = Acquire | Release(storage: Storage)

  /** The pooled entries after a history of calls, each holding the lock for its whole length. */
  function After(calls: seq<Call>): seq<Storage> {
    if calls == [] then []
    else
      var before := After(calls[..|calls| - 1]);
      match calls[|calls| - 1]
      case Acquire => if before == [] then [] else before[..|before| - 1]
      case Release(storage) => Released(before, storage)
  }

  /** The pool never outgrows either limit and never holds anything but empty buffers. */
  lemma {:induction false} PoolStaysWithinLimits(calls: seq<Call>)
    ensures |After(calls)| <= MAX_ENTRIES && TotalRoom(After(calls)) <= MAX_BYTES
    ensures forall i | 0 <= i < |After(calls)| :: Emptied(After(calls)[i])
  {
    if calls != [] {
      var before := After(calls[..|calls| - 1]);
      PoolStaysWithinLimits(calls[..|calls| - 1]);
      if calls[|calls| - 1].Release? && After(calls) != before {
        assert After(calls)[..|before|] == before;
      }
    }
  }

  /** Storage is kept exactly if fewer than 256 entries are pooled and no more than 16 MiB are, with its own room. */
  lemma {:induction false} KeptIfRoom(calls: seq<Call>, storage: Storage)
    ensures |After(calls + [Release(storage)])| > |After(calls)| <==>
            |After(calls)| < 256 && TotalRoom(After(calls)) + Capacity(storage) <= 0x100_0000
  {
    assert (calls + [Release(storage)])[..|calls|] == calls;
  }

  /** Acquiring right after a release that was kept gives back that very storage, emptied. */
  lemma {:induction false} ReuseIsLastInFirstOut(calls: seq<Call>, storage: Storage)
    requires |After(calls + [Release(storage)])| > |After(calls)|
    ensures After(calls + [Release(storage)])
         == After(calls) + [Storage(storage.channel.Clear(), storage.payload.Clear())]
    ensures After(calls + [Release(storage), Acquire]) == After(calls)
  {
    var released := calls + [Release(storage)];
    assert released[..|calls|] == calls;
    assert (calls + [Release(storage), Acquire])[..|released|] == released;
    assert (After(calls) + [Storage(storage.channel.Clear(), storage.payload.Clear())])[..|After(calls)|]
        == After(calls);
  }
}
