/** The coordinator's metadata: active files, tombstones, and counters of what was done. */
module MetadataStore {
  import opened Types
  import opened Tombstones
  import opened Cluster

  datatype PathEntry = PathEntry(isFile: bool, meta: FileMeta)

  /** The counters are unsigned 64-bit integers. */
  function Increment(count: nat): nat {
    (count + 1) % UINT64_SPAN
  }

  function Decrement(count: nat): nat {
    (count + UINT64_SPAN - 1) % UINT64_SPAN
  }

  lemma CountDown(n: nat)
    requires n > 0
    ensures Decrement(n % UINT64_SPAN) == (n - 1) % UINT64_SPAN
  {
  }

  lemma CountUp(n: nat)
    ensures Increment(n % 0x1_0000_0000_0000_0000) == (n + 1) % 0x1_0000_0000_0000_0000
  {
  }

  /** What remains to be counted is one more than the counter says, modulo its width. */
  lemma CountDownAhead(count: nat, n: nat)
    requires count < UINT64_SPAN && n > 0 && Increment(count) == n % UINT64_SPAN
    ensures Decrement(count) < UINT64_SPAN && Increment(Decrement(count)) == (n - 1) % UINT64_SPAN
  {
    CountDown(n);
  }

  class Store {
    var entries: map<Name, PathEntry>
    var deleted: seq<Tombstone<FileMeta>>
    var readCount: nat
    var writeCount: nat
    var tombstoneCount: nat

    /** The latest reading of the steady clock taken under the lock. */
    ghost var lastTick: nat

    /** What holds whenever the lock is free. */
    ghost predicate Valid()
      reads this
    {
      && tombstoneCount == |deleted| % UINT64_SPAN
      && Sorted(deleted)
      && UpTo(deleted, lastTick)
    }

    constructor ()
      ensures Valid()
      ensures entries == map[] && deleted == [] && readCount == 0 && writeCount == 0 && lastTick == 0
    {
      entries, deleted := map[], [];
      readCount, writeCount, tombstoneCount, lastTick := 0, 0, 0, 0;
    }

    method PutFile(path: Name, meta: FileMeta)
      requires Valid()
      modifies this`entries, this`writeCount
      ensures Valid()
      ensures entries == old(entries)[path := PathEntry(true, meta)]
      ensures writeCount == Increment(old(writeCount))
    {
      entries := entries[path := PathEntry(true, meta)];
      writeCount := Increment(writeCount);
    }

    method GetFile(path: Name) returns (meta: Option<FileMeta>)
      requires Valid()
      modifies this`readCount
      ensures Valid()
      ensures meta == if path in entries && entries[path].isFile then Some(entries[path].meta) else None
      ensures readCount == Increment(old(readCount))
    {
      readCount := Increment(readCount);
      if path !in entries || !entries[path].isFile {
        return None;
      }
      return Some(entries[path].meta);
    }

    method Exists(path: Name) returns (found: bool)
      requires Valid()
      modifies this`readCount
      ensures Valid()
      ensures found <==> path in entries
      ensures readCount == Increment(old(readCount))
    {
      readCount := Increment(readCount);
      found := path in entries;
    }

    /**
     Moves an active file to the tombstones. `deleteTime` and `trimTime` are the readings of the
     steady clock that the call takes, in this order.
     */
    method DeletePath(path: Name, deleteTime: nat, trimTime: nat)
      requires Valid()
      requires lastTick <= deleteTime <= trimTime
      modifies this`entries, this`deleted, this`writeCount, this`tombstoneCount, this`lastTick
      ensures Valid() && tombstoneCount == |deleted| % 0x1_0000_0000_0000_0000
      ensures lastTick == trimTime
      ensures var was := old(entries);
              if path in was && was[path].isFile then
                var all := old(deleted) + [Tombstone(path, was[path].meta, deleteTime)];
                && entries == was - {path}
                && deleted == (if |all| > 10000 then Kept(all, trimTime) else all)
                && writeCount == Increment(old(writeCount))
              else
                entries == was && deleted == old(deleted) && writeCount == old(writeCount)
    {
      if path in entries && entries[path].isFile {
        CountUp(|deleted|);
        deleted := deleted + [Tombstone(path, entries[path].meta, deleteTime)];
        entries := entries - {path};
        if |deleted| > MAX_DELETED_ENTRIES {
          KeptStaysUpTo(deleted, trimTime, deleteTime);
          CleanupOldTombstones(trimTime);
        }
        writeCount := Increment(writeCount);
        tombstoneCount := Increment(tombstoneCount);
      }
      lastTick := trimTime;
    }

    /**
     Trims from the front, as part of DeletePath: the new tombstone is in the queue already, but
     not yet in the counter.
     */
    method CleanupOldTombstones(now: nat)
      requires Sorted(deleted)
      requires Increment(tombstoneCount) == |deleted| % UINT64_SPAN && tombstoneCount < UINT64_SPAN
      modifies this`deleted, this`tombstoneCount
      ensures deleted == Kept(old(deleted), now)
      ensures Sorted(deleted)
      ensures Increment(tombstoneCount) == |deleted| % UINT64_SPAN && tombstoneCount < UINT64_SPAN
    {
      ghost var was, popped := deleted, 0;
      while deleted != []
        invariant 0 <= popped <= ExpiredPrefix(was, now) && deleted == was[popped..]
        invariant Increment(tombstoneCount) == |deleted| % UINT64_SPAN && tombstoneCount < UINT64_SPAN
        decreases |deleted|
      {
        assert was[popped] == deleted[0];
        if !Expired(deleted[0], now) {
          break;
        }
        CountDownAhead(tombstoneCount, |deleted|);
        deleted := deleted[1..];
        tombstoneCount := Decrement(tombstoneCount);
        popped := popped + 1;
      }
      SortedExpiresFirst(was, now);
      PopIsScanExactly(was, now);
      KeptStaysSorted(was, now);
    }

    /**
     The cleanup pass: `deleter`, if there is one, is called once for each expired tombstone, in
     order, and these tombstones go.
     */
    method CleanupTombstones(deleter: ChunkDeleter?, now: nat)
      requires Valid() && lastTick <= now
      requires deleter != null ==> deleter.Valid()
      modifies this`deleted, this`tombstoneCount, this`lastTick
      modifies deleter, if deleter == null then {} else {deleter.nodes}
      ensures Valid() && lastTick == now && tombstoneCount == |deleted| % 0x1_0000_0000_0000_0000
      ensures deleted == Kept(old(deleted), now)
      ensures deleter != null ==>
                var metas := Metas(Condemned(old(deleted), now));
                && deleter.Valid() && deleter.nodes.down == old(deleter.nodes.down)
                && deleter.calls == old(deleter.calls) + metas
    {
      KeptStaysSorted(deleted, now);
      KeptStaysUpTo(deleted, now, lastTick);
      CleanupOldTombstonesInternal(deleter, now);
      lastTick := now;
    }

    method CleanupOldTombstonesInternal(deleter: ChunkDeleter?, now: nat)
      requires tombstoneCount == |deleted| % UINT64_SPAN
      requires deleter != null ==> deleter.Valid()
      modifies this`deleted, this`tombstoneCount
      modifies deleter, if deleter == null then {} else {deleter.nodes}
      ensures tombstoneCount == |deleted| % UINT64_SPAN
      ensures deleted == Kept(old(deleted), now)
      ensures deleter != null ==>
                var metas := Metas(Condemned(old(deleted), now));
                && deleter.Valid() && deleter.nodes.down == old(deleter.nodes.down)
                && deleter.calls == old(deleter.calls) + metas
    {
      ghost var result, metas, all := Kept(deleted, now), [], Metas(Condemned(deleted, now));
      var it := 0;
      ScansStart(deleted, now);
      while it < |deleted|
        invariant it <= |deleted| && Scans(deleted, it, now, result, metas, all)
        invariant tombstoneCount == |deleted| % UINT64_SPAN
        invariant deleter != null ==>
                    && deleter.Valid() && deleter.nodes.down == old(deleter.nodes.down)
                    && deleter.calls == old(deleter.calls) + metas
        decreases |deleted| - it
      {
        ScansOn(deleted, it, now, result, metas, all);
        if Expired(deleted[it], now) {
          var meta := deleted[it].meta;
          if deleter != null {
            deleter.Delete(meta);
          }
          CountDown(|deleted|);
          deleted := deleted[..it] + deleted[it + 1..];
          tombstoneCount := Decrement(tombstoneCount);
          metas := metas + [meta];
        } else {
          it := it + 1;
        }
      }
      ScansDone(deleted, now, result, metas, all);
    }
  }
}
