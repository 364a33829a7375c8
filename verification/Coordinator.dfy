/**
 The coordinator service and its clients as single-threaded objects: the bodies of its calls, one
 after the other, on a fixed set of reachable nodes. (Module Protocol lets the same calls interleave.)
 */
module Coordinator {
  import opened Types
  import opened Chunking
  import opened Framing
  import opened Placement
  import opened Tombstones
  import opened NodeIds
  import opened Cluster
  import opened MetadataStore

  /** The chunk id the counter hands out `k` calls after it stood at `counter`. */
  function IdAfter(counter: nat, k: nat): ChunkId {
    (counter + k) % UINT64_SPAN
  }

  /** Chunk `k` of an upload that starts when the counters stand at `counter` and `index`. */
  function Planned(order: seq<NodeId>, counter: nat, index: nat, k: nat): ChunkInfo
    requires |order| > 0
  {
    ChunkInfo(IdAfter(counter, k), Select(order, StartOf(index + k, |order|), REPLICATION_FACTOR), REPLICATION_FACTOR)
  }

  function Plan(order: seq<NodeId>, counter: nat, index: nat, n: nat): seq<ChunkInfo>
    requires |order| > 0 || n == 0
  {
    seq(n, k requires 0 <= k < n => Planned(order, counter, index, k))
  }

  /** Every node of the chunk answers. */
  predicate AllAnswer(registry: Registry, down: set<Addr>, info: ChunkInfo) {
    forall j :: 0 <= j < |info.nodeIds| ==> Answers(registry, down, info.nodeIds[j], info.chunkId)
  }

  /** Every copy of the chunk is written. */
  ghost predicate ChunkStored(registry: Registry, down: set<Addr>, disk: Disk, info: ChunkInfo, data: Bytes) {
    forall loc :: TargetsChunk(registry, down, info, loc) ==> loc in disk && disk[loc] == data
  }

  /** Only copies of the listed chunks may differ. */
  ghost predicate OnlyTargetsDiffer(registry: Registry, down: set<Addr>, infos: seq<ChunkInfo>, disk: Disk, disk': Disk) {
    forall loc :: (forall k :: 0 <= k < |infos| ==> !TargetsChunk(registry, down, infos[k], loc)) ==>
                    (loc in disk <==> loc in disk') && (loc in disk ==> disk[loc] == disk'[loc])
  }

  /** The chunks of a planned upload, one by one. */
  lemma PlanIs(order: seq<NodeId>, counter: nat, index: nat, n: nat, k: nat)
    requires order != [] && k < n
    ensures |Plan(order, counter, index, n)| == n
    ensures Plan(order, counter, index, n)[k] ==
            ChunkInfo((counter + k) % 0x1_0000_0000_0000_0000, Select(order, StartOf(index + k, |order|), 3), 3)
  {
  }

  lemma StartOfIndex(index: nat, n: nat)
    requires index < UINT32_SPAN && n > 0
    ensures StartOf(index, n) == index % n
  {
  }

  lemma SelectNext<T>(order: seq<T>, start: nat, i: nat)
    requires |order| > 0
    ensures Select(order, start, i + 1) == Select(order, start, i) + [order[(start + i) % |order|]]
  {
  }

  class Service {
    const store: Store
    const nodes: Nodes
    var registry: Registry
    var order: seq<NodeId>        // the iteration order of the registry's hash table
    var nextNodeId: NodeId
    var nextNodeIndex: nat
    var chunkIdCounter: nat

    ghost predicate Valid()
      reads this, store
    {
      && store.Valid()
      && IsOrderOf(order, registry.Keys)
      && nextNodeIndex < UINT32_SPAN && chunkIdCounter < UINT64_SPAN
      && "" !in store.entries
    }

    constructor (store: Store, nodes: Nodes)
      requires store.Valid() && store.entries == map[]
      ensures Valid() && this.store == store && this.nodes == nodes
      ensures registry == map[] && nextNodeId == 1 && nextNodeId == IdOf(0) && nextNodeIndex == 0 && chunkIdCounter == 0
    {
      this.store, this.nodes := store, nodes;
      registry, order := map[], [];
      nextNodeId, nextNodeIndex, chunkIdCounter := 1, 0, 0;
    }

    // -------------------------------------------------------------- registration

    /**
     Registers a data node, unless its address is taken. `newOrder` is the iteration order the hash
     table has after the insertion.
     */
    method RegisterDataNode(addr: Addr, newOrder: seq<NodeId>) returns (success: bool, nodeId: NodeId)
      requires Valid() && IsOrderOf(newOrder, registry.Keys + {nextNodeId})
      modifies this`registry, this`order, this`nextNodeId
      ensures Valid()
      ensures success <==> addr !in old(registry).Values
      ensures success ==> nodeId == old(nextNodeId) && registry == old(registry)[nodeId := addr] && nextNodeId == Wrap32(nodeId + 1)
      ensures !success ==> registry == old(registry) && nextNodeId == old(nextNodeId)
      ensures order == if success then newOrder else old(order)
    {
      for i := 0 to |order|
        invariant forall j :: 0 <= j < i ==> order[j] in registry && registry[order[j]] != addr
      {
        assert order[i] in (set x | x in order);
        if registry[order[i]] == addr {
          return false, 0;
        }
      }
      forall id | id in registry
        ensures registry[id] != addr
      {
        assert id in (set x | x in order);
      }
      nodeId := nextNodeId;
      nextNodeId := Wrap32(nextNodeId + 1);
      registry, order := registry[nodeId := addr], newOrder;
      success := true;
    }

    method UnregisterDataNode(nodeId: NodeId, newOrder: seq<NodeId>) returns (status: Status)
      requires Valid() && IsOrderOf(newOrder, registry.Keys - {nodeId})
      modifies this`registry, this`order
      ensures Valid()
      ensures status == if nodeId in old(registry) then Ok else NotFound
      ensures registry == old(registry) - {nodeId}
      ensures order == if status == Ok then newOrder else old(order)
    {
      if nodeId !in registry {
        assert registry - {nodeId} == registry;
        return NotFound;
      }
      registry, order := registry - {nodeId}, newOrder;
      status := Ok;
    }

    // -------------------------------------------------------------- placement

    method SelectNodesForReplication(replicationFactor: int) returns (selected: seq<NodeId>)
      requires Valid()
      modifies this`nextNodeIndex
      ensures Valid()
      ensures replicationFactor <= 0 || order == [] ==> selected == [] && nextNodeIndex == old(nextNodeIndex)
      ensures replicationFactor > 0 && order != [] ==>
                && selected == Select(order, StartOf(old(nextNodeIndex), |order|), replicationFactor)
                && nextNodeIndex == (old(nextNodeIndex) + 1) % 0x1_0000_0000
    {
      selected := [];
      if replicationFactor <= 0 || order == [] {
        return;
      }
      var start := nextNodeIndex % |order|;
      StartOfIndex(nextNodeIndex, |order|);
      nextNodeIndex := (nextNodeIndex + 1) % UINT32_SPAN;
      for i := 0 to replicationFactor
        modifies {}
        invariant selected == Select(order, start, i)
      {
        SelectNext(order, start, i);
        selected := selected + [order[(start + i) % |order|]];
      }
    }

    // -------------------------------------------------------------- writing a chunk

    method DistributeChunkToSingleNode(chunkId: ChunkId, data: Bytes, nodeId: NodeId) returns (ok: bool)
      modifies nodes`disk
      ensures ok <==> Answers(registry, nodes.down, nodeId, chunkId)
      ensures nodes.disk == if ok then old(nodes.disk)[Loc(registry[nodeId], chunkId) := data] else old(nodes.disk)
    {
      if nodeId !in registry {
        return false;
      }
      ok := nodes.PutChunk(registry[nodeId], chunkId, data);
    }

    /** All replicas are written; the call fails if any of them does, or if there are none. */
    method DistributeChunkToNodes(info: ChunkInfo, data: Bytes) returns (ok: bool)
      modifies nodes`disk
      ensures ok <==> info.nodeIds != [] && AllAnswer(registry, nodes.down, info)
      ensures ChunkStored(registry, nodes.down, nodes.disk, info, data)
      ensures forall j :: 0 <= j < |info.nodeIds| && info.nodeIds[j] in registry && registry[info.nodeIds[j]] !in nodes.down
                          && info.chunkId < 0x8000_0000 ==>
                            var loc := Loc(registry[info.nodeIds[j]], info.chunkId); loc in nodes.disk && nodes.disk[loc] == data
      ensures OnlyTargetsDiffer(registry, nodes.down, [info], old(nodes.disk), nodes.disk)
    {
      ok := info.nodeIds != [];
      ghost var was := nodes.disk;
      for j := 0 to |info.nodeIds|
        invariant ok <==> info.nodeIds != [] && forall b :: 0 <= b < j ==> Answers(registry, nodes.down, info.nodeIds[b], info.chunkId)
        invariant forall b, loc :: 0 <= b < j && TargetsReplica(registry, nodes.down, info, b, loc) ==> loc in nodes.disk && nodes.disk[loc] == data
        invariant forall loc :: !TargetsChunk(registry, nodes.down, info, loc) ==>
                                  (loc in was <==> loc in nodes.disk) && (loc in was ==> was[loc] == nodes.disk[loc])
      {
        var written := DistributeChunkToSingleNode(info.chunkId, data, info.nodeIds[j]);
        if written {
          assert TargetsReplica(registry, nodes.down, info, j, Loc(registry[info.nodeIds[j]], info.chunkId));
        } else {
          ok := false;
        }
      }
      assert [info][0] == info;
      forall j | 0 <= j < |info.nodeIds| && Answers(registry, nodes.down, info.nodeIds[j], info.chunkId)
        ensures TargetsReplica(registry, nodes.down, info, j, Loc(registry[info.nodeIds[j]], info.chunkId))
      {
      }
    }

    // -------------------------------------------------------------- uploads

    /**
     One upload. It is refused if its name is taken at its first message, or missing; otherwise it
     succeeds exactly when every node selected for every chunk answers, and then all chunks are
     stored on all their nodes before the name becomes visible. A failed upload is never visible; it
     has used up ids and selections, and written copies, up to the first chunk that failed, and no more.
     The streamed bytes must not exceed what the 32-bit chunk arithmetic can address.
     */
    method PutFile(requests: seq<PutFileRequest>) returns (status: Status)
      requires Valid() && (Accepted(requests, store.entries) ==> |Carried(requests)| <= MAX_UPLOAD)
      modifies this`nextNodeIndex, this`chunkIdCounter, store`entries, store`readCount, store`writeCount, nodes`disk
      ensures Valid()
      ensures status == UploadStatus(requests, old(store.entries), registry, nodes.down, order, old(chunkIdCounter), old(nextNodeIndex))
      ensures status == AlreadyExists <==>
                requests != [] && requests[0].filename in old(store.entries) && old(store.entries)[requests[0].filename].isFile
      ensures status == InvalidArgument <==> requests == [] || requests[0].filename == ""
      ensures status == Ok || status == Internal || status == AlreadyExists || status == InvalidArgument
      ensures status == Ok || status == Internal ==>
                (status == Ok <==> AllNodesTake(registry, nodes.down, order, old(chunkIdCounter), old(nextNodeIndex), |Carried(requests)|))
      ensures (status == Ok || status == Internal) && Carried(requests) == [] ==> status == Ok
      ensures (status == Ok || status == Internal) && Carried(requests) != [] && registry == map[] ==> status == Internal
      ensures status == Ok || status == Internal ==>
                registry != map[] && (forall id :: id in registry ==> registry[id] !in nodes.down)
                && old(chunkIdCounter) + (|Carried(requests)| + 1048575) / 1048576 <= 0x8000_0000 ==>
                  status == Ok
      ensures status != Ok ==> store.entries == old(store.entries)
      ensures store.readCount == if requests == [] then old(store.readCount) else Increment(old(store.readCount))
      ensures store.writeCount == if status == Ok then Increment(old(store.writeCount)) else old(store.writeCount)
      ensures status == Ok ==>
                var name, data := requests[0].filename, Carried(requests);
                var plan := Plan(order, old(chunkIdCounter), old(nextNodeIndex), NumChunks(|data|));
                && store.entries == old(store.entries)[name := PathEntry(true, FileMeta(|data|, CHUNK_SIZE, plan))]
                && (forall k :: 0 <= k < |plan| ==> ChunkStored(registry, nodes.down, nodes.disk, plan[k], Slice(data, k)))
      ensures var data, c0, x0 := Carried(requests), old(chunkIdCounter), old(nextNodeIndex);
              var turns := if Accepted(requests, old(store.entries)) then Turns(registry, nodes.down, order, c0, x0, 0, NumChunks(|data|)) else 0;
              Tried(registry, nodes.down, order, c0, x0, data, turns, chunkIdCounter, nextNodeIndex, old(nodes.disk), nodes.disk)
    {
      var filename, fileData := "", [];
      assert requests[..0] == [];
      for i := 0 to |requests|
        modifies store`readCount
        invariant i > 0 ==> filename == requests[0].filename && (filename !in store.entries || !store.entries[filename].isFile)
        invariant i == 0 ==> filename == ""
        invariant fileData == Carried(requests[..i])
        invariant store.Valid()
        invariant store.readCount == if i == 0 then old(store.readCount) else Increment(old(store.readCount))
      {
        if i == 0 {
          filename := requests[i].filename;
          var found := store.GetFile(filename);
          if found.Some? {
            return AlreadyExists;
          }
        }
        CarriedUpTo(requests, i, i + 1);
        fileData := fileData + requests[i].data;
      }
      assert requests[..|requests|] == requests;
      if filename == "" {
        return InvalidArgument;
      }

      StoresExactly(registry, nodes.down, order, chunkIdCounter, nextNodeIndex, |fileData|);
      status := StoreAndCommit(filename, fileData);
    }

    /** The second half of PutFile: all chunks stored first, the metadata committed then. */
    method StoreAndCommit(filename: Name, fileData: Bytes) returns (status: Status)
      requires Valid() && |fileData| <= MAX_UPLOAD && filename != ""
      modifies this`nextNodeIndex, this`chunkIdCounter, store`entries, store`writeCount, nodes`disk
      ensures Valid()
      ensures status == if CanStore(registry, nodes.down, order, old(chunkIdCounter), old(nextNodeIndex), NumChunks(|fileData|)) then Ok else Internal
      ensures status != Ok ==> store.entries == old(store.entries) && store.writeCount == old(store.writeCount)
      ensures status == Ok ==>
                var plan := Plan(order, old(chunkIdCounter), old(nextNodeIndex), NumChunks(|fileData|));
                && store.entries == old(store.entries)[filename := PathEntry(true, FileMeta(|fileData|, CHUNK_SIZE, plan))]
                && store.writeCount == Increment(old(store.writeCount))
                && (forall k :: 0 <= k < |plan| ==> ChunkStored(registry, nodes.down, nodes.disk, plan[k], Slice(fileData, k)))
      ensures var c0, x0 := old(chunkIdCounter), old(nextNodeIndex);
              var turns := Turns(registry, nodes.down, order, c0, x0, 0, NumChunks(|fileData|));
              Tried(registry, nodes.down, order, c0, x0, fileData, turns, chunkIdCounter, nextNodeIndex, old(nodes.disk), nodes.disk)
    {
      var chunks;
      chunks, status := StoreChunks(fileData);
      if status == Ok {
        store.PutFile(filename, FileMeta(|fileData|, CHUNK_SIZE, chunks));
      }
    }

    /** The chunk loop of PutFile. Its offset arithmetic is 32-bit, and never overflows within the limit. */
    method StoreChunks(fileData: Bytes) returns (chunks: seq<ChunkInfo>, status: Status)
      requires Valid() && |fileData| <= MAX_UPLOAD
      modifies this`nextNodeIndex, this`chunkIdCounter, nodes`disk
      ensures Valid()
      ensures status == if CanStore(registry, nodes.down, order, old(chunkIdCounter), old(nextNodeIndex), NumChunks(|fileData|)) then Ok else Internal
      ensures var c0, x0, n := old(chunkIdCounter), old(nextNodeIndex), NumChunks(|fileData|);
              var turns := Turns(registry, nodes.down, order, c0, x0, 0, n);
              && Tried(registry, nodes.down, order, c0, x0, fileData, turns, chunkIdCounter, nextNodeIndex, old(nodes.disk), nodes.disk)
              && (status == Ok ==> turns == n && chunks == Planning(order, c0, x0, n))
    {
      var chunkSize: int32 := 1048576;
      var numChunks: int32 := ((|fileData| + chunkSize as int - 1) / chunkSize as int) as int32;
      chunks := [];
      ghost var c0, x0, disk0 := chunkIdCounter, nextNodeIndex, nodes.disk;
      var i: int32 := 0;
      assert numChunks as int == NumChunks(|fileData|);
      LoopStarts(registry, nodes.down, order, c0, x0, fileData, numChunks as int, nodes.disk);
      while i < numChunks
        invariant 0 <= i <= numChunks && chunks == Planning(order, c0, x0, i as int)
        invariant StillStores(registry, nodes.down, order, c0, x0, i as int, numChunks as int)
        invariant Tried(registry, nodes.down, order, c0, x0, fileData, i as int, chunkIdCounter, nextNodeIndex, disk0, nodes.disk)
      {
        ghost var counter, index, before := chunkIdCounter, nextNodeIndex, nodes.disk;
        var info, ok := StoreNextChunk(fileData, i, chunkSize);
        LoopTurn(registry, nodes.down, order, c0, x0, fileData, i as int, numChunks as int, counter, index, disk0, before,
                 info, ok, chunkIdCounter, nextNodeIndex, nodes.disk);
        if !ok {
          return chunks, Internal;
        }
        chunks := chunks + [info];
        i := i + 1;
      }
      LoopEnds(registry, nodes.down, order, c0, x0, numChunks as int);
      status := Ok;
    }

    /** One turn of the loop: an id is used up even if there is no node for the chunk. */
    method StoreNextChunk(fileData: Bytes, i: int32, chunkSize: int32) returns (info: ChunkInfo, ok: bool)
      requires Valid() && chunkSize as int == CHUNK_SIZE
      requires |fileData| <= MAX_UPLOAD && 0 <= i as int < NumChunks(|fileData|)
      modifies this`nextNodeIndex, this`chunkIdCounter, nodes`disk
      ensures Valid() && chunkIdCounter == IdAfter(old(chunkIdCounter), 1)
      ensures chunkIdCounter == (old(chunkIdCounter) + 1) % 0x1_0000_0000_0000_0000
      ensures info.chunkId == old(chunkIdCounter) && info.replicationFactor == 3 && |info.nodeIds| == if order == [] then 0 else 3
      ensures order == [] ==> !ok && nextNodeIndex == old(nextNodeIndex) && nodes.disk == old(nodes.disk)
      ensures order != [] ==>
                && info == Planned(order, old(chunkIdCounter), old(nextNodeIndex), 0)
                && nextNodeIndex == (old(nextNodeIndex) + 1) % UINT32_SPAN
                && (ok <==> AllAnswer(registry, nodes.down, info))
                && ChunkStored(registry, nodes.down, nodes.disk, info, Slice(fileData, i as int))
                && OnlyTargetsDiffer(registry, nodes.down, [info], old(nodes.disk), nodes.disk)
    {
      var chunkId := chunkIdCounter;
      chunkIdCounter := (chunkIdCounter + 1) % UINT64_SPAN;
      var nodeIds := SelectNodesForReplication(REPLICATION_FACTOR);
      info := ChunkInfo(chunkId, nodeIds, REPLICATION_FACTOR);
      if order != [] {
        PlannedNow(order, chunkId, old(nextNodeIndex));
      }
      if nodeIds == [] {
        return info, false;
      }
      var start := (i * chunkSize) as int;
      var end := Min(start + chunkSize as int, |fileData|);
      assert fileData[start..end] == Slice(fileData, i as int);
      ok := DistributeChunkToNodes(info, fileData[start..end]);
    }

    // -------------------------------------------------------------- downloads

    method ReadChunkWithFallback(chunkId: ChunkId, nodeIds: seq<NodeId>) returns (result: Option<Bytes>)
      ensures result == ReadChunk(registry, nodes.down, nodes.disk, chunkId, nodeIds)
    {
      for i := 0 to |nodeIds|
        invariant ReadChunk(registry, nodes.down, nodes.disk, chunkId, nodeIds) == ReadChunk(registry, nodes.down, nodes.disk, chunkId, nodeIds[i..])
      {
        var id := nodeIds[i];
        assert nodeIds[i..][1..] == nodeIds[i + 1..];
        if id !in registry {
          continue;
        }
        var ok, data := nodes.GetChunk(registry[id], chunkId);
        if ok {
          return Some(data);
        }
      }
      return None;
    }

    /**
     One download. The replies sent are the chunks in order up to the first that no listed node hands
     out, or up to the first write that fails; the call is Ok exactly when all chunks have been sent.
     `takes` is how many replies the client takes before a write fails, None if it takes them all.
     */
    method GetFile(filename: Name, takes: Option<nat>) returns (status: Status, sent: seq<Bytes>)
      requires Valid()
      modifies store`readCount
      ensures Valid()
      ensures filename !in store.entries || !store.entries[filename].isFile ==> status == NotFound && sent == []
      ensures filename in store.entries && store.entries[filename].isFile ==>
                var chunks := store.entries[filename].meta.chunks;
                && sent == Taken(ReadChunks(registry, nodes.down, nodes.disk, chunks), takes)
                && sent <= ReadChunks(registry, nodes.down, nodes.disk, chunks)
                && |sent| == (var read := |ReadChunks(registry, nodes.down, nodes.disk, chunks)|;
                              if takes.Some? && takes.value < read then takes.value else read)
                && status == if |sent| == |chunks| then Ok else Internal
      ensures store.readCount == Increment(old(store.readCount))
    {
      sent := [];
      var meta := store.GetFile(filename);
      if meta.None? {
        return NotFound, [];
      }
      var ok;
      sent, ok := SendChunks(meta.value.chunks, takes);
      status := if ok then Ok else Internal;
    }

    /** The chunk loop of GetFile. */
    method SendChunks(chunks: seq<ChunkInfo>, takes: Option<nat>) returns (sent: seq<Bytes>, ok: bool)
      ensures sent == Taken(ReadChunks(registry, nodes.down, nodes.disk, chunks), takes)
      ensures ok <==> |sent| == |chunks|
    {
      sent := [];
      assert chunks[0..] == chunks;
      for i := 0 to |chunks|
        invariant SentSoFar(registry, nodes.down, nodes.disk, chunks, i, sent)
        invariant takes.Some? ==> i <= takes.value
      {
        var data := ReadChunkWithFallback(chunks[i].chunkId, chunks[i].nodeIds);
        SentNext(registry, nodes.down, nodes.disk, chunks, i, sent);
        if data.None? {
          return sent, false;
        }
        if takes.Some? && |sent| == takes.value {
          return sent, false;
        }
        sent := sent + [data.value];
      }
      ok := true;
    }

    // -------------------------------------------------------------- deletion

    /** The name goes at once, and the file's chunks stay until a cleanup pass. */
    method DeleteFile(path: Name, deleteTime: nat, trimTime: nat) returns (status: Status)
      requires Valid() && store.lastTick <= deleteTime <= trimTime
      modifies store
      ensures Valid()
      ensures status == if path in old(store.entries) && old(store.entries)[path].isFile then Ok else NotFound
      ensures store.entries == if status == Ok then old(store.entries) - {path} else old(store.entries)
      ensures status == Ok ==>
                var all := old(store.deleted) + [Tombstone(path, old(store.entries)[path].meta, deleteTime)];
                store.deleted == if |all| > MAX_DELETED_ENTRIES then Kept(all, trimTime) else all
      ensures status != Ok ==> store.deleted == old(store.deleted)
      ensures store.lastTick == if status == Ok then trimTime else old(store.lastTick)
      ensures store.readCount == Increment(old(store.readCount))
      ensures store.writeCount == if status == Ok then Increment(old(store.writeCount)) else old(store.writeCount)
    {
      var meta := store.GetFile(path);
      if meta.None? {
        return NotFound;
      }
      store.DeletePath(path, deleteTime, trimTime);
      status := Ok;
    }

    /**
     One pass of the cleanup worker: the expired tombstones go, every copy of their chunks on a
     registered, answering node goes, and no other chunk file changes.
     */
    method CleanupPass(now: nat)
      requires Valid() && store.lastTick <= now
      modifies store`deleted, store`tombstoneCount, store`lastTick, nodes
      ensures Valid() && store.entries == old(store.entries) && store.lastTick == now
      ensures store.deleted == Kept(old(store.deleted), now)
      ensures nodes.down == old(nodes.down)
      ensures nodes.disk == Cleaned(registry, nodes.down, Metas(Condemned(old(store.deleted), now)), old(nodes.disk))
    {
      var deleter := new ChunkDeleter(registry, nodes);
      ghost var metas := Metas(Condemned(store.deleted, now));
      store.CleanupTombstones(deleter, now);
      assert deleter.calls == [] + metas == metas;
    }
  }

  /** The replies that go through to a client that takes so many. */
  function Taken(replies: seq<Bytes>, takes: Option<nat>): seq<Bytes> {
    if takes.Some? && takes.value < |replies| then replies[..takes.value] else replies
  }

  /** The first `i` chunks have been sent. */
  ghost predicate SentSoFar(registry: Registry, down: set<Addr>, disk: Disk, chunks: seq<ChunkInfo>, i: nat, sent: seq<Bytes>) {
    i <= |chunks| && |sent| == i && ReadChunks(registry, down, disk, chunks) == sent + ReadChunks(registry, down, disk, chunks[i..])
  }

  lemma ReadChunksFrom(registry: Registry, down: set<Addr>, disk: Disk, chunks: seq<ChunkInfo>, i: nat)
    requires i < |chunks|
    ensures var read := ReadChunk(registry, down, disk, chunks[i].chunkId, chunks[i].nodeIds);
            ReadChunks(registry, down, disk, chunks[i..]) ==
            if read.None? then [] else [read.value] + ReadChunks(registry, down, disk, chunks[i + 1..])
  {
    assert chunks[i..][1..] == chunks[i + 1..];
  }

  lemma SentNext(registry: Registry, down: set<Addr>, disk: Disk, chunks: seq<ChunkInfo>, i: nat, sent: seq<Bytes>)
    requires i < |chunks| && SentSoFar(registry, down, disk, chunks, i, sent)
    ensures var read := ReadChunk(registry, down, disk, chunks[i].chunkId, chunks[i].nodeIds);
            var all := ReadChunks(registry, down, disk, chunks);
            if read.None? then all == sent
            else |all| > i && all[..i] == sent && SentSoFar(registry, down, disk, chunks, i + 1, sent + [read.value])
  {
    ReadChunksFrom(registry, down, disk, chunks, i);
    var read, rest := ReadChunk(registry, down, disk, chunks[i].chunkId, chunks[i].nodeIds), ReadChunks(registry, down, disk, chunks[i + 1..]);
    if read.Some? {
      assert sent + ([read.value] + rest) == sent + [read.value] + rest;
    }
  }

  /** The upload passes the checks on its name. */
  predicate Accepted(requests: seq<PutFileRequest>, entries: map<Name, PathEntry>) {
    && |requests| > 0 && requests[0].filename != ""
    && !(requests[0].filename in entries && entries[requests[0].filename].isFile)
  }

  /** The status of an upload, from what the coordinator sees when it starts. */
  function UploadStatus(requests: seq<PutFileRequest>, entries: map<Name, PathEntry>, registry: Registry, down: set<Addr>,
                        order: seq<NodeId>, counter: nat, index: nat): Status
  {
    if |requests| == 0 then InvalidArgument
    else if requests[0].filename in entries && entries[requests[0].filename].isFile then AlreadyExists
    else if requests[0].filename == "" then InvalidArgument
    else if CanStore(registry, down, order, counter, index, NumChunks(|Carried(requests)|)) then Ok
    else Internal
  }

  /** Every node that would be selected for the next `n` chunks answers. */
  predicate CanStore(registry: Registry, down: set<Addr>, order: seq<NodeId>, counter: nat, index: nat, n: nat) {
    n == 0 || (order != [] && forall k :: 0 <= k < n ==> AllAnswer(registry, down, Planned(order, counter, index, k)))
  }

  /**
   Every node selected for every chunk of an upload of `size` bytes takes its copy: none is down, and no
   chunk id is beyond what a data node can parse. Without bytes there is nothing to take.
   */
  ghost predicate AllNodesTake(registry: Registry, down: set<Addr>, order: seq<NodeId>, counter: nat, index: nat, size: nat) {
    size == 0 || (order != [] && forall k :: 0 <= k < NumChunks(size) ==> NodesTake(registry, down, order, counter, index, k))
  }

  /** Every node selected for chunk `k` is registered and up, and can parse the chunk's id. */
  ghost predicate NodesTake(registry: Registry, down: set<Addr>, order: seq<NodeId>, counter: nat, index: nat, k: nat)
    requires order != []
  {
    && (counter + k) % 0x1_0000_0000_0000_0000 < 0x8000_0000
    && forall id :: id in Select(order, StartOf(index + k, |order|), 3) ==> id in registry && registry[id] !in down
  }

  /** What decides an upload, in terms of the nodes. */
  lemma StoresExactly(registry: Registry, down: set<Addr>, order: seq<NodeId>, counter: nat, index: nat, size: nat)
    requires IsOrderOf(order, registry.Keys) && counter < UINT64_SPAN
    ensures CanStore(registry, down, order, counter, index, NumChunks(size)) <==> AllNodesTake(registry, down, order, counter, index, size)
    ensures size == 0 ==> CanStore(registry, down, order, counter, index, NumChunks(size))
    ensures size > 0 && registry == map[] ==> !CanStore(registry, down, order, counter, index, NumChunks(size))
    ensures registry != map[] && (forall id :: id in registry ==> registry[id] !in down)
            && counter + (size + 1048575) / 1048576 <= 0x8000_0000 ==>
              CanStore(registry, down, order, counter, index, NumChunks(size))
  {
    OrderIsEmpty(order, registry.Keys);
    if order != [] {
      forall k | 0 <= k < NumChunks(size)
        ensures AllAnswer(registry, down, Planned(order, counter, index, k)) <==> NodesTake(registry, down, order, counter, index, k)
      {
        AnswersOfPlanned(registry, down, order, counter, index, k);
      }
      if (forall id :: id in registry ==> registry[id] !in down) && counter + (size + 1048575) / 1048576 <= 0x8000_0000 {
        forall k | 0 <= k < NumChunks(size)
          ensures AllAnswer(registry, down, Planned(order, counter, index, k))
        {
          UpNodesAnswer(registry, down, order, counter, index, k);
        }
      }
    }
  }

  lemma OrderIsEmpty(order: seq<NodeId>, keys: set<NodeId>)
    requires IsOrderOf(order, keys)
    ensures order == [] <==> keys == {}
  {
    var listed := set x | x in order;
    if order == [] {
      assert listed == {};
    } else {
      assert order[0] in listed;
    }
  }

  lemma AnswersOfInfo(registry: Registry, down: set<Addr>, info: ChunkInfo)
    requires info.nodeIds != []
    ensures AllAnswer(registry, down, info) <==>
            info.chunkId < 0x8000_0000 && forall id :: id in info.nodeIds ==> id in registry && registry[id] !in down
  {
    if info.chunkId < 0x8000_0000 && forall id :: id in info.nodeIds ==> id in registry && registry[id] !in down {
      forall j | 0 <= j < |info.nodeIds|
        ensures Answers(registry, down, info.nodeIds[j], info.chunkId)
      {
        assert info.nodeIds[j] in info.nodeIds;
      }
    }
    if AllAnswer(registry, down, info) {
      assert Answers(registry, down, info.nodeIds[0], info.chunkId);
      forall id | id in info.nodeIds
        ensures id in registry && registry[id] !in down
      {
        var j :| 0 <= j < |info.nodeIds| && info.nodeIds[j] == id;
        assert Answers(registry, down, info.nodeIds[j], info.chunkId);
      }
    }
  }

  lemma AnswersOfPlanned(registry: Registry, down: set<Addr>, order: seq<NodeId>, counter: nat, index: nat, k: nat)
    requires order != []
    ensures AllAnswer(registry, down, Planned(order, counter, index, k)) <==> NodesTake(registry, down, order, counter, index, k)
  {
    AnswersOfInfo(registry, down, Planned(order, counter, index, k));
  }

  lemma UpNodesAnswer(registry: Registry, down: set<Addr>, order: seq<NodeId>, counter: nat, index: nat, k: nat)
    requires IsOrderOf(order, registry.Keys) && order != []
    requires (forall id :: id in registry ==> registry[id] !in down) && counter + k < 0x8000_0000
    ensures AllAnswer(registry, down, Planned(order, counter, index, k))
  {
    var info := Planned(order, counter, index, k);
    forall j | 0 <= j < |info.nodeIds|
      ensures Answers(registry, down, info.nodeIds[j], info.chunkId)
    {
      assert info.nodeIds[j] in order;
      assert info.nodeIds[j] in (set x | x in order);
    }
  }

  /**
   How far the loop over `n` chunks gets from chunk `k` on: past the first chunk that has no nodes or
   one that does not answer.
   */
  function Turns(registry: Registry, down: set<Addr>, order: seq<NodeId>, counter: nat, index: nat, k: nat, n: nat): (t: nat)
    requires k <= n
    ensures k <= t <= n
    decreases n - k
  {
    if k == n then n
    else if order == [] || !AllAnswer(registry, down, Planned(order, counter, index, k)) then k + 1
    else Turns(registry, down, order, counter, index, k + 1, n)
  }

  /** The first `k` of `n` chunks can be stored. */
  ghost predicate StillStores(registry: Registry, down: set<Addr>, order: seq<NodeId>, counter: nat, index: nat, k: nat, n: nat) {
    && k <= n && CanStore(registry, down, order, counter, index, k)
    && Turns(registry, down, order, counter, index, 0, n) == Turns(registry, down, order, counter, index, k, n)
  }

  lemma StillStoresNext(registry: Registry, down: set<Addr>, order: seq<NodeId>, counter: nat, index: nat, k: nat, n: nat)
    requires k < n && StillStores(registry, down, order, counter, index, k, n)
    ensures if order != [] && AllAnswer(registry, down, Planned(order, counter, index, k))
            then StillStores(registry, down, order, counter, index, k + 1, n)
            else Turns(registry, down, order, counter, index, 0, n) == k + 1 && !CanStore(registry, down, order, counter, index, n)
  {
  }

  /** The first `k` chunks, as far as there are nodes to plan for. */
  function Planning(order: seq<NodeId>, counter: nat, index: nat, k: nat): seq<ChunkInfo> {
    if order == [] then [] else Plan(order, counter, index, k)
  }

  /**
   After `k` turns of the chunk loop: the counters, the copies on every planned node that answers, and
   nothing else on the disks changed.
   */
  ghost predicate Tried(registry: Registry, down: set<Addr>, order: seq<NodeId>, c0: nat, x0: nat, data: Bytes, k: nat,
                        counter: nat, index: nat, disk0: Disk, disk: Disk)
  {
    && counter == IdAfter(c0, k)
    && index == (if order == [] then x0 else (x0 + k) % UINT32_SPAN)
    && AllStored(registry, down, disk, Planning(order, c0, x0, k), data)
    && OnlyTargetsDiffer(registry, down, Planning(order, c0, x0, k), disk0, disk)
  }

  ghost predicate AllStored(registry: Registry, down: set<Addr>, disk: Disk, chunks: seq<ChunkInfo>, data: Bytes) {
    forall k :: 0 <= k < |chunks| ==> ChunkStored(registry, down, disk, chunks[k], Slice(data, k))
  }

  lemma AllStoredExtends(registry: Registry, down: set<Addr>, disk: Disk, disk': Disk, chunks: seq<ChunkInfo>, info: ChunkInfo, data: Bytes)
    requires AllStored(registry, down, disk, chunks, data) && OnlyTargetsDiffer(registry, down, [info], disk, disk')
    requires forall k :: 0 <= k < |chunks| ==> chunks[k].chunkId != info.chunkId
    requires ChunkStored(registry, down, disk', info, Slice(data, |chunks|))
    ensures AllStored(registry, down, disk', chunks + [info], data)
  {
    forall k | 0 <= k < |chunks|
      ensures ChunkStored(registry, down, disk', chunks[k], Slice(data, k))
    {
      StoredChunkStays(registry, down, chunks[k], info, disk, disk', Slice(data, k));
    }
  }

  lemma PlannedNow(order: seq<NodeId>, counter: nat, index: nat)
    requires order != [] && counter < UINT64_SPAN
    ensures Planned(order, counter, index, 0) ==
            ChunkInfo(counter, Select(order, StartOf(index, |order|), REPLICATION_FACTOR), REPLICATION_FACTOR)
  {
    assert index + 0 == index;
  }

  /** The counters, after `i` chunks, plan the next chunk as they planned chunk `i` at the start. */
  lemma CountersMatch(order: seq<NodeId>, c0: nat, x0: nat, i: nat)
    ensures IdAfter(IdAfter(c0, i), 1) == IdAfter(c0, i + 1)
    ensures order != [] ==> Planned(order, IdAfter(c0, i), (x0 + i) % UINT32_SPAN, 0) == Planned(order, c0, x0, i)
    ensures ((x0 + i) % UINT32_SPAN + 1) % UINT32_SPAN == (x0 + i + 1) % UINT32_SPAN
  {
    if order != [] {
      PlannedNow(order, IdAfter(c0, i), (x0 + i) % UINT32_SPAN);
      StartOfWrapped(x0 + i, |order|);
    }
  }

  lemma PlanAppend(order: seq<NodeId>, c0: nat, x0: nat, n: nat)
    requires order != []
    ensures Plan(order, c0, x0, n) + [Planned(order, c0, x0, n)] == Plan(order, c0, x0, n + 1)
  {
  }

  lemma IdsDiffer(counter: nat, k: nat, l: nat)
    requires k < l < UINT64_SPAN
    ensures IdAfter(counter, k) != IdAfter(counter, l)
  {
  }

  /** One more turn, whether it stores its chunk on all nodes or not. */
  lemma TriedNext(registry: Registry, down: set<Addr>, order: seq<NodeId>, c0: nat, x0: nat, data: Bytes, k: nat,
                  counter: nat, index: nat, disk0: Disk, disk: Disk, disk': Disk)
    requires k < UINT64_SPAN && counter == IdAfter(c0, k + 1) && index == (if order == [] then x0 else (x0 + k + 1) % UINT32_SPAN)
    requires AllStored(registry, down, disk, Planning(order, c0, x0, k), data)
    requires OnlyTargetsDiffer(registry, down, Planning(order, c0, x0, k), disk0, disk)
    requires order == [] ==> disk' == disk
    requires order != [] ==>
               var info := Planned(order, c0, x0, k);
               && ChunkStored(registry, down, disk', info, Slice(data, k))
               && OnlyTargetsDiffer(registry, down, [info], disk, disk')
    ensures Tried(registry, down, order, c0, x0, data, k + 1, counter, index, disk0, disk')
  {
    if order != [] {
      var info, plan := Planned(order, c0, x0, k), Plan(order, c0, x0, k);
      PlanAppend(order, c0, x0, k);
      DiffersAppend(registry, down, plan, info, disk0, disk, disk');
      forall b | 0 <= b < |plan|
        ensures plan[b].chunkId != info.chunkId
      {
        IdsDiffer(c0, b, k);
      }
      AllStoredExtends(registry, down, disk, disk', plan, info, data);
    }
  }

  lemma LoopStarts(registry: Registry, down: set<Addr>, order: seq<NodeId>, c0: nat, x0: nat, data: Bytes, n: nat, disk: Disk)
    requires c0 < UINT64_SPAN && x0 < UINT32_SPAN
    ensures Planning(order, c0, x0, 0) == [] && StillStores(registry, down, order, c0, x0, 0, n)
    ensures Tried(registry, down, order, c0, x0, data, 0, c0, x0, disk, disk)
  {
  }

  lemma LoopEnds(registry: Registry, down: set<Addr>, order: seq<NodeId>, c0: nat, x0: nat, n: nat)
    requires StillStores(registry, down, order, c0, x0, n, n)
    ensures CanStore(registry, down, order, c0, x0, n) && Turns(registry, down, order, c0, x0, 0, n) == n
  {
  }

  /** One turn of the chunk loop, from its `k`-th on. */
  lemma LoopTurn(registry: Registry, down: set<Addr>, order: seq<NodeId>, c0: nat, x0: nat, data: Bytes, k: nat, n: nat,
                 counter: nat, index: nat, disk0: Disk, disk: Disk,
                 info: ChunkInfo, ok: bool, counter': nat, index': nat, disk': Disk)
    requires k < n < UINT64_SPAN && StillStores(registry, down, order, c0, x0, k, n)
    requires Tried(registry, down, order, c0, x0, data, k, counter, index, disk0, disk) && counter' == IdAfter(counter, 1)
    requires order == [] ==> !ok && index' == index && disk' == disk
    requires order != [] ==>
               && info == Planned(order, counter, index, 0) && index' == (index + 1) % UINT32_SPAN
               && (ok <==> AllAnswer(registry, down, info))
               && ChunkStored(registry, down, disk', info, Slice(data, k))
               && OnlyTargetsDiffer(registry, down, [info], disk, disk')
    ensures Tried(registry, down, order, c0, x0, data, k + 1, counter', index', disk0, disk')
    ensures if ok then StillStores(registry, down, order, c0, x0, k + 1, n) && Planning(order, c0, x0, k) + [info] == Planning(order, c0, x0, k + 1)
            else Turns(registry, down, order, c0, x0, 0, n) == k + 1 && !CanStore(registry, down, order, c0, x0, n)
  {
    CountersMatch(order, c0, x0, k);
    TriedNext(registry, down, order, c0, x0, data, k, counter', index', disk0, disk, disk');
    StillStoresNext(registry, down, order, c0, x0, k, n);
    if order != [] {
      PlanAppend(order, c0, x0, k);
    }
  }

  lemma StoredChunkStays(registry: Registry, down: set<Addr>, chunk: ChunkInfo, info: ChunkInfo, disk: Disk, disk': Disk, data: Bytes)
    requires ChunkStored(registry, down, disk, chunk, data) && chunk.chunkId != info.chunkId
    requires OnlyTargetsDiffer(registry, down, [info], disk, disk')
    ensures ChunkStored(registry, down, disk', chunk, data)
  {
    forall loc | TargetsChunk(registry, down, chunk, loc)
      ensures loc in disk' && disk'[loc] == data
    {
      assert !TargetsChunk(registry, down, [info][0], loc);
    }
  }

  lemma DiffersAppend(registry: Registry, down: set<Addr>, chunks: seq<ChunkInfo>, info: ChunkInfo, disk0: Disk, disk: Disk, disk': Disk)
    requires OnlyTargetsDiffer(registry, down, chunks, disk0, disk)
    requires OnlyTargetsDiffer(registry, down, [info], disk, disk')
    ensures OnlyTargetsDiffer(registry, down, chunks + [info], disk0, disk')
  {
    forall loc | forall k :: 0 <= k < |chunks + [info]| ==> !TargetsChunk(registry, down, (chunks + [info])[k], loc)
      ensures (loc in disk0 <==> loc in disk') && (loc in disk0 ==> disk0[loc] == disk'[loc])
    {
      assert (chunks + [info])[|chunks|] == info;
      forall k | 0 <= k < |chunks|
        ensures !TargetsChunk(registry, down, chunks[k], loc)
      {
        assert (chunks + [info])[k] == chunks[k];
      }
    }
  }

  /** What a cleanup pass leaves and takes: the copies it may take are gone, everything else is as before. */
  lemma CleanupEffect(registry: Registry, down: set<Addr>, metas: seq<FileMeta>, disk: Disk, m: nat, i: nat, j: nat)
    requires m < |metas| && i < |metas[m].chunks| && j < |metas[m].chunks[i].nodeIds|
    ensures var info := metas[m].chunks[i];
            var disk' := Cleaned(registry, down, metas, disk);
            && !Usable(registry, down, disk', info.nodeIds[j], info.chunkId)
            && forall loc :: loc in disk && (forall n, k :: 0 <= n < |metas| && 0 <= k < |metas[n].chunks| ==>
                                                             metas[n].chunks[k].chunkId != loc.chunk)
                             ==> loc in disk' && disk'[loc] == disk[loc]
  {
    var info := metas[m].chunks[i];
    if Answers(registry, down, info.nodeIds[j], info.chunkId) {
      var loc := Loc(registry[info.nodeIds[j]], info.chunkId);
      assert TargetsReplica(registry, down, info, j, loc);
      assert TargetsChunk(registry, down, metas[m].chunks[i], loc);
      assert Targets(registry, down, metas[m], loc);
      assert TargetsAny(registry, down, metas, loc);
    }
  }

  // ---------------------------------------------------------------- clients

  /** The client's upload: the file's stream, sent whole. */
  method PutFileSync(service: Service, filename: Name, content: Bytes) returns (status: Status)
    requires service.Valid() && |content| <= MAX_UPLOAD
    modifies service`nextNodeIndex, service`chunkIdCounter, service.store`entries, service.store`readCount, service.store`writeCount
    modifies service.nodes`disk
    ensures service.Valid()
    ensures status == InvalidArgument <==> filename == ""
    ensures status == AlreadyExists <==> filename in old(service.store.entries) && old(service.store.entries)[filename].isFile
    ensures status == Ok || status == Internal || status == AlreadyExists || status == InvalidArgument
    ensures status == Ok || status == Internal ==>
              (status == Ok <==>
               AllNodesTake(service.registry, service.nodes.down, service.order, old(service.chunkIdCounter), old(service.nextNodeIndex), |content|))
    ensures (status == Ok || status == Internal) && content == [] ==> status == Ok
    ensures (status == Ok || status == Internal) && content != [] && service.registry == map[] ==> status == Internal
    ensures status == Ok || status == Internal ==>
              service.registry != map[] && (forall id :: id in service.registry ==> service.registry[id] !in service.nodes.down)
              && old(service.chunkIdCounter) + (|content| + 1048575) / 1048576 <= 0x8000_0000 ==>
                status == Ok
    ensures status == Ok ==>
              && filename in service.store.entries && service.store.entries[filename].isFile
              && HoldsFile(service.registry, service.nodes.down, service.nodes.disk, service.store.entries[filename].meta, content)
    ensures var c0, x0 := old(service.chunkIdCounter), old(service.nextNodeIndex);
            var turns := if status == InvalidArgument || status == AlreadyExists then 0
                         else Turns(service.registry, service.nodes.down, service.order, c0, x0, 0, NumChunks(|content|));
            Tried(service.registry, service.nodes.down, service.order, c0, x0, content, turns, service.chunkIdCounter, service.nextNodeIndex,
                  old(service.nodes.disk), service.nodes.disk)
    ensures service.store.readCount == Increment(old(service.store.readCount))
    ensures service.store.entries ==
            if status == Ok then old(service.store.entries)[filename := service.store.entries[filename]] else old(service.store.entries)
  {
    var requests := SendFile(filename, content);
    UploadCarries(filename, content);
    status := service.PutFile(requests);
    if status == Ok && NumChunks(|content|) > 0 {
      PlannedAnswers(service.registry, service.nodes.down, service.order, old(service.chunkIdCounter), old(service.nextNodeIndex), NumChunks(|content|));
    }
  }

  /** Every chunk of the file has a usable node, and all usable nodes of a chunk hold its bytes. */
  ghost predicate HoldsFile(registry: Registry, down: set<Addr>, disk: Disk, meta: FileMeta, content: Bytes) {
    && |meta.chunks| == NumChunks(|content|)
    && forall k :: 0 <= k < |meta.chunks| ==>
                     && meta.chunks[k].nodeIds != [] && AllAnswer(registry, down, meta.chunks[k])
                     && ChunkStored(registry, down, disk, meta.chunks[k], Slice(content, k))
  }

  lemma PlannedAnswers(registry: Registry, down: set<Addr>, order: seq<NodeId>, counter: nat, index: nat, n: nat)
    requires order != [] && CanStore(registry, down, order, counter, index, n)
    ensures var plan := Plan(order, counter, index, n);
            forall k :: 0 <= k < n ==> plan[k].nodeIds != [] && AllAnswer(registry, down, plan[k])
  {
  }

  lemma HeldFileReads(registry: Registry, down: set<Addr>, disk: Disk, meta: FileMeta, content: Bytes)
    requires HoldsFile(registry, down, disk, meta, content)
    ensures var sent := ReadChunks(registry, down, disk, meta.chunks);
            |sent| == |meta.chunks| && Flatten(sent) == content
  {
    var sent := ReadChunks(registry, down, disk, meta.chunks);
    DownloadOutcome(registry, down, disk, meta.chunks);
    forall k | 0 <= k < |meta.chunks|
      ensures Readable(registry, down, disk, meta.chunks[k])
      ensures ReadChunk(registry, down, disk, meta.chunks[k].chunkId, meta.chunks[k].nodeIds) == Some(Slice(content, k))
    {
      var info := meta.chunks[k];
      var loc := Loc(registry[info.nodeIds[0]], info.chunkId);
      assert TargetsReplica(registry, down, info, 0, loc);
      assert TargetsChunk(registry, down, info, loc);
      assert Usable(registry, down, disk, info.nodeIds[0], info.chunkId);
      ReadChunkFirstUsable(registry, down, disk, info.chunkId, info.nodeIds);
    }
    assert sent == Slices(content, |sent|);
    ChunksCover(content);
  }

  /** Every chunk of the file has a node that is registered, up and holds it. */
  ghost predicate WholeReadable(service: Service, filename: Name)
    reads service, service.store, service.nodes
  {
    && filename in service.store.entries
    && forall k :: 0 <= k < |service.store.entries[filename].meta.chunks| ==>
                     Readable(service.registry, service.nodes.down, service.nodes.disk, service.store.entries[filename].meta.chunks[k])
  }

  /** The client's download: the replies appended, if the call ended well. */
  method GetFileSync(service: Service, filename: Name) returns (status: Status, content: Bytes)
    requires service.Valid()
    modifies service.store`readCount
    ensures service.Valid()
    ensures service.store.readCount == Increment(old(service.store.readCount))
    ensures status == NotFound <==> !(filename in service.store.entries && service.store.entries[filename].isFile)
    ensures status == NotFound || (status == if WholeReadable(service, filename) then Ok else Internal)
    ensures status == Ok ==>
              && filename in service.store.entries && service.store.entries[filename].isFile
              && content == Flatten(ReadChunks(service.registry, service.nodes.down, service.nodes.disk, service.store.entries[filename].meta.chunks))
    ensures forall data :: filename in service.store.entries && service.store.entries[filename].isFile
                           && HoldsFile(service.registry, service.nodes.down, service.nodes.disk, service.store.entries[filename].meta, data)
                           ==> status == Ok && content == data
  {
    var sent;
    status, sent := service.GetFile(filename, None);
    var received;
    content, received := Append(sent);
    if status != NotFound {
      DownloadOutcome(service.registry, service.nodes.down, service.nodes.disk, service.store.entries[filename].meta.chunks);
    }
    forall data | filename in service.store.entries && service.store.entries[filename].isFile
                  && HoldsFile(service.registry, service.nodes.down, service.nodes.disk, service.store.entries[filename].meta, data)
      ensures status == Ok && content == data
    {
      HeldFileReads(service.registry, service.nodes.down, service.nodes.disk, service.store.entries[filename].meta, data);
    }
  }

  /** The promise of the store to its users: what was put is what is got, for every file in range. */
  method PutThenGet(service: Service, filename: Name, content: Bytes) returns (put: Status, got: Status, received: Bytes)
    requires service.Valid() && |content| <= MAX_UPLOAD
    modifies service`nextNodeIndex, service`chunkIdCounter, service.store`entries, service.store`readCount, service.store`writeCount
    modifies service.nodes`disk
    ensures service.Valid()
    ensures put == Ok ==> got == Ok && received == content
    ensures put == InvalidArgument <==> filename == ""
    ensures put == AlreadyExists <==> filename in old(service.store.entries) && old(service.store.entries)[filename].isFile
    ensures put != InvalidArgument && put != AlreadyExists ==>
              (put == Ok <==>
               AllNodesTake(service.registry, service.nodes.down, service.order, old(service.chunkIdCounter), old(service.nextNodeIndex), |content|))
    ensures put != InvalidArgument && put != AlreadyExists && content == [] ==> put == Ok
    ensures put != InvalidArgument && put != AlreadyExists ==>
              service.registry != map[] && (forall id :: id in service.registry ==> service.registry[id] !in service.nodes.down)
              && old(service.chunkIdCounter) + (|content| + 1048575) / 1048576 <= 0x8000_0000 ==>
                put == Ok && got == Ok && received == content
  {
    put := PutFileSync(service, filename, content);
    got, received := GetFileSync(service, filename);
  }

  // ---------------------------------------------------------------- data node servers

  /** A data node's registration with the coordinator; -1 until it has an id. */
  class DataNodeServer {
    const addr: Addr
    var nodeId: NodeId

    constructor (addr: Addr)
      ensures this.addr == addr && nodeId == -1
    {
      this.addr := addr;
      nodeId := -1;
    }

    /** A failed registration is a warning; the server runs on without an id. */
    method Start(service: Service, newOrder: seq<NodeId>)
      requires service.Valid() && IsOrderOf(newOrder, service.registry.Keys + {service.nextNodeId})
      modifies this`nodeId, service`registry, service`order, service`nextNodeId
      ensures service.Valid()
      ensures if addr in old(service.registry).Values
              then nodeId == old(nodeId) && service.registry == old(service.registry)
              else nodeId == old(service.nextNodeId) && service.registry == old(service.registry)[nodeId := addr]
    {
      var success, id := service.RegisterDataNode(addr, newOrder);
      if success {
        nodeId := id;
      }
    }

    /** Only a positive id is unregistered; the server keeps it, so a second stop finds nothing. */
    method Stop(service: Service, newOrder: seq<NodeId>)
      requires service.Valid() && IsOrderOf(newOrder, service.registry.Keys - {nodeId})
      modifies service`registry, service`order
      ensures service.Valid()
      ensures service.registry == if nodeId > 0 then old(service.registry) - {nodeId} else old(service.registry)
    {
      if nodeId > 0 {
        var _ := service.UnregisterDataNode(nodeId, newOrder);
      }
    }
  }
}
