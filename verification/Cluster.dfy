/**
 The data nodes as the coordinator reaches them, one call at a time: a chunk write, a chunk read
 through the node's block transfer, and an idempotent delete. A node that is down fails every call.
 */
module Cluster {
  import opened Types
  import opened Framing

  type Registry = map<NodeId, Addr>
  type Disk = map<Loc, Bytes>

  /** Node `id` is registered and answers calls about `chunk`. */
  predicate Answers(registry: Registry, down: set<Addr>, id: NodeId, chunk: ChunkId) {
    id in registry && registry[id] !in down && chunk < CHUNK_ID_LIMIT
  }

  /** Node `id` can hand out `chunk`. */
  predicate Usable(registry: Registry, down: set<Addr>, disk: Disk, id: NodeId, chunk: ChunkId) {
    Answers(registry, down, id, chunk) && Loc(registry[id], chunk) in disk
  }

  /** What the fallback over `ids` reads: the copy of the first usable node. */
  function ReadChunk(registry: Registry, down: set<Addr>, disk: Disk, chunk: ChunkId, ids: seq<NodeId>): Option<Bytes> {
    if |ids| == 0 then None
    else if Usable(registry, down, disk, ids[0], chunk) then Some(disk[Loc(registry[ids[0]], chunk)])
    else ReadChunk(registry, down, disk, chunk, ids[1..])
  }

  /** The fallback succeeds exactly when some listed node is usable, and the first such node serves it. */
  lemma {:induction false} ReadChunkFirstUsable(registry: Registry, down: set<Addr>, disk: Disk, chunk: ChunkId, ids: seq<NodeId>)
    ensures ReadChunk(registry, down, disk, chunk, ids).Some? <==> exists id :: id in ids && Usable(registry, down, disk, id, chunk)
    ensures forall k :: 0 <= k < |ids| && Usable(registry, down, disk, ids[k], chunk)
                        && (forall j :: 0 <= j < k ==> !Usable(registry, down, disk, ids[j], chunk))
                        ==> ReadChunk(registry, down, disk, chunk, ids) == Some(disk[Loc(registry[ids[k]], chunk)])
  {
    if |ids| > 0 {
      ReadChunkFirstUsable(registry, down, disk, chunk, ids[1..]);
      assert ids == [ids[0]] + ids[1..];
      forall k | 0 < k < |ids|
        ensures ids[k] == ids[1..][k - 1]
      {
      }
      assert forall j :: 0 <= j < |ids| - 1 ==> ids[1..][j] == ids[j + 1];
    }
  }

  /** The replies of a download: the chunks in order, up to the first that no node can hand out. */
  function ReadChunks(registry: Registry, down: set<Addr>, disk: Disk, chunks: seq<ChunkInfo>): seq<Bytes> {
    if |chunks| == 0 then []
    else
      match ReadChunk(registry, down, disk, chunks[0].chunkId, chunks[0].nodeIds)
      case None => []
      case Some(data) => [data] + ReadChunks(registry, down, disk, chunks[1..])
  }

  ghost predicate Readable(registry: Registry, down: set<Addr>, disk: Disk, info: ChunkInfo) {
    exists id :: id in info.nodeIds && Usable(registry, down, disk, id, info.chunkId)
  }

  /**
   Exact outcome of a download on a fixed state: it is whole exactly when every chunk has a usable
   node; otherwise it stops at the first chunk without one, having sent all chunks before it.
   */
  lemma {:induction false} DownloadOutcome(registry: Registry, down: set<Addr>, disk: Disk, chunks: seq<ChunkInfo>)
    ensures var sent := ReadChunks(registry, down, disk, chunks);
            && |sent| <= |chunks|
            && (forall k :: 0 <= k < |sent| ==>
                              ReadChunk(registry, down, disk, chunks[k].chunkId, chunks[k].nodeIds) == Some(sent[k]))
            && (|sent| < |chunks| ==> !Readable(registry, down, disk, chunks[|sent|]))
            && (|sent| == |chunks| <==> forall k :: 0 <= k < |chunks| ==> Readable(registry, down, disk, chunks[k]))
  {
    if |chunks| > 0 {
      DownloadOutcome(registry, down, disk, chunks[1..]);
      ReadChunkFirstUsable(registry, down, disk, chunks[0].chunkId, chunks[0].nodeIds);
      var rest := ReadChunks(registry, down, disk, chunks[1..]);
      forall k | 0 <= k < |rest|
        ensures ReadChunk(registry, down, disk, chunks[k + 1].chunkId, chunks[k + 1].nodeIds) == Some(rest[k])
        ensures Readable(registry, down, disk, chunks[k + 1])
      {
        assert chunks[1..][k] == chunks[k + 1];
        ReadChunkFirstUsable(registry, down, disk, chunks[k + 1].chunkId, chunks[k + 1].nodeIds);
      }
      assert |rest| < |chunks| - 1 ==> chunks[1..][|rest|] == chunks[|rest| + 1];
    }
  }

  /** The `j`-th delete of chunk `info` goes to a node that answers, and hits `loc`. */
  ghost predicate TargetsReplica(registry: Registry, down: set<Addr>, info: ChunkInfo, j: nat, loc: Loc)
    requires j < |info.nodeIds|
  {
    && Answers(registry, down, info.nodeIds[j], info.chunkId)
    && loc == Loc(registry[info.nodeIds[j]], info.chunkId)
  }

  ghost predicate TargetsChunk(registry: Registry, down: set<Addr>, info: ChunkInfo, loc: Loc) {
    exists j :: 0 <= j < |info.nodeIds| && TargetsReplica(registry, down, info, j, loc)
  }

  /** Cleaning up `meta` asks the node behind `loc` to delete the chunk there. */
  ghost predicate Targets(registry: Registry, down: set<Addr>, meta: FileMeta, loc: Loc) {
    exists i :: 0 <= i < |meta.chunks| && TargetsChunk(registry, down, meta.chunks[i], loc)
  }

  /** Cleaning up `metas` asks for the chunk at `loc` to be deleted. */
  ghost predicate TargetsAny(registry: Registry, down: set<Addr>, metas: seq<FileMeta>, loc: Loc) {
    exists k :: 0 <= k < |metas| && Targets(registry, down, metas[k], loc)
  }

  /** `disk` without what cleaning up `metas` deletes. */
  ghost function Cleaned(registry: Registry, down: set<Addr>, metas: seq<FileMeta>, disk: Disk): Disk {
    map loc | loc in disk && !TargetsAny(registry, down, metas, loc) :: disk[loc]
  }

  /**
   What cleaning up takes, and nothing else: the copies of the files' chunks at the addresses of their
   listed nodes, as far as these are registered and up and can parse the chunk's id.
   */
  lemma CleanedExactly(registry: Registry, down: set<Addr>, metas: seq<FileMeta>, disk: Disk, loc: Loc)
    ensures loc in Cleaned(registry, down, metas, disk) ==> loc in disk && Cleaned(registry, down, metas, disk)[loc] == disk[loc]
    ensures loc in Cleaned(registry, down, metas, disk) <==>
            loc in disk && !exists m, i, j ::
              && 0 <= m < |metas| && 0 <= i < |metas[m].chunks| && 0 <= j < |metas[m].chunks[i].nodeIds|
              && metas[m].chunks[i].chunkId == loc.chunk < 0x8000_0000
              && metas[m].chunks[i].nodeIds[j] in registry && registry[metas[m].chunks[i].nodeIds[j]] == loc.addr
              && loc.addr !in down
  {
    if m, i, j :| 0 <= m < |metas| && 0 <= i < |metas[m].chunks| && 0 <= j < |metas[m].chunks[i].nodeIds|
                  && metas[m].chunks[i].chunkId == loc.chunk < 0x8000_0000
                  && metas[m].chunks[i].nodeIds[j] in registry && registry[metas[m].chunks[i].nodeIds[j]] == loc.addr
                  && loc.addr !in down {
      assert TargetsReplica(registry, down, metas[m].chunks[i], j, loc);
      assert TargetsChunk(registry, down, metas[m].chunks[i], loc);
      assert Targets(registry, down, metas[m], loc);
    }
  }

  lemma CleanedStep(registry: Registry, down: set<Addr>, metas: seq<FileMeta>, meta: FileMeta, disk: Disk)
    ensures Cleaned(registry, down, metas + [meta], disk) == Cleaned(registry, down, [meta], Cleaned(registry, down, metas, disk))
  {
    forall loc
      ensures TargetsAny(registry, down, metas + [meta], loc) <==>
              TargetsAny(registry, down, metas, loc) || TargetsAny(registry, down, [meta], loc)
    {
      if TargetsAny(registry, down, metas, loc) {
        var k :| 0 <= k < |metas| && Targets(registry, down, metas[k], loc);
        assert (metas + [meta])[k] == metas[k];
      }
      if TargetsAny(registry, down, [meta], loc) {
        assert (metas + [meta])[|metas|] == meta;
      }
    }
  }

  class Nodes {
    var down: set<Addr>
    var disk: Disk

    constructor ()
      ensures down == {} && disk == map[]
    {
      down, disk := {}, map[];
    }

    /** The whole file is written, or the call fails and nothing is. */
    method PutChunk(addr: Addr, chunk: ChunkId, data: Bytes) returns (ok: bool)
      modifies this`disk
      ensures ok <==> addr !in down && chunk < CHUNK_ID_LIMIT
      ensures disk == if ok then old(disk)[Loc(addr, chunk) := data] else old(disk)
    {
      ok := addr !in down && chunk < CHUNK_ID_LIMIT;
      if ok {
        var loc := Loc(addr, chunk);
        var request := PutChunkRequest(chunk, data);
        var file := StoreChunk([request], if loc in disk then Some(disk[loc]) else None);
        assert Flatten([data]) == data;
        assert seq(1, i requires 0 <= i < 1 => [request][i].data) == [data];
        disk := disk[loc := file.value];
      }
    }

    method GetChunk(addr: Addr, chunk: ChunkId) returns (ok: bool, data: Bytes)
      ensures ok <==> addr !in down && chunk < CHUNK_ID_LIMIT && Loc(addr, chunk) in disk
      ensures ok ==> data == disk[Loc(addr, chunk)]
    {
      data := [];
      ok := addr !in down && chunk < CHUNK_ID_LIMIT && Loc(addr, chunk) in disk;
      if ok {
        var content := disk[Loc(addr, chunk)];
        var sent := SendChunk(content);
        ok, data := ReadReply(sent, true, []);
        FramesFlatten(content);
      }
    }

    /** Deleting a chunk that is not there succeeds as well. */
    method DeleteChunk(addr: Addr, chunk: ChunkId) returns (ok: bool)
      modifies this`disk
      ensures ok <==> addr !in down && chunk < CHUNK_ID_LIMIT
      ensures disk == if ok then old(disk) - {Loc(addr, chunk)} else old(disk)
    {
      ok := addr !in down && chunk < CHUNK_ID_LIMIT;
      if ok {
        disk := disk - {Loc(addr, chunk)};
      }
    }
  }

  /** The closure the cleanup worker hands to the metadata store. */
  class ChunkDeleter {
    const registry: Registry
    const nodes: Nodes
    ghost var calls: seq<FileMeta>
    ghost const start: Disk

    /** The calls made so far are all that has happened to the disks. */
    ghost predicate Valid()
      reads this, nodes
    {
      nodes.disk == Cleaned(registry, nodes.down, calls, start)
    }

    constructor (registry: Registry, nodes: Nodes)
      ensures this.registry == registry && this.nodes == nodes && start == nodes.disk && calls == []
      ensures Valid()
    {
      this.registry, this.nodes := registry, nodes;
      start, calls := nodes.disk, [];
    }

    /** One chunk of `Delete`: its id is asked for at each of its nodes, repeated ones included. */
    method DeleteReplicas(info: ChunkInfo)
      modifies nodes`disk
      ensures nodes.disk.Keys <= old(nodes.disk).Keys
      ensures forall loc :: loc in nodes.disk ==> nodes.disk[loc] == old(nodes.disk)[loc]
      ensures forall loc :: loc in old(nodes.disk) ==> (loc in nodes.disk <==> !TargetsChunk(registry, nodes.down, info, loc))
    {
      ghost var was := nodes.disk;
      for j := 0 to |info.nodeIds|
        invariant nodes.disk.Keys <= was.Keys
        invariant forall loc :: loc in nodes.disk ==> nodes.disk[loc] == was[loc]
        invariant forall loc :: loc in was && loc !in nodes.disk ==> TargetsChunk(registry, nodes.down, info, loc)
        invariant forall loc, b :: 0 <= b < j && loc in was && TargetsReplica(registry, nodes.down, info, b, loc) ==> loc !in nodes.disk
      {
        var id := info.nodeIds[j];
        if id in registry {
          ghost var loc := Loc(registry[id], info.chunkId);
          assert Answers(registry, nodes.down, id, info.chunkId) ==> TargetsReplica(registry, nodes.down, info, j, loc);
          var _ := nodes.DeleteChunk(registry[id], info.chunkId);
        }
      }
    }

    /**
     After the call every copy that a registered, answering node of the file held is gone, and no
     other chunk file has changed.
     */
    method Delete(meta: FileMeta)
      requires Valid()
      modifies this, nodes`disk
      ensures Valid()
      ensures calls == old(calls) + [meta]
      ensures nodes.disk == Cleaned(registry, nodes.down, [meta], old(nodes.disk))
    {
      CleanedStep(registry, nodes.down, calls, meta, start);
      calls := calls + [meta];
      ghost var was := nodes.disk;
      for i := 0 to |meta.chunks|
        modifies nodes`disk
        invariant nodes.disk.Keys <= was.Keys
        invariant forall loc :: loc in nodes.disk ==> nodes.disk[loc] == was[loc]
        invariant forall loc :: loc in was && loc !in nodes.disk ==> Targets(registry, nodes.down, meta, loc)
        invariant forall loc, a :: 0 <= a < i && loc in was && TargetsChunk(registry, nodes.down, meta.chunks[a], loc) ==> loc !in nodes.disk
      {
        DeleteReplicas(meta.chunks[i]);
      }
      forall loc | loc in was
        ensures loc in nodes.disk <==> !TargetsAny(registry, nodes.down, [meta], loc)
      {
        assert [meta][0] == meta;
      }
    }
  }
}
