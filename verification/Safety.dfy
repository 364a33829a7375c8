/** What the invariant means: garbage collection is safe, active files are stored and survive failures. */
module Safety {
  import opened Types
  import opened Chunking
  import opened Tombstones
  import opened Protocol
  import opened Invariant
  import opened DiskPreservation
  import Cluster

  lemma {:induction false} RunKeepsInv(states: seq<State>, steps: seq<Step>, k: nat)
    requires Run(states, steps) && k < |states|
    ensures Inv(states[k])
  {
    if k == 0 {
      InitInv(states[0]);
    } else {
      RunKeepsInv(states, steps, k - 1);
      StepKeepsInv(states[k - 1], steps[k - 1]);
    }
  }

  // ---------------------------------------------------------------- garbage collection

  ghost predicate HasChunk(infos: seq<ChunkInfo>, chunk: ChunkId) {
    exists i :: 0 <= i < |infos| && infos[i].chunkId == chunk
  }

  /** An upload that is still running, and has neither failed nor been committed. */
  predicate Running(up: Upload) {
    up.phase.Ready? || up.phase.Storing?
  }

  /** No two uploads share a chunk id, and all ids are below the counter. */
  lemma ChunkIdsDisjoint(s: State, u: nat, v: nat, chunk: ChunkId)
    requires Inv(s) && u < |s.uploads| && v < |s.uploads|
    requires HasChunk(s.uploads[u].infos, chunk) && HasChunk(s.uploads[v].infos, chunk)
    ensures u == v && chunk < |s.owner|
  {
    var i :| 0 <= i < |s.uploads[u].infos| && s.uploads[u].infos[i].chunkId == chunk;
    var j :| 0 <= j < |s.uploads[v].infos| && s.uploads[v].infos[j].chunkId == chunk;
    OneOwner(s, u, i);
    OneOwner(s, v, j);
  }

  /**
   Garbage-collection safety. Whenever, in any run, the cleanup worker asks a node to delete a
   chunk, the chunk belongs to no active file, no running upload and no other tombstone, and its
   file was deleted more than the tombstone lifetime ago.
   */
  lemma CleanupSparesLiveChunks(states: seq<State>, steps: seq<Step>, k: nat)
    requires Run(states, steps) && k < |steps| && steps[k].CleanupDeletes?
    ensures var s := states[k];
            var chunk := CleanupChunk(s).chunkId;
            && (forall name :: name in s.entries ==> !HasChunk(s.entries[name].meta.chunks, chunk))
            && (forall u :: 0 <= u < |s.uploads| && Running(s.uploads[u]) ==> !HasChunk(s.uploads[u].infos, chunk))
            && (forall l :: 0 <= l < |s.tombs| && l != s.cleaner.pos ==> !HasChunk(s.tombs[l].meta.meta.chunks, chunk))
            && s.clock - s.tombs[s.cleaner.pos].deletedAt > TOMBSTONE_LIFETIME
  {
    var s := states[k];
    RunKeepsInv(states, steps, k);
    var t := s.tombs[s.cleaner.pos];
    assert TombOk(s.uploads, t);
    var chunk := CleanupChunk(s).chunkId;
    assert HasChunk(s.uploads[t.meta.uid].infos, chunk);
    forall name | name in s.entries
      ensures !HasChunk(s.entries[name].meta.chunks, chunk)
    {
      assert FileOk(s.uploads, s.entries[name]);
      if HasChunk(s.entries[name].meta.chunks, chunk) {
        ChunkIdsDisjoint(s, s.entries[name].uid, t.meta.uid, chunk);
      }
    }
    forall u | 0 <= u < |s.uploads| && Running(s.uploads[u])
      ensures !HasChunk(s.uploads[u].infos, chunk)
    {
      if HasChunk(s.uploads[u].infos, chunk) {
        ChunkIdsDisjoint(s, u, t.meta.uid, chunk);
      }
    }
    forall l | 0 <= l < |s.tombs| && l != s.cleaner.pos
      ensures !HasChunk(s.tombs[l].meta.meta.chunks, chunk)
    {
      assert TombOk(s.uploads, s.tombs[l]);
      if HasChunk(s.tombs[l].meta.meta.chunks, chunk) {
        ChunkIdsDisjoint(s, s.tombs[l].meta.uid, t.meta.uid, chunk);
      }
    }
  }

  // ---------------------------------------------------------------- durability

  /** A file of the store nothing has deleted chunks of. */
  ghost predicate SafeFile(s: State, f: File) {
    FileOk(s.uploads, f) && Intact(s, f.uid)
  }

  /** Each copy of each chunk is where its node listens, byte for byte. */
  ghost predicate FullyStored(s: State, f: File)
    requires f.uid < |s.uploads|
  {
    forall i, j :: 0 <= i < |f.meta.chunks| && 0 <= j < |f.meta.chunks[i].nodeIds| ==> StoredAt(s, f, i, j)
  }

  ghost predicate StoredAt(s: State, f: File, i: nat, j: nat)
    requires f.uid < |s.uploads| && i < |f.meta.chunks| && j < |f.meta.chunks[i].nodeIds|
  {
    var info := f.meta.chunks[i];
    && Known(s.bound, info.nodeIds[j]) && info.chunkId < CHUNK_ID_LIMIT
    && var loc := Loc(BoundTo(s.bound, info.nodeIds[j]), info.chunkId);
       loc in s.disk && s.disk[loc] == Slice(s.uploads[f.uid].data, i)
  }

  lemma SafeFileStored(s: State, f: File)
    requires Inv(s) && SafeFile(s, f)
    ensures FullyStored(s, f)
    ensures |f.meta.chunks| == NumChunks(|s.uploads[f.uid].data|)
  {
    var up := s.uploads[f.uid];
    assert UploadOk(s.owner, s.bound, f.uid, up);
    forall i, j | 0 <= i < |f.meta.chunks| && 0 <= j < |f.meta.chunks[i].nodeIds|
      ensures StoredAt(s, f, i, j)
    {
      NodesKnown(s, f.uid, i);
      assert Final(up, i) && ChunkOk(s.bound, s.disk, up, i, true);
      assert CopyOk(s.bound, s.disk, up.infos[i], Slice(up.data, i), j, true);
    }
  }

  /** Durability: in every reachable state every chunk of every active file is on all its nodes. */
  lemma ActiveFilesStored(states: seq<State>, steps: seq<Step>, k: nat, name: Name)
    requires Run(states, steps) && k < |states| && name in states[k].entries
    ensures states[k].entries[name].uid < |states[k].uploads|
    ensures FullyStored(states[k], states[k].entries[name])
  {
    RunKeepsInv(states, steps, k);
    assert FileOk(states[k].uploads, states[k].entries[name]);
    SafeFileStored(states[k], states[k].entries[name]);
  }

  // ---------------------------------------------------------------- fault tolerance

  /** Node `id` is registered and can be called. */
  predicate Alive(s: State, id: NodeId) {
    id in s.registry && s.registry[id] !in s.down
  }

  /** What a download of `f` would send if nothing else happened meanwhile. */
  function Download(s: State, f: File): seq<Bytes> {
    Cluster.ReadChunks(s.registry, s.down, s.disk, f.meta.chunks)
  }

  lemma StoredIsUsable(s: State, f: File, i: nat, j: nat)
    requires Inv(s) && f.uid < |s.uploads| && i < |f.meta.chunks| && j < |f.meta.chunks[i].nodeIds| && StoredAt(s, f, i, j)
    ensures var info := f.meta.chunks[i];
            Cluster.Usable(s.registry, s.down, s.disk, info.nodeIds[j], info.chunkId) <==> Alive(s, info.nodeIds[j])
  {
  }

  /** Whatever a download reads of a chunk is the chunk. */
  lemma ReadIsSlice(s: State, f: File, i: nat)
    requires Inv(s) && SafeFile(s, f) && i < |f.meta.chunks|
    ensures var info := f.meta.chunks[i];
            var read := Cluster.ReadChunk(s.registry, s.down, s.disk, info.chunkId, info.nodeIds);
            && (read.Some? <==> exists id :: id in info.nodeIds && Alive(s, id))
            && (read.Some? ==> read.value == Slice(s.uploads[f.uid].data, i))
  {
    var info := f.meta.chunks[i];
    SafeFileStored(s, f);
    ReadFromSlices(s, f, i, info.nodeIds);
  }

  lemma {:induction false} ReadFromSlices(s: State, f: File, i: nat, ids: seq<NodeId>)
    requires Inv(s) && f.uid < |s.uploads| && FullyStored(s, f) && i < |f.meta.chunks|
    requires forall id :: id in ids ==> id in f.meta.chunks[i].nodeIds
    ensures var read := Cluster.ReadChunk(s.registry, s.down, s.disk, f.meta.chunks[i].chunkId, ids);
            && (read.Some? <==> exists id :: id in ids && Alive(s, id))
            && (read.Some? ==> read.value == Slice(s.uploads[f.uid].data, i))
  {
    if |ids| > 0 {
      assert ids == [ids[0]] + ids[1..];
      ReadFromSlices(s, f, i, ids[1..]);
      assert ids[0] in ids;
      var j :| 0 <= j < |f.meta.chunks[i].nodeIds| && f.meta.chunks[i].nodeIds[j] == ids[0];
      assert StoredAt(s, f, i, j);
      StoredIsUsable(s, f, i, j);
    }
  }

  /**
   Exact readability: a download of a file nothing has deleted chunks of is whole exactly when every
   chunk has a node that is still registered and up, and then it is the uploaded data.
   */
  lemma ReadableExactly(s: State, f: File)
    requires Inv(s) && SafeFile(s, f)
    ensures |Download(s, f)| == |f.meta.chunks| <==>
            forall i :: 0 <= i < |f.meta.chunks| ==> exists id :: id in f.meta.chunks[i].nodeIds && Alive(s, id)
    ensures |Download(s, f)| == |f.meta.chunks| ==> Flatten(Download(s, f)) == s.uploads[f.uid].data
  {
    Cluster.DownloadOutcome(s.registry, s.down, s.disk, f.meta.chunks);
    var sent, data := Download(s, f), s.uploads[f.uid].data;
    forall i | 0 <= i < |f.meta.chunks|
      ensures Cluster.Readable(s.registry, s.down, s.disk, f.meta.chunks[i]) <==>
              exists id :: id in f.meta.chunks[i].nodeIds && Alive(s, id)
      ensures i < |sent| ==> sent[i] == Slice(data, i)
    {
      ReadIsSlice(s, f, i);
      Cluster.ReadChunkFirstUsable(s.registry, s.down, s.disk, f.meta.chunks[i].chunkId, f.meta.chunks[i].nodeIds);
    }
    if |sent| == |f.meta.chunks| {
      SafeFileStored(s, f);
      assert sent == Slices(data, |sent|);
      ChunksCover(data);
    }
  }

  /** Among more nodes than are lost, one is not. */
  lemma SomeNotLost(ids: set<NodeId>, lost: set<NodeId>)
    requires |lost| < |ids|
    ensures exists id :: id in ids && id !in lost
  {
    if forall id :: id in ids ==> id in lost {
      assert ids <= lost;
      SubsetSize(ids, lost);
    }
  }

  lemma SubsetSize(xs: set<NodeId>, ys: set<NodeId>)
    requires xs <= ys
    ensures |xs| <= |ys|
  {
    assert ys == xs + (ys - xs);
  }

  /**
   Fault tolerance. Take an active file and any set of lost nodes; all other nodes of its chunks are
   registered and up. If for each chunk fewer nodes are lost than replicas it got, which is three or
   the number of nodes registered when it was placed, the file can still be read whole.
   */
  lemma SurvivesLosses(states: seq<State>, steps: seq<Step>, k: nat, name: Name, lost: set<NodeId>)
    requires Run(states, steps) && k < |states| && name in states[k].entries
    requires states[k].entries[name].uid < |states[k].uploads|
    requires var s, f := states[k], states[k].entries[name];
             && (forall i :: 0 <= i < |s.uploads[f.uid].seen| ==> |lost| <= Min(3, s.uploads[f.uid].seen[i]) - 1)
             && (forall i, id :: 0 <= i < |f.meta.chunks| && id in f.meta.chunks[i].nodeIds && id !in lost ==> Alive(s, id))
    ensures var s, f := states[k], states[k].entries[name];
            |Download(s, f)| == |f.meta.chunks| && Flatten(Download(s, f)) == s.uploads[f.uid].data
  {
    var s, f := states[k], states[k].entries[name];
    RunKeepsInv(states, steps, k);
    var up := s.uploads[f.uid];
    assert FileOk(s.uploads, f) && UploadOk(s.owner, s.bound, f.uid, up);
    forall i | 0 <= i < |f.meta.chunks|
      ensures exists id :: id in f.meta.chunks[i].nodeIds && Alive(s, id)
    {
      assert InfoOk(s.owner, s.bound, f.uid, i, up.infos[i], up.seen[i]);
      SomeNotLost((set id | id in up.infos[i].nodeIds), lost);
      var id :| id in (set id | id in up.infos[i].nodeIds) && id !in lost;
      assert id in f.meta.chunks[i].nodeIds;
    }
    ReadableExactly(s, f);
  }

  /**
   The placement record in a reachable state: a chunk has as many different nodes as were
   registered when it was placed, up to three, and different nodes have different addresses.
   */
  lemma ReplicasOnDistinctNodes(states: seq<State>, steps: seq<Step>, k: nat, u: nat, i: nat)
    requires Run(states, steps) && k < |states| && u < |states[k].uploads| && i < |states[k].uploads[u].infos|
    ensures var s := states[k];
            var ids := s.uploads[u].infos[i].nodeIds;
            && i < |s.uploads[u].seen|
            && (forall id :: id in ids ==> Known(s.bound, id))
            && |ids| == 3 && |set id | id in ids| == (if s.uploads[u].seen[i] < 3 then s.uploads[u].seen[i] else 3)
            && (forall id, id' :: id in ids && id' in ids && id != id' ==> BoundTo(s.bound, id) != BoundTo(s.bound, id'))
  {
    RunKeepsInv(states, steps, k);
    var s := states[k];
    assert UploadOk(s.owner, s.bound, u, s.uploads[u]);
    assert InfoOk(s.owner, s.bound, u, i, s.uploads[u].infos[i], s.uploads[u].seen[i]);
  }
}
