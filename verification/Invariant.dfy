/** What holds in every reachable state of the system, and the proof that every step keeps it. */
module Invariant {
  import opened Types
  import opened Chunking
  import opened Tombstones
  import opened NodeIds
  import opened ReplicaWrites
  import opened Protocol
  import Cluster

  // ---------------------------------------------------------------- the registry

  predicate Known(bound: seq<Addr>, id: NodeId) {
    0 <= SerialOf(id) < |bound| && IdOf(SerialOf(id)) == id
  }

  /** The address a node id was given to, for good. */
  function BoundTo(bound: seq<Addr>, id: NodeId): Addr
    requires Known(bound, id)
  {
    bound[SerialOf(id)]
  }

  /** Registered ids have the address they were given to, and no two share one. */
  ghost predicate RegistryOk(s: State) {
    && |s.bound| <= INT32_SPAN
    && (forall id :: id in s.registry ==> Known(s.bound, id) && s.registry[id] == BoundTo(s.bound, id))
    && (forall id, id' :: id in s.registry && id' in s.registry && id != id' ==> s.registry[id] != s.registry[id'])
  }

  // ---------------------------------------------------------------- uploads

  /** Chunk `i` of upload `u`: its id is its own, and its nodes are as many as were there, up to three. */
  ghost predicate InfoOk(owner: seq<Slot>, bound: seq<Addr>, u: nat, i: nat, info: ChunkInfo, n: nat) {
    && info.chunkId < |owner| && owner[info.chunkId] == Slot(u, i)
    && info.replicationFactor == REPLICATION_FACTOR && |info.nodeIds| == REPLICATION_FACTOR
    && (forall j :: 0 <= j < |info.nodeIds| ==> Known(bound, info.nodeIds[j]))
    && n > 0 && |set id | id in info.nodeIds| == Min(REPLICATION_FACTOR, n)
    && (forall j, k :: 0 <= j < |info.nodeIds| && 0 <= k < |info.nodeIds| && info.nodeIds[j] != info.nodeIds[k] ==>
                         BoundTo(bound, info.nodeIds[j]) != BoundTo(bound, info.nodeIds[k]))
  }

  ghost predicate UploadOk(owner: seq<Slot>, bound: seq<Addr>, u: nat, up: Upload) {
    && up.name != "" && |up.data| <= MAX_UPLOAD
    && |up.seen| == |up.infos| <= NumChunks(|up.data|)
    && (forall i :: 0 <= i < |up.infos| ==> InfoOk(owner, bound, u, i, up.infos[i], up.seen[i]))
    && (up.phase.Storing? ==> |up.infos| > 0 && |up.phase.writers| == |LastInfo(up).nodeIds|)
    && (Committed(up.phase) ==> |up.infos| == NumChunks(|up.data|))
  }

  ghost predicate UploadsOk(s: State) {
    forall u :: 0 <= u < |s.uploads| ==> UploadOk(s.owner, s.bound, u, s.uploads[u])
  }

  // ---------------------------------------------------------------- metadata

  ghost predicate FileOk(uploads: seq<Upload>, f: File) {
    f.uid < |uploads| && Committed(uploads[f.uid].phase) && f.meta == MetaOf(uploads[f.uid])
  }

  ghost predicate EntriesOk(s: State) {
    && (forall name :: name in s.entries ==>
                         && FileOk(s.uploads, s.entries[name])
                         && s.uploads[s.entries[name].uid].phase.Active? && s.uploads[s.entries[name].uid].name == name)
    && (forall u :: 0 <= u < |s.uploads| && s.uploads[u].phase.Active? ==>
                      s.uploads[u].name in s.entries && s.entries[s.uploads[u].name].uid == u)
  }

  ghost predicate TombOk(uploads: seq<Upload>, t: Tombstone<File>) {
    && FileOk(uploads, t.meta) && uploads[t.meta.uid].phase == Pending(t.deletedAt) && uploads[t.meta.uid].name == t.path
  }

  ghost predicate HasTomb(tombs: seq<Tombstone<File>>, u: nat) {
    exists k :: 0 <= k < |tombs| && tombs[k].meta.uid == u
  }

  ghost predicate TombsOk(s: State) {
    && (forall k :: 0 <= k < |s.tombs| ==> TombOk(s.uploads, s.tombs[k]))
    && (forall k, l :: 0 <= k < l < |s.tombs| ==> s.tombs[k].meta.uid != s.tombs[l].meta.uid)
    && (forall u :: 0 <= u < |s.uploads| && s.uploads[u].phase.Pending? ==> HasTomb(s.tombs, u))
    && Sorted(s.tombs) && UpTo(s.tombs, s.clock)
  }

  ghost predicate CleanerOk(s: State) {
    match s.cleaner
    case Idle => true
    case Scanning(now, pos) => now <= s.clock && pos <= |s.tombs|
    case Deleting(now, pos, i, j) =>
      && now <= s.clock && pos < |s.tombs| && Expired(s.tombs[pos], now)
      && i <= |s.tombs[pos].meta.meta.chunks|
      && (i < |s.tombs[pos].meta.meta.chunks| ==> j <= |s.tombs[pos].meta.meta.chunks[i].nodeIds|)
  }

  // ---------------------------------------------------------------- downloads

  /** What a download has sent is exactly the bytes before its next chunk, of the one upload it reads. */
  ghost predicate ReaderOk(uploads: seq<Upload>, rd: Reader) {
    && FileOk(uploads, rd.file) && uploads[rd.file.uid].name == rd.name
    && rd.next <= |rd.file.meta.chunks|
    && rd.out == Prefix(uploads[rd.file.uid].data, rd.next)
    && (rd.progress.Done? ==> rd.next == |rd.file.meta.chunks|)
    && (rd.progress.Broken? ==> rd.next < |rd.file.meta.chunks|)
  }

  ghost predicate ReadersOk(s: State) {
    forall r :: 0 <= r < |s.readers| ==> ReaderOk(s.uploads, s.readers[r])
  }

  // ---------------------------------------------------------------- disks

  /** Chunk `i` has been written by all its writers and joined. */
  predicate Final(up: Upload, i: nat) {
    i < |up.infos| && !up.phase.Aborted? && (up.phase.Storing? ==> i + 1 < |up.infos|)
  }

  /** The cleanup worker is deleting the chunks of upload `u`. */
  predicate BeingDeleted(s: State, u: nat) {
    s.cleaner.Deleting? && s.cleaner.pos < |s.tombs| && s.tombs[s.cleaner.pos].meta.uid == u
  }

  /** Nothing may have deleted chunks of upload `u`. */
  predicate Intact(s: State, u: nat)
    requires u < |s.uploads|
  {
    match s.uploads[u].phase
    case Aborted | Reclaimed => false
    case Pending(_) => !BeingDeleted(s, u)
    case _ => true
  }

  /** The `j`-th copy of a chunk: never wrong where it exists, and there as long as the file is intact. */
  ghost predicate CopyOk(bound: seq<Addr>, disk: Cluster.Disk, info: ChunkInfo, data: Bytes, j: nat, intact: bool)
    requires j < |info.nodeIds|
  {
    Known(bound, info.nodeIds[j]) ==>
      var loc := Loc(BoundTo(bound, info.nodeIds[j]), info.chunkId);
      && info.chunkId < CHUNK_ID_LIMIT
      && (loc in disk ==> disk[loc] == data)
      && (intact ==> loc in disk)
  }

  ghost predicate ChunkOk(bound: seq<Addr>, disk: Cluster.Disk, up: Upload, i: nat, intact: bool)
    requires i < |up.infos|
  {
    forall j :: 0 <= j < |up.infos[i].nodeIds| ==> CopyOk(bound, disk, up.infos[i], Slice(up.data, i), j, intact)
  }

  ghost predicate DiskOk(s: State) {
    forall u, i :: 0 <= u < |s.uploads| && 0 <= i && Final(s.uploads[u], i) ==>
                     ChunkOk(s.bound, s.disk, s.uploads[u], i, Intact(s, u))
  }

  /** Writer `w` of a chunk no writer of which has failed. */
  ghost predicate WriterOk(bound: seq<Addr>, disk: Cluster.Disk, info: ChunkInfo, data: Bytes, writers: seq<Writer>, w: nat)
    requires w < |writers| && w < |info.nodeIds|
  {
    (writers[w].Writing? || writers[w].Stored?) ==>
      && Known(bound, info.nodeIds[w]) && writers[w].addr == BoundTo(bound, info.nodeIds[w])
      && info.chunkId < CHUNK_ID_LIMIT
      && Reached(writers[w], |data|) <= |data|
      && var loc := Loc(writers[w].addr, info.chunkId);
         loc in disk && Covered(disk[loc], data, writers, writers[w].addr)
  }

  ghost predicate WritersOk(bound: seq<Addr>, disk: Cluster.Disk, info: ChunkInfo, data: Bytes, writers: seq<Writer>) {
    forall w :: 0 <= w < |writers| && w < |info.nodeIds| ==> WriterOk(bound, disk, info, data, writers, w)
  }

  ghost predicate JobOk(bound: seq<Addr>, disk: Cluster.Disk, up: Upload)
    requires up.phase.Storing? && |up.infos| > 0
  {
    Failed !in up.phase.writers ==> WritersOk(bound, disk, LastInfo(up), LastSlice(up), up.phase.writers)
  }

  ghost predicate JobsOk(s: State) {
    forall u :: 0 <= u < |s.uploads| && s.uploads[u].phase.Storing? && |s.uploads[u].infos| > 0 ==>
                  JobOk(s.bound, s.disk, s.uploads[u])
  }

  // ---------------------------------------------------------------- all together

  ghost predicate Inv(s: State) {
    && RegistryOk(s)
    && UploadsOk(s)
    && EntriesOk(s)
    && TombsOk(s)
    && CleanerOk(s)
    && ReadersOk(s)
    && DiskOk(s)
    && JobsOk(s)
  }

  lemma InitInv(s: State)
    requires Init(s)
    ensures Inv(s)
  {
  }

  lemma RegistryKeptByRegister(s: State, addr: Addr)
    requires RegistryOk(s) && addr !in s.registry.Values && |s.bound| < INT32_SPAN
    ensures RegistryOk(s.(bound := s.bound + [addr], registry := s.registry[IdOf(|s.bound|) := addr]))
  {
    SerialOfId(|s.bound|);
    forall id | id in s.registry
      ensures Known(s.bound + [addr], id) && BoundTo(s.bound + [addr], id) == BoundTo(s.bound, id)
      ensures id != IdOf(|s.bound|)
    {
    }
  }

  /** Steps of uploads. */
  predicate Uploads(step: Step) {
    || step.PutBegins? || step.Allocate? || step.AllocateFails? || step.WriterOpens? || step.WriterWrites? || step.WriterCloses?
    || step.WriterFails? || step.StrayWrite? || step.Join? || step.JoinFails? || step.Commit?
  }

  lemma UploadsLeaveRegistry(s: State, step: Step)
    requires Enabled(s, step) && Uploads(step)
    ensures Apply(s, step).registry == s.registry && Apply(s, step).bound == s.bound
  {
  }

  lemma StepLeavesRegistry(s: State, step: Step)
    requires Enabled(s, step) && !step.Register? && !step.Unregister?
    ensures Apply(s, step).registry == s.registry && Apply(s, step).bound == s.bound
  {
    if Uploads(step) {
      UploadsLeaveRegistry(s, step);
    }
  }

  lemma RegistryKept(s: State, step: Step)
    requires RegistryOk(s) && Enabled(s, step)
    ensures RegistryOk(Apply(s, step))
  {
    if step.Register? {
      RegistryKeptByRegister(s, step.addr);
    } else if !step.Unregister? {
      StepLeavesRegistry(s, step);
    }
  }

  // ---------------------------------------------------------------- what no step takes back

  /** Ids stay with their owners, uploads keep their data and their chunks. */
  ghost predicate Grown(s: State, s': State) {
    && s.owner <= s'.owner && s.bound <= s'.bound && |s.uploads| <= |s'.uploads|
    && (forall u :: 0 <= u < |s.uploads| ==>
                      && s'.uploads[u].name == s.uploads[u].name && s'.uploads[u].data == s.uploads[u].data
                      && s.uploads[u].infos <= s'.uploads[u].infos)
    && s.clock <= s'.clock
  }

  /** As Grown, and no upload or chunk is new. */
  ghost predicate SameUploads(s: State, s': State) {
    && s.owner <= s'.owner && s.bound <= s'.bound && |s'.uploads| == |s.uploads|
    && (forall u :: 0 <= u < |s.uploads| ==>
                      && s'.uploads[u].name == s.uploads[u].name && s'.uploads[u].data == s.uploads[u].data
                      && s'.uploads[u].infos == s.uploads[u].infos && s'.uploads[u].seen == s.uploads[u].seen)
    && s.clock <= s'.clock
  }
}
