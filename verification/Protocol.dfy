/**
 The whole system as a state machine. Every step is what the source does without letting anything
 else in between: one registry access, one critical section of the metadata store, one piece of a
 replica write, one call to a data node. Any number of uploads, downloads, deletions, cleanup
 passes, registrations and node outages interleave freely.

 Fields and tags marked "history" record what has happened; no step reads them to decide anything.
 */
module Protocol {
  import opened Types
  import opened Chunking
  import opened Placement
  import opened Tombstones
  import opened NodeIds
  import opened ReplicaWrites
  import Cluster

  /**
   Where an upload stands: between two chunks; waiting for the replica writes of its last chunk;
   given up; or committed. What became of a committed file is history: it is an active file, was
   overwritten by a racing upload, is a tombstone since some time, was reclaimed by a cleanup pass,
   or was forgotten when the tombstones overflowed.
   */
  datatype Phase =
    | Ready
    | Storing(writers: seq<Writer>)
    | Aborted
    | Active
    | Overwritten
    | Pending(since: nat)
    | Reclaimed
    | Forgotten

  /** One call of PutFile; kept as history after its end. `seen` (history): nodes registered at each selection. */
  datatype Upload = Upload(name: Name, data: Bytes, infos: seq<ChunkInfo>, seen: seq<nat>, phase: Phase)

  /** A committed file's metadata, tagged (history) with the upload that made it. */
  datatype File = File(uid: nat, meta: FileMeta)

  datatype Progress = Reading(attempt: nat) | Done | Broken

  /** One call of GetFile, holding the metadata its lookup found. */
  datatype Reader = Reader(name: Name, file: File, next: nat, out: Bytes, progress: Progress)

  /** The cleanup worker. While it is not idle it holds the metadata store's lock. */
  datatype Cleaner =
    | Idle
    | Scanning(now: nat, pos: nat)
    | Deleting(now: nat, pos: nat, i: nat, j: nat)

  /** Which chunk of which upload got a chunk id. */
  datatype Slot = Slot(uid: nat, index: nat)

  datatype State = State(
    owner: seq<Slot>,                  // history; its length is the chunk id counter
    nodeIndex: nat,
    bound: seq<Addr>,                  // history: address of every registration; its length is the node id counter
    registry: Cluster.Registry,
    down: set<Addr>,
    disk: Cluster.Disk,
    clock: nat,
    entries: map<Name, File>,
    tombs: seq<Tombstone<File>>,
    uploads: seq<Upload>,
    readers: seq<Reader>,
    cleaner: Cleaner)

  function MetaOf(up: Upload): FileMeta {
    FileMeta(|up.data|, CHUNK_SIZE, up.infos)
  }

  predicate Committed(phase: Phase) {
    phase.Active? || phase.Overwritten? || phase.Pending? || phase.Reclaimed? || phase.Forgotten?
  }

  // ---------------------------------------------------------------- steps

  datatype Step =
    | PutBegins(name: Name, data: Bytes)
    | Allocate(u: nat, order: seq<NodeId>)
    | AllocateFails(u: nat)
    | WriterOpens(u: nat, w: nat)
    | WriterWrites(u: nat, w: nat, n: nat)
    | WriterCloses(u: nat, w: nat)
    | WriterFails(u: nat, w: nat)
    | StrayWrite(loc: Loc, bytes: Bytes)
    | Join(u: nat)
    | JoinFails(u: nat)
    | Commit(u: nat)
    | Lookup(name: Name)
    | ReadHit(r: nat)
    | ReadMiss(r: nat)
    | ReadFails(r: nat)
    | ReadEnds(r: nat)
    | DeletePath(name: Name, trimTime: nat)
    | CleanupBegins
    | CleanupPasses
    | CleanupTakes
    | CleanupDeletes
    | CleanupNextChunk
    | CleanupErases
    | CleanupEnds
    | Register(addr: Addr)
    | Unregister(id: NodeId)
    | NodeDown(addr: Addr)
    | NodeUp(addr: Addr)
    | Tick(now: nat)

  predicate InUpload(s: State, u: nat) {
    u < |s.uploads|
  }

  predicate InJob(s: State, u: nat, w: nat) {
    && u < |s.uploads| && s.uploads[u].phase.Storing? && |s.uploads[u].infos| > 0
    && w < |s.uploads[u].phase.writers| && w < |LastInfo(s.uploads[u]).nodeIds|
  }

  function LastInfo(up: Upload): ChunkInfo
    requires |up.infos| > 0
  {
    up.infos[|up.infos| - 1]
  }

  function LastSlice(up: Upload): Bytes
    requires |up.infos| > 0
  {
    Slice(up.data, |up.infos| - 1)
  }

  /** Bytes of this chunk can still arrive at nodes from calls that have failed. */
  predicate Doomed(s: State, chunk: ChunkId) {
    && chunk < |s.owner|
    && s.owner[chunk].uid < |s.uploads|
    && var up := s.uploads[s.owner[chunk].uid];
       up.phase.Aborted? || (up.phase.Storing? && Failed in up.phase.writers && s.owner[chunk].index + 1 == |up.infos|)
  }

  predicate InRead(s: State, r: nat) {
    && r < |s.readers| && s.readers[r].progress.Reading?
    && s.readers[r].next < |s.readers[r].file.meta.chunks|
  }

  function ReaderChunk(rd: Reader): ChunkInfo
    requires rd.next < |rd.file.meta.chunks|
  {
    rd.file.meta.chunks[rd.next]
  }

  /** The reader's next attempt goes to a node that hands the chunk out. */
  predicate AttemptHits(s: State, rd: Reader)
    requires rd.progress.Reading? && rd.next < |rd.file.meta.chunks|
    requires rd.progress.attempt < |ReaderChunk(rd).nodeIds|
  {
    Cluster.Usable(s.registry, s.down, s.disk, ReaderChunk(rd).nodeIds[rd.progress.attempt], ReaderChunk(rd).chunkId)
  }

  predicate InCleanup(s: State) {
    && s.cleaner.Deleting? && s.cleaner.pos < |s.tombs|
    && s.cleaner.i <= |s.tombs[s.cleaner.pos].meta.meta.chunks|
  }

  function CleanupChunk(s: State): ChunkInfo
    requires InCleanup(s) && s.cleaner.i < |s.tombs[s.cleaner.pos].meta.meta.chunks|
  {
    s.tombs[s.cleaner.pos].meta.meta.chunks[s.cleaner.i]
  }

  ghost predicate Enabled(s: State, step: Step) {
    match step
    case PutBegins(name, data) =>
      s.cleaner.Idle? && name != "" && name !in s.entries && |data| <= MAX_UPLOAD
    case Allocate(u, order) =>
      && InUpload(s, u) && s.uploads[u].phase.Ready? && |s.uploads[u].infos| < NumChunks(|s.uploads[u].data|)
      && order != [] && IsOrderOf(order, s.registry.Keys) && |s.owner| < UINT64_SPAN
    case AllocateFails(u) =>
      && InUpload(s, u) && s.uploads[u].phase.Ready? && |s.uploads[u].infos| < NumChunks(|s.uploads[u].data|)
      && s.registry.Keys == {} && |s.owner| < UINT64_SPAN
    case WriterOpens(u, w) =>
      && InJob(s, u, w) && s.uploads[u].phase.writers[w].Waiting?
      && Cluster.Answers(s.registry, s.down, LastInfo(s.uploads[u]).nodeIds[w], LastInfo(s.uploads[u]).chunkId)
    case WriterWrites(u, w, n) =>
      && InJob(s, u, w) && s.uploads[u].phase.writers[w].Writing?
      && s.uploads[u].phase.writers[w].off + n <= |LastSlice(s.uploads[u])|
      && Loc(s.uploads[u].phase.writers[w].addr, LastInfo(s.uploads[u]).chunkId) in s.disk
    case WriterCloses(u, w) =>
      && InJob(s, u, w) && s.uploads[u].phase.writers[w].Writing?
      && s.uploads[u].phase.writers[w].off == |LastSlice(s.uploads[u])|
    case WriterFails(u, w) =>
      InJob(s, u, w) && (s.uploads[u].phase.writers[w].Waiting? || s.uploads[u].phase.writers[w].Writing?)
    case StrayWrite(loc, bytes) =>
      Doomed(s, loc.chunk)
    case Join(u) =>
      && InUpload(s, u) && s.uploads[u].phase.Storing?
      && forall w :: w in s.uploads[u].phase.writers ==> w.Stored?
    case JoinFails(u) =>
      && InUpload(s, u) && s.uploads[u].phase.Storing? && Failed in s.uploads[u].phase.writers
      && forall w :: w in s.uploads[u].phase.writers ==> w.Stored? || w.Failed?
    case Commit(u) =>
      && s.cleaner.Idle? && InUpload(s, u) && s.uploads[u].phase.Ready?
      && |s.uploads[u].infos| == NumChunks(|s.uploads[u].data|)
    case Lookup(name) =>
      s.cleaner.Idle? && name in s.entries
    case ReadHit(r) =>
      InRead(s, r) && s.readers[r].progress.attempt < |ReaderChunk(s.readers[r]).nodeIds| && AttemptHits(s, s.readers[r])
    case ReadMiss(r) =>
      InRead(s, r) && s.readers[r].progress.attempt < |ReaderChunk(s.readers[r]).nodeIds| && !AttemptHits(s, s.readers[r])
    case ReadFails(r) =>
      InRead(s, r) && s.readers[r].progress.attempt >= |ReaderChunk(s.readers[r]).nodeIds|
    case ReadEnds(r) =>
      r < |s.readers| && s.readers[r].progress.Reading? && s.readers[r].next == |s.readers[r].file.meta.chunks|
    case DeletePath(name, trimTime) =>
      s.cleaner.Idle? && name in s.entries && s.entries[name].uid < |s.uploads| && s.clock <= trimTime
    case CleanupBegins =>
      s.cleaner.Idle?
    case CleanupPasses =>
      s.cleaner.Scanning? && s.cleaner.pos < |s.tombs| && !Expired(s.tombs[s.cleaner.pos], s.cleaner.now)
    case CleanupTakes =>
      s.cleaner.Scanning? && s.cleaner.pos < |s.tombs| && Expired(s.tombs[s.cleaner.pos], s.cleaner.now)
    case CleanupDeletes =>
      && InCleanup(s) && s.cleaner.i < |s.tombs[s.cleaner.pos].meta.meta.chunks|
      && s.cleaner.j < |CleanupChunk(s).nodeIds|
    case CleanupNextChunk =>
      && InCleanup(s) && s.cleaner.i < |s.tombs[s.cleaner.pos].meta.meta.chunks|
      && s.cleaner.j >= |CleanupChunk(s).nodeIds|
    case CleanupErases =>
      && InCleanup(s) && s.cleaner.i == |s.tombs[s.cleaner.pos].meta.meta.chunks|
      && s.tombs[s.cleaner.pos].meta.uid < |s.uploads|
    case CleanupEnds =>
      s.cleaner.Scanning? && s.cleaner.pos == |s.tombs|
    case Register(addr) =>
      addr !in s.registry.Values && |s.bound| < INT32_SPAN
    case Unregister(id) =>
      id in s.registry
    case NodeDown(addr) =>
      addr !in s.down
    case NodeUp(addr) =>
      addr in s.down
    case Tick(now) =>
      s.clock <= now
  }

  function WithUpload(s: State, u: nat, up: Upload): State
    requires u < |s.uploads|
  {
    s.(uploads := s.uploads[u := up])
  }

  function WithPhase(s: State, u: nat, phase: Phase): State
    requires u < |s.uploads|
  {
    WithUpload(s, u, s.uploads[u].(phase := phase))
  }

  function WithWriter(s: State, u: nat, w: nat, writer: Writer): State
    requires u < |s.uploads| && s.uploads[u].phase.Storing? && w < |s.uploads[u].phase.writers|
  {
    WithPhase(s, u, Storing(s.uploads[u].phase.writers[w := writer]))
  }

  function WithReader(s: State, r: nat, rd: Reader): State
    requires r < |s.readers|
  {
    s.(readers := s.readers[r := rd])
  }

  function Allocated(s: State, u: nat, order: seq<NodeId>): State
    requires u < |s.uploads| && |order| > 0
  {
    var up := s.uploads[u];
    var info := ChunkInfo(|s.owner|, Select(order, StartOf(s.nodeIndex, |order|), REPLICATION_FACTOR), REPLICATION_FACTOR);
    WithUpload(s.(owner := s.owner + [Slot(u, |up.infos|)], nodeIndex := (s.nodeIndex + 1) % UINT32_SPAN), u,
               up.(infos := up.infos + [info], seen := up.seen + [|order|],
                   phase := Storing(seq(REPLICATION_FACTOR, _ => Waiting))))
  }

  function Commits(s: State, u: nat): State
    requires u < |s.uploads|
  {
    var name := s.uploads[u].name;
    var s1 := if name in s.entries && s.entries[name].uid < |s.uploads| then WithPhase(s, s.entries[name].uid, Overwritten) else s;
    WithPhase(s1, u, Active).(entries := s.entries[name := File(u, MetaOf(s.uploads[u]))])
  }

  /** The uploads after the first `k` tombstones of `ts` have been trimmed. */
  function Forget(uploads: seq<Upload>, ts: seq<Tombstone<File>>, k: nat): (after: seq<Upload>)
    requires k <= |ts|
    ensures |after| == |uploads|
  {
    seq(|uploads|, u requires 0 <= u < |uploads| =>
      if exists i :: 0 <= i < k && ts[i].meta.uid == u then uploads[u].(phase := Forgotten) else uploads[u])
  }

  function Deletes(s: State, name: Name, trimTime: nat): State
    requires name in s.entries && s.entries[name].uid < |s.uploads|
  {
    var file := s.entries[name];
    var s1 := WithPhase(s, file.uid, Pending(s.clock)).(entries := s.entries - {name}, clock := trimTime);
    var all := s.tombs + [Tombstone(name, file, s.clock)];
    if |all| > MAX_DELETED_ENTRIES then
      var k := ExpiredPrefix(all, trimTime);
      s1.(tombs := all[k..], uploads := Forget(s1.uploads, all, k))
    else
      s1.(tombs := all)
  }

  ghost function Opens(s: State, u: nat, w: nat): State
    requires Enabled(s, WriterOpens(u, w))
  {
    var info := LastInfo(s.uploads[u]);
    var addr := s.registry[info.nodeIds[w]];
    WithWriter(s, u, w, Writing(addr, 0)).(disk := s.disk[Loc(addr, info.chunkId) := []])
  }

  ghost function Writes(s: State, u: nat, w: nat, n: nat): State
    requires Enabled(s, WriterWrites(u, w, n))
  {
    var writer := s.uploads[u].phase.writers[w];
    var loc := Loc(writer.addr, LastInfo(s.uploads[u]).chunkId);
    var piece := LastSlice(s.uploads[u])[writer.off..writer.off + n];
    WithWriter(s, u, w, Writing(writer.addr, writer.off + n)).(disk := s.disk[loc := WriteAt(s.disk[loc], writer.off, piece)])
  }

  ghost function Hits(s: State, r: nat): State
    requires Enabled(s, ReadHit(r))
  {
    var rd := s.readers[r];
    var info := ReaderChunk(rd);
    var data := s.disk[Loc(s.registry[info.nodeIds[rd.progress.attempt]], info.chunkId)];
    WithReader(s, r, rd.(next := rd.next + 1, out := rd.out + data, progress := Reading(0)))
  }

  ghost function Sweeps(s: State): State
    requires Enabled(s, CleanupDeletes)
  {
    var info := CleanupChunk(s);
    var id := info.nodeIds[s.cleaner.j];
    s.(cleaner := s.cleaner.(j := s.cleaner.j + 1),
       disk := if Cluster.Answers(s.registry, s.down, id, info.chunkId)
               then s.disk - {Loc(s.registry[id], info.chunkId)} else s.disk)
  }

  ghost function Drops(s: State): State
    requires Enabled(s, CleanupErases)
  {
    var pos := s.cleaner.pos;
    WithPhase(s, s.tombs[pos].meta.uid, Reclaimed).(
      tombs := s.tombs[..pos] + s.tombs[pos + 1..],
      cleaner := Scanning(s.cleaner.now, pos))
  }

  ghost function Apply(s: State, step: Step): State
    requires Enabled(s, step)
  {
    match step
    case PutBegins(name, data) =>
      s.(uploads := s.uploads + [Upload(name, data, [], [], Ready)])
    case Allocate(u, order) =>
      Allocated(s, u, order)
    case AllocateFails(u) =>
      WithPhase(s, u, Aborted).(owner := s.owner + [Slot(u, |s.uploads[u].infos|)])
    case WriterOpens(u, w) =>
      Opens(s, u, w)
    case WriterWrites(u, w, n) =>
      Writes(s, u, w, n)
    case WriterCloses(u, w) =>
      WithWriter(s, u, w, Stored(s.uploads[u].phase.writers[w].addr))
    case WriterFails(u, w) =>
      WithWriter(s, u, w, Failed)
    case StrayWrite(loc, bytes) =>
      s.(disk := s.disk[loc := bytes])
    case Join(u) =>
      WithPhase(s, u, Ready)
    case JoinFails(u) =>
      WithPhase(s, u, Aborted)
    case Commit(u) =>
      Commits(s, u)
    case Lookup(name) =>
      s.(readers := s.readers + [Reader(name, s.entries[name], 0, [], Reading(0))])
    case ReadHit(r) =>
      Hits(s, r)
    case ReadMiss(r) =>
      WithReader(s, r, s.readers[r].(progress := Reading(s.readers[r].progress.attempt + 1)))
    case ReadFails(r) =>
      WithReader(s, r, s.readers[r].(progress := Broken))
    case ReadEnds(r) =>
      WithReader(s, r, s.readers[r].(progress := Done))
    case DeletePath(name, trimTime) =>
      Deletes(s, name, trimTime)
    case CleanupBegins =>
      s.(cleaner := Scanning(s.clock, 0))
    case CleanupPasses =>
      s.(cleaner := Scanning(s.cleaner.now, s.cleaner.pos + 1))
    case CleanupTakes =>
      s.(cleaner := Deleting(s.cleaner.now, s.cleaner.pos, 0, 0))
    case CleanupDeletes =>
      Sweeps(s)
    case CleanupNextChunk =>
      s.(cleaner := s.cleaner.(i := s.cleaner.i + 1, j := 0))
    case CleanupErases =>
      Drops(s)
    case CleanupEnds =>
      s.(cleaner := Idle)
    case Register(addr) =>
      s.(bound := s.bound + [addr], registry := s.registry[IdOf(|s.bound|) := addr])
    case Unregister(id) =>
      s.(registry := s.registry - {id})
    case NodeDown(addr) =>
      s.(down := s.down + {addr})
    case NodeUp(addr) =>
      s.(down := s.down - {addr})
    case Tick(now) =>
      s.(clock := now)
  }

  /** A freshly started coordinator; data nodes may hold any files. */
  ghost predicate Init(s: State) {
    && s.owner == [] && s.nodeIndex == 0 && s.bound == [] && s.registry == map[]
    && s.entries == map[] && s.tombs == [] && s.uploads == [] && s.readers == [] && s.cleaner == Idle
  }

  /** A run: its states, and the steps between them. */
  ghost predicate Run(states: seq<State>, steps: seq<Step>) {
    && |states| == |steps| + 1
    && Init(states[0])
    && forall k :: 0 <= k < |steps| ==> Enabled(states[k], steps[k]) && states[k + 1] == Apply(states[k], steps[k])
  }
}
