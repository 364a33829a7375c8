/**
 The two views of the coordinator agree: what a call of the service does on its own, the system does in
 a sequence of steps that nothing interrupts.
 */
module Views {
  import opened Types
  import opened Chunking
  import opened Placement
  import opened ReplicaWrites
  import opened Protocol
  import opened Paths
  import opened Cluster
  import opened Coordinator

  // ---------------------------------------------------------------- one replica, one chunk

  /** The upload's state after `k` chunks have been placed, seen from the state `s` before it began. */
  function During(s: State, name: Name, data: Bytes, order: seq<NodeId>, k: nat, phase: Phase, disk: Disk): State {
    s.(owner := s.owner + Slots(|s.uploads|, k), nodeIndex := (s.nodeIndex + k) % UINT32_SPAN,
       uploads := s.uploads + [Upload(name, data, Planning(order, |s.owner|, s.nodeIndex, k), seq(k, _ => |order|), phase)],
       disk := disk)
  }

  function Slots(u: nat, k: nat): seq<Slot> {
    seq(k, i requires 0 <= i < k => Slot(u, i))
  }

  /** The upload can begin, and nothing else holds it up. */
  ghost predicate CanUpload(s: State, name: Name, data: Bytes, order: seq<NodeId>) {
    && name != "" && |data| <= MAX_UPLOAD
    && s.cleaner.Idle? && name !in s.entries
    && IsOrderOf(order, s.registry.Keys) && s.nodeIndex < UINT32_SPAN
    && |s.owner| + NumChunks(|data|) <= UINT64_SPAN
  }

  function Stores(u: nat, w: nat, size: nat): seq<Step> {
    [WriterOpens(u, w), WriterWrites(u, w, size), WriterCloses(u, w)]
  }

  /** Chunk `k` is the last one placed, and its writers stand like this. */
  function StoringAt(s: State, name: Name, data: Bytes, order: seq<NodeId>, k: nat, writers: seq<Writer>, disk: Disk): State {
    During(s, name, data, order, k + 1, Storing(writers), disk)
  }

  lemma LastOfDuring(s: State, name: Name, data: Bytes, order: seq<NodeId>, k: nat, writers: seq<Writer>, disk: Disk)
    requires order != []
    ensures var s1, u := StoringAt(s, name, data, order, k, writers, disk), |s.uploads|;
            && |s1.uploads| == u + 1 && |s1.uploads[u].infos| == k + 1
            && LastInfo(s1.uploads[u]) == Planned(order, |s.owner|, s.nodeIndex, k)
            && LastSlice(s1.uploads[u]) == Slice(data, k)
            && s1.uploads[u].phase == Storing(writers)
  {
  }

  lemma WithWriterDuring(s: State, name: Name, data: Bytes, order: seq<NodeId>, k: nat, writers: seq<Writer>, w: nat, writer: Writer, disk: Disk, disk': Disk)
    requires order != [] && w < |writers|
    ensures var s1, u := StoringAt(s, name, data, order, k, writers, disk), |s.uploads|;
            && u < |s1.uploads| && s1.uploads[u].phase == Storing(writers)
            && WithWriter(s1, u, w, writer).(disk := disk') == StoringAt(s, name, data, order, k, writers[w := writer], disk')
  {
    LastOfDuring(s, name, data, order, k, writers, disk);
    var s1, u := StoringAt(s, name, data, order, k, writers, disk), |s.uploads|;
    var up := s1.uploads[u].(phase := Storing(writers[w := writer]));
    assert s1.uploads[u := up] == s.uploads + [up];
  }

  lemma OpensAlone(s: State, name: Name, data: Bytes, order: seq<NodeId>, k: nat, writers: seq<Writer>, w: nat, addr: Addr, disk: Disk)
    requires order != [] && w < |writers| == REPLICATION_FACTOR && writers[w].Waiting?
    requires var info := Planned(order, |s.owner|, s.nodeIndex, k);
             Answers(s.registry, s.down, info.nodeIds[w], info.chunkId) && s.registry[info.nodeIds[w]] == addr
    ensures var s1, u := StoringAt(s, name, data, order, k, writers, disk), |s.uploads|;
            var loc := Loc(addr, IdAfter(|s.owner|, k));
            Path(s1, [WriterOpens(u, w)], StoringAt(s, name, data, order, k, writers[w := Writing(addr, 0)], disk[loc := []]))
  {
    LastOfDuring(s, name, data, order, k, writers, disk);
    WithWriterDuring(s, name, data, order, k, writers, w, Writing(addr, 0), disk, disk[Loc(addr, IdAfter(|s.owner|, k)) := []]);
    PathOne(StoringAt(s, name, data, order, k, writers, disk), WriterOpens(|s.uploads|, w));
  }

  lemma WritesAlone(s: State, name: Name, data: Bytes, order: seq<NodeId>, k: nat, writers: seq<Writer>, w: nat, addr: Addr, disk: Disk)
    requires order != [] && w < |writers| == REPLICATION_FACTOR && writers[w] == Writing(addr, 0)
    requires var loc := Loc(addr, IdAfter(|s.owner|, k)); loc in disk && disk[loc] == []
    ensures var s1, u, size := StoringAt(s, name, data, order, k, writers, disk), |s.uploads|, |Slice(data, k)|;
            var loc := Loc(addr, IdAfter(|s.owner|, k));
            Path(s1, [WriterWrites(u, w, size)], StoringAt(s, name, data, order, k, writers[w := Writing(addr, size)], disk[loc := Slice(data, k)]))
  {
    var slice, loc := Slice(data, k), Loc(addr, IdAfter(|s.owner|, k));
    LastOfDuring(s, name, data, order, k, writers, disk);
    WithWriterDuring(s, name, data, order, k, writers, w, Writing(addr, |slice|), disk, disk[loc := slice]);
    assert WriteAt([], 0, slice[0..|slice|]) == slice;
    PathOne(StoringAt(s, name, data, order, k, writers, disk), WriterWrites(|s.uploads|, w, |slice|));
  }

  lemma ClosesAlone(s: State, name: Name, data: Bytes, order: seq<NodeId>, k: nat, writers: seq<Writer>, w: nat, addr: Addr, disk: Disk)
    requires order != [] && w < |writers| == REPLICATION_FACTOR && writers[w] == Writing(addr, |Slice(data, k)|)
    ensures var s1, u := StoringAt(s, name, data, order, k, writers, disk), |s.uploads|;
            Path(s1, [WriterCloses(u, w)], StoringAt(s, name, data, order, k, writers[w := Stored(addr)], disk))
  {
    LastOfDuring(s, name, data, order, k, writers, disk);
    WithWriterDuring(s, name, data, order, k, writers, w, Stored(addr), disk, disk);
    PathOne(StoringAt(s, name, data, order, k, writers, disk), WriterCloses(|s.uploads|, w));
  }

  /** One replica written by itself. */
  lemma PathStores(s: State, name: Name, data: Bytes, order: seq<NodeId>, k: nat, writers: seq<Writer>, w: nat, addr: Addr, disk: Disk)
    requires order != [] && w < |writers| == REPLICATION_FACTOR && writers[w].Waiting?
    requires var info := Planned(order, |s.owner|, s.nodeIndex, k);
             Answers(s.registry, s.down, info.nodeIds[w], info.chunkId) && s.registry[info.nodeIds[w]] == addr
    ensures Path(StoringAt(s, name, data, order, k, writers, disk), Stores(|s.uploads|, w, |Slice(data, k)|),
                 StoringAt(s, name, data, order, k, writers[w := Stored(addr)], disk[Loc(addr, IdAfter(|s.owner|, k)) := Slice(data, k)]))
  {
    var u, size, loc := |s.uploads|, |Slice(data, k)|, Loc(addr, IdAfter(|s.owner|, k));
    var ws1, ws2, ws3 := writers[w := Writing(addr, 0)], writers[w := Writing(addr, size)], writers[w := Stored(addr)];
    var d1, d2 := disk[loc := []], disk[loc := Slice(data, k)];
    OpensAlone(s, name, data, order, k, writers, w, addr, disk);
    WritesAlone(s, name, data, order, k, ws1, w, addr, d1);
    ClosesAlone(s, name, data, order, k, ws2, w, addr, d2);
    assert ws1[w := Writing(addr, size)] == ws2 && ws2[w := Stored(addr)] == ws3 && d1[loc := Slice(data, k)] == d2;
    var s0, s3 := StoringAt(s, name, data, order, k, writers, disk), StoringAt(s, name, data, order, k, ws3, d2);
    var s1, s2 := StoringAt(s, name, data, order, k, ws1, d1), StoringAt(s, name, data, order, k, ws2, d2);
    PathJoin(s1, [WriterWrites(u, w, size)], s2, [WriterCloses(u, w)], s3);
    PathJoin(s0, [WriterOpens(u, w)], s1, [WriterWrites(u, w, size)] + [WriterCloses(u, w)], s3);
    assert Stores(u, w, size) == [WriterOpens(u, w)] + ([WriterWrites(u, w, size)] + [WriterCloses(u, w)]);
  }

  lemma FailsAlone(s: State, name: Name, data: Bytes, order: seq<NodeId>, k: nat, writers: seq<Writer>, w: nat, disk: Disk)
    requires order != [] && w < |writers| == REPLICATION_FACTOR && writers[w].Waiting?
    ensures Path(StoringAt(s, name, data, order, k, writers, disk), [WriterFails(|s.uploads|, w)],
                 StoringAt(s, name, data, order, k, writers[w := Failed], disk))
  {
    LastOfDuring(s, name, data, order, k, writers, disk);
    WithWriterDuring(s, name, data, order, k, writers, w, Failed, disk, disk);
    PathOne(StoringAt(s, name, data, order, k, writers, disk), WriterFails(|s.uploads|, w));
  }

  predicate ReplicaAnswers(s: State, info: ChunkInfo, w: nat)
    requires w < |info.nodeIds|
  {
    Answers(s.registry, s.down, info.nodeIds[w], info.chunkId)
  }

  /** How replica `w`'s writer ends if nothing interrupts it. */
  function WriterEnds(s: State, info: ChunkInfo, w: nat): Writer
    requires w < |info.nodeIds|
  {
    if ReplicaAnswers(s, info, w) then Stored(s.registry[info.nodeIds[w]]) else Failed
  }

  /** The disks after replica `w` has been written, if its node answers. */
  function Wrote(s: State, info: ChunkInfo, w: nat, data: Bytes, disk: Disk): Disk
    requires w < |info.nodeIds|
  {
    if ReplicaAnswers(s, info, w) then disk[Loc(s.registry[info.nodeIds[w]], info.chunkId) := data] else disk
  }

  function ReplicaSteps(s: State, info: ChunkInfo, w: nat, size: nat): seq<Step>
    requires w < |info.nodeIds|
  {
    if ReplicaAnswers(s, info, w) then Stores(|s.uploads|, w, size) else [WriterFails(|s.uploads|, w)]
  }

  lemma PathReplica(s: State, name: Name, data: Bytes, order: seq<NodeId>, k: nat, writers: seq<Writer>, w: nat, disk: Disk)
    requires order != [] && w < |writers| == REPLICATION_FACTOR && writers[w].Waiting?
    ensures var info := Planned(order, |s.owner|, s.nodeIndex, k);
            Path(StoringAt(s, name, data, order, k, writers, disk), ReplicaSteps(s, info, w, |Slice(data, k)|),
                 StoringAt(s, name, data, order, k, writers[w := WriterEnds(s, info, w)], Wrote(s, info, w, Slice(data, k), disk)))
  {
    var info := Planned(order, |s.owner|, s.nodeIndex, k);
    if ReplicaAnswers(s, info, w) {
      PathStores(s, name, data, order, k, writers, w, s.registry[info.nodeIds[w]], disk);
    } else {
      FailsAlone(s, name, data, order, k, writers, w, disk);
    }
  }

  lemma AllocatesAlone(s: State, name: Name, data: Bytes, order: seq<NodeId>, k: nat, disk: Disk)
    requires order != [] && IsOrderOf(order, s.registry.Keys) && k < NumChunks(|data|) && |s.owner| + k < UINT64_SPAN
    ensures Path(During(s, name, data, order, k, Ready, disk), [Allocate(|s.uploads|, order)],
                 StoringAt(s, name, data, order, k, [Waiting, Waiting, Waiting], disk))
  {
    var s0, u := During(s, name, data, order, k, Ready, disk), |s.uploads|;
    assert Enabled(s0, Allocate(u, order));
    AllocatedAlone(s, name, data, order, k, disk);
    PathOne(s0, Allocate(u, order));
  }

  lemma AllocatedAlone(s: State, name: Name, data: Bytes, order: seq<NodeId>, k: nat, disk: Disk)
    requires order != [] && |s.owner| + k < UINT64_SPAN
    ensures |s.uploads| < |During(s, name, data, order, k, Ready, disk).uploads|
    ensures Allocated(During(s, name, data, order, k, Ready, disk), |s.uploads|, order) ==
            StoringAt(s, name, data, order, k, [Waiting, Waiting, Waiting], disk)
  {
    var s0, u := During(s, name, data, order, k, Ready, disk), |s.uploads|;
    AllocatesPlanned(s, order, k);
    PlanAppend(order, |s.owner|, s.nodeIndex, k);
    assert seq(REPLICATION_FACTOR, _ => Waiting) == [Waiting, Waiting, Waiting];
    assert seq(k, _ => |order|) + [|order|] == seq(k + 1, _ => |order|);
    SlotsAppend(s.owner, u, k);
    var up' := Upload(name, data, Plan(order, |s.owner|, s.nodeIndex, k + 1), seq(k + 1, _ => |order|), Storing([Waiting, Waiting, Waiting]));
    assert s0.uploads[u := up'] == s.uploads + [up'];
    NextIndex(s.nodeIndex, k);
  }

  lemma SlotsAppend(owner: seq<Slot>, u: nat, k: nat)
    ensures (owner + Slots(u, k)) + [Slot(u, k)] == owner + Slots(u, k + 1)
  {
    assert Slots(u, k) + [Slot(u, k)] == Slots(u, k + 1);
  }

  lemma NextIndex(index: nat, k: nat)
    ensures ((index + k) % UINT32_SPAN + 1) % UINT32_SPAN == (index + (k + 1)) % UINT32_SPAN
  {
  }

  lemma AllocatesPlanned(s: State, order: seq<NodeId>, k: nat)
    requires order != [] && |s.owner| + k < UINT64_SPAN
    ensures ChunkInfo(|s.owner| + k, Select(order, StartOf((s.nodeIndex + k) % UINT32_SPAN, |order|), REPLICATION_FACTOR), REPLICATION_FACTOR) ==
            Planned(order, |s.owner|, s.nodeIndex, k)
  {
    StartOfWrapped(s.nodeIndex + k, |order|);
  }

  /** How the upload stands after the join of a chunk. */
  function Joined(s: State, info: ChunkInfo): Phase {
    if AllAnswer(s.registry, s.down, info) then Ready else Aborted
  }

  lemma JoinsAlone(s: State, name: Name, data: Bytes, order: seq<NodeId>, k: nat, writers: seq<Writer>, disk: Disk)
    requires order != []
    requires var info := Planned(order, |s.owner|, s.nodeIndex, k);
             writers == [WriterEnds(s, info, 0), WriterEnds(s, info, 1), WriterEnds(s, info, 2)]
    ensures var info := Planned(order, |s.owner|, s.nodeIndex, k);
            Path(StoringAt(s, name, data, order, k, writers, disk), [JoinStep(s, info)],
                 During(s, name, data, order, k + 1, Joined(s, info), disk))
  {
    var info := Planned(order, |s.owner|, s.nodeIndex, k);
    var s1, u := StoringAt(s, name, data, order, k, writers, disk), |s.uploads|;
    var up := s1.uploads[u].(phase := Joined(s, info));
    assert s1.uploads[u := up] == s.uploads + [up];
    EndsSay(s, info, writers);
    assert Enabled(s1, JoinStep(s, info));
    PathOne(s1, JoinStep(s, info));
  }

  function JoinStep(s: State, info: ChunkInfo): Step {
    if AllAnswer(s.registry, s.down, info) then Join(|s.uploads|) else JoinFails(|s.uploads|)
  }

  lemma EndsSay(s: State, info: ChunkInfo, writers: seq<Writer>)
    requires |info.nodeIds| == REPLICATION_FACTOR && writers == [WriterEnds(s, info, 0), WriterEnds(s, info, 1), WriterEnds(s, info, 2)]
    ensures forall w :: w in writers ==> w.Stored? || w.Failed?
    ensures AllAnswer(s.registry, s.down, info) <==> Failed !in writers
    ensures AllAnswer(s.registry, s.down, info) <==> forall w :: w in writers ==> w.Stored?
  {
    assert AllAnswer(s.registry, s.down, info) <==> ReplicaAnswers(s, info, 0) && ReplicaAnswers(s, info, 1) && ReplicaAnswers(s, info, 2);
    assert forall w: nat :: w < REPLICATION_FACTOR ==> writers[w] in writers && writers[w] == WriterEnds(s, info, w);
  }

  /** The steps of one chunk. */
  function ChunkSteps(s: State, order: seq<NodeId>, info: ChunkInfo, size: nat): seq<Step>
    requires |info.nodeIds| == REPLICATION_FACTOR
  {
    [Allocate(|s.uploads|, order)]
    + (ReplicaSteps(s, info, 0, size) + (ReplicaSteps(s, info, 1, size) + (ReplicaSteps(s, info, 2, size) + [JoinStep(s, info)])))
  }

  /** The disks after all replicas of a chunk. */
  function WroteAll(s: State, info: ChunkInfo, data: Bytes, disk: Disk): Disk
    requires |info.nodeIds| == REPLICATION_FACTOR
  {
    Wrote(s, info, 2, data, Wrote(s, info, 1, data, Wrote(s, info, 0, data, disk)))
  }

  lemma AllWritten(s: State, info: ChunkInfo, data: Bytes, disk: Disk)
    requires |info.nodeIds| == REPLICATION_FACTOR
    ensures ChunkStored(s.registry, s.down, WroteAll(s, info, data, disk), info, data)
    ensures OnlyTargetsDiffer(s.registry, s.down, [info], disk, WroteAll(s, info, data, disk))
  {
    var disk' := WroteAll(s, info, data, disk);
    assert [info][0] == info;
    forall w: nat | w < REPLICATION_FACTOR && ReplicaAnswers(s, info, w)
      ensures TargetsChunk(s.registry, s.down, info, Loc(s.registry[info.nodeIds[w]], info.chunkId))
    {
      assert TargetsReplica(s.registry, s.down, info, w, Loc(s.registry[info.nodeIds[w]], info.chunkId));
    }
    forall loc | TargetsChunk(s.registry, s.down, info, loc)
      ensures loc in disk' && disk'[loc] == data
    {
      var j: nat :| j < |info.nodeIds| && TargetsReplica(s.registry, s.down, info, j, loc);
      assert ReplicaAnswers(s, info, j);
    }
  }

  lemma PathChunk(s: State, name: Name, data: Bytes, order: seq<NodeId>, k: nat, disk: Disk)
    requires order != [] && IsOrderOf(order, s.registry.Keys) && k < NumChunks(|data|) && |s.owner| + k < UINT64_SPAN
    ensures var info := Planned(order, |s.owner|, s.nodeIndex, k);
            Path(During(s, name, data, order, k, Ready, disk), ChunkSteps(s, order, info, |Slice(data, k)|),
                 During(s, name, data, order, k + 1, Joined(s, info), WroteAll(s, info, Slice(data, k), disk)))
  {
    var info, slice, u := Planned(order, |s.owner|, s.nodeIndex, k), Slice(data, k), |s.uploads|;
    var ws0 := [Waiting, Waiting, Waiting];
    var ws1 := ws0[0 := WriterEnds(s, info, 0)];
    var ws2 := ws1[1 := WriterEnds(s, info, 1)];
    var ws3 := ws2[2 := WriterEnds(s, info, 2)];
    assert ws3 == [WriterEnds(s, info, 0), WriterEnds(s, info, 1), WriterEnds(s, info, 2)];
    var d1 := Wrote(s, info, 0, slice, disk);
    var d2 := Wrote(s, info, 1, slice, d1);
    var d3 := Wrote(s, info, 2, slice, d2);
    AllocatesAlone(s, name, data, order, k, disk);
    PathReplica(s, name, data, order, k, ws0, 0, disk);
    PathReplica(s, name, data, order, k, ws1, 1, d1);
    PathReplica(s, name, data, order, k, ws2, 2, d2);
    JoinsAlone(s, name, data, order, k, ws3, d3);
    PathFive(During(s, name, data, order, k, Ready, disk), [Allocate(u, order)],
             StoringAt(s, name, data, order, k, ws0, disk), ReplicaSteps(s, info, 0, |slice|),
             StoringAt(s, name, data, order, k, ws1, d1), ReplicaSteps(s, info, 1, |slice|),
             StoringAt(s, name, data, order, k, ws2, d2), ReplicaSteps(s, info, 2, |slice|),
             StoringAt(s, name, data, order, k, ws3, d3), [JoinStep(s, info)],
             During(s, name, data, order, k + 1, Joined(s, info), d3));
  }

  lemma PathFive(s0: State, a: seq<Step>, s1: State, b: seq<Step>, s2: State, c: seq<Step>, s3: State, d: seq<Step>, s4: State, e: seq<Step>, s5: State)
    requires Path(s0, a, s1) && Path(s1, b, s2) && Path(s2, c, s3) && Path(s3, d, s4) && Path(s4, e, s5)
    ensures Path(s0, a + (b + (c + (d + e))), s5)
  {
    PathJoin(s3, d, s4, e, s5);
    PathJoin(s2, c, s3, d + e, s5);
    PathJoin(s1, b, s2, c + (d + e), s5);
    PathJoin(s0, a, s1, b + (c + (d + e)), s5);
  }

  // ---------------------------------------------------------------- a whole upload

  lemma BeginsAlone(s: State, name: Name, data: Bytes, order: seq<NodeId>)
    requires CanUpload(s, name, data, order)
    ensures Path(s, [PutBegins(name, data)], During(s, name, data, order, 0, Ready, s.disk))
  {
    DuringAtFirst(s, name, data, order);
    PathOne(s, PutBegins(name, data));
  }

  lemma DuringAtFirst(s: State, name: Name, data: Bytes, order: seq<NodeId>)
    requires s.nodeIndex < UINT32_SPAN
    ensures During(s, name, data, order, 0, Ready, s.disk) == s.(uploads := s.uploads + [Upload(name, data, [], [], Ready)])
  {
    assert s.owner + Slots(|s.uploads|, 0) == s.owner;
    assert Planning(order, |s.owner|, s.nodeIndex, 0) == [] && seq(0, _ => |order|) == [];
  }

  /** The state after a successful upload. */
  function Published(s: State, name: Name, data: Bytes, order: seq<NodeId>, disk: Disk): State {
    var n := NumChunks(|data|);
    During(s, name, data, order, n, Active, disk).(
      entries := s.entries[name := File(|s.uploads|, FileMeta(|data|, CHUNK_SIZE, Planning(order, |s.owner|, s.nodeIndex, n)))])
  }

  lemma CommitsAlone(s: State, name: Name, data: Bytes, order: seq<NodeId>, disk: Disk)
    requires CanUpload(s, name, data, order) && (order == [] ==> NumChunks(|data|) == 0)
    ensures Path(During(s, name, data, order, NumChunks(|data|), Ready, disk), [Commit(|s.uploads|)], Published(s, name, data, order, disk))
  {
    var s1, u := During(s, name, data, order, NumChunks(|data|), Ready, disk), |s.uploads|;
    var up := s1.uploads[u].(phase := Active);
    assert s1.uploads[u := up] == s.uploads + [up];
    assert |s1.uploads[u].infos| == NumChunks(|data|);
    PathOne(s1, Commit(u));
  }

  lemma {:induction false} PathChunks(s: State, name: Name, data: Bytes, order: seq<NodeId>, k: nat) returns (steps: seq<Step>, disk: Disk)
    requires CanUpload(s, name, data, order) && k <= NumChunks(|data|)
    requires CanStore(s.registry, s.down, order, |s.owner|, s.nodeIndex, k)
    ensures Path(During(s, name, data, order, 0, Ready, s.disk), steps, During(s, name, data, order, k, Ready, disk))
    ensures TriedAlone(s, order, data, k, disk)
  {
    if k == 0 {
      steps, disk := [], s.disk;
      NothingTried(s, order, data);
    } else {
      var before, disk0 := PathChunks(s, name, data, order, k - 1);
      assert Joined(s, Planned(order, |s.owner|, s.nodeIndex, k - 1)) == Ready;
      steps, disk := PathNext(s, name, data, order, k - 1, k, before, disk0);
    }
  }

  /** One more chunk, stored on all its nodes or not. */
  lemma PathNext(s: State, name: Name, data: Bytes, order: seq<NodeId>, k: nat, k': nat, before: seq<Step>, disk0: Disk)
      returns (steps: seq<Step>, disk: Disk)
    requires CanUpload(s, name, data, order) && order != [] && k < NumChunks(|data|) && k' == k + 1
    requires Path(During(s, name, data, order, 0, Ready, s.disk), before, During(s, name, data, order, k, Ready, disk0))
    requires TriedAlone(s, order, data, k, disk0)
    ensures Path(During(s, name, data, order, 0, Ready, s.disk), steps,
                 During(s, name, data, order, k', Joined(s, Planned(order, |s.owner|, s.nodeIndex, k)), disk))
    ensures TriedAlone(s, order, data, k', disk)
  {
    var info := Planned(order, |s.owner|, s.nodeIndex, k);
    var one := ChunkSteps(s, order, info, |Slice(data, k)|);
    disk := WroteAll(s, info, Slice(data, k), disk0);
    steps := before + one;
    PathChunk(s, name, data, order, k, disk0);
    AllWritten(s, info, Slice(data, k), disk0);
    PathJoin(During(s, name, data, order, 0, Ready, s.disk), before, During(s, name, data, order, k, Ready, disk0), one,
             During(s, name, data, order, k', Joined(s, info), disk));
    TriedAloneNext(s, order, data, k, k', disk0, disk);
  }

  lemma NothingTried(s: State, order: seq<NodeId>, data: Bytes)
    requires s.nodeIndex < UINT32_SPAN
    ensures TriedAlone(s, order, data, 0, s.disk)
  {
  }

  /** What the service's upload promises of its first `k` chunks, of the disks alone. */
  ghost predicate TriedAlone(s: State, order: seq<NodeId>, data: Bytes, k: nat, disk: Disk) {
    Tried(s.registry, s.down, order, |s.owner|, s.nodeIndex, data, k, IdAfter(|s.owner|, k),
          if order == [] then s.nodeIndex else (s.nodeIndex + k) % UINT32_SPAN, s.disk, disk)
  }

  lemma TriedAloneNext(s: State, order: seq<NodeId>, data: Bytes, k: nat, k': nat, disk: Disk, disk': Disk)
    requires k' == k + 1 && k < UINT64_SPAN && order != [] && TriedAlone(s, order, data, k, disk)
    requires var info := Planned(order, |s.owner|, s.nodeIndex, k);
             && ChunkStored(s.registry, s.down, disk', info, Slice(data, k))
             && OnlyTargetsDiffer(s.registry, s.down, [info], disk, disk')
    ensures TriedAlone(s, order, data, k', disk')
  {
    TriedNext(s.registry, s.down, order, |s.owner|, s.nodeIndex, data, k, IdAfter(|s.owner|, k'), (s.nodeIndex + k') % UINT32_SPAN, s.disk, disk, disk');
  }

  /** An upload that nothing interrupts, on nodes that all answer. */
  lemma PutIsPath(s: State, name: Name, data: Bytes, order: seq<NodeId>) returns (steps: seq<Step>, disk: Disk)
    requires CanUpload(s, name, data, order) && CanStore(s.registry, s.down, order, |s.owner|, s.nodeIndex, NumChunks(|data|))
    ensures Path(s, steps, Published(s, name, data, order, disk))
    ensures TriedAlone(s, order, data, NumChunks(|data|), disk)
  {
    var n := NumChunks(|data|);
    var chunks;
    chunks, disk := PathChunks(s, name, data, order, n);
    BeginsAlone(s, name, data, order);
    CommitsAlone(s, name, data, order, disk);
    var s1, s2 := During(s, name, data, order, 0, Ready, s.disk), During(s, name, data, order, n, Ready, disk);
    PathJoin(s1, chunks, s2, [Commit(|s.uploads|)], Published(s, name, data, order, disk));
    PathJoin(s, [PutBegins(name, data)], s1, chunks + [Commit(|s.uploads|)], Published(s, name, data, order, disk));
    steps := [PutBegins(name, data)] + (chunks + [Commit(|s.uploads|)]);
  }

  /** The state after an upload that gave up in its `t`-th turn. */
  function GivenUp(s: State, name: Name, data: Bytes, order: seq<NodeId>, t: nat, disk: Disk): State {
    if order == [] then
      s.(owner := s.owner + Slots(|s.uploads|, t), uploads := s.uploads + [Upload(name, data, [], [], Aborted)], disk := disk)
    else
      During(s, name, data, order, t, Aborted, disk)
  }

  lemma NoNodesAlone(s: State, name: Name, data: Bytes)
    requires CanUpload(s, name, data, []) && NumChunks(|data|) > 0
    ensures Path(During(s, name, data, [], 0, Ready, s.disk), [AllocateFails(|s.uploads|)], GivenUp(s, name, data, [], 1, s.disk))
  {
    var s1, u := During(s, name, data, [], 0, Ready, s.disk), |s.uploads|;
    assert s1.uploads[u].infos == [] && seq(0, _ => 0) == [];
    assert (set x: NodeId | x in []) == {};
    SlotsAppend(s.owner, u, 0);
    var up := Upload(name, data, [], [], Aborted);
    assert s1.uploads[u := up] == s.uploads + [up];
    PathOne(s1, AllocateFails(u));
  }

  /** The chunks of a failing upload, up to the one that fails. */
  lemma FailedChunks(s: State, name: Name, data: Bytes, order: seq<NodeId>, t: nat) returns (steps: seq<Step>, disk: Disk)
    requires CanUpload(s, name, data, order) && !CanStore(s.registry, s.down, order, |s.owner|, s.nodeIndex, NumChunks(|data|))
    requires t == Turns(s.registry, s.down, order, |s.owner|, s.nodeIndex, 0, NumChunks(|data|))
    ensures Path(During(s, name, data, order, 0, Ready, s.disk), steps, GivenUp(s, name, data, order, t, disk))
    ensures TriedAlone(s, order, data, t, disk)
  {
    if order == [] {
      steps, disk := [AllocateFails(|s.uploads|)], s.disk;
      NoNodesAlone(s, name, data);
    } else {
      TurnsFail(s.registry, s.down, order, |s.owner|, s.nodeIndex, 0, NumChunks(|data|));
      steps, disk := FailedChunk(s, name, data, order, t - 1, t);
    }
  }

  lemma FailedChunk(s: State, name: Name, data: Bytes, order: seq<NodeId>, k: nat, t: nat) returns (steps: seq<Step>, disk: Disk)
    requires CanUpload(s, name, data, order) && order != [] && t == k + 1 && t <= NumChunks(|data|)
    requires CanStore(s.registry, s.down, order, |s.owner|, s.nodeIndex, k)
    requires !AllAnswer(s.registry, s.down, Planned(order, |s.owner|, s.nodeIndex, k))
    ensures Path(During(s, name, data, order, 0, Ready, s.disk), steps, During(s, name, data, order, t, Aborted, disk))
    ensures TriedAlone(s, order, data, t, disk)
  {
    var before, disk0 := PathChunks(s, name, data, order, k);
    steps, disk := PathNext(s, name, data, order, k, t, before, disk0);
  }

  /** An upload that nothing interrupts, and of which some chunk has no nodes or one that does not answer. */
  lemma FailedPutIsPath(s: State, name: Name, data: Bytes, order: seq<NodeId>) returns (steps: seq<Step>, disk: Disk)
    requires CanUpload(s, name, data, order) && !CanStore(s.registry, s.down, order, |s.owner|, s.nodeIndex, NumChunks(|data|))
    ensures var t := Turns(s.registry, s.down, order, |s.owner|, s.nodeIndex, 0, NumChunks(|data|));
            && Path(s, steps, GivenUp(s, name, data, order, t, disk))
            && TriedAlone(s, order, data, t, disk)
  {
    var t := Turns(s.registry, s.down, order, |s.owner|, s.nodeIndex, 0, NumChunks(|data|));
    var chunks;
    chunks, disk := FailedChunks(s, name, data, order, t);
    BeginsAlone(s, name, data, order);
    PathJoin(s, [PutBegins(name, data)], During(s, name, data, order, 0, Ready, s.disk), chunks, GivenUp(s, name, data, order, t, disk));
    steps := [PutBegins(name, data)] + chunks;
  }

  /** The last turn of a failing upload is the first that fails. */
  lemma {:induction false} TurnsFail(registry: Registry, down: set<Addr>, order: seq<NodeId>, counter: nat, index: nat, k: nat, n: nat)
    requires order != [] && k <= n && CanStore(registry, down, order, counter, index, k) && !CanStore(registry, down, order, counter, index, n)
    ensures var t := Turns(registry, down, order, counter, index, k, n);
            && 0 < t && CanStore(registry, down, order, counter, index, t - 1)
            && !AllAnswer(registry, down, Planned(order, counter, index, t - 1))
    decreases n - k
  {
    if k < n && AllAnswer(registry, down, Planned(order, counter, index, k)) {
      TurnsFail(registry, down, order, counter, index, k + 1, n);
    }
  }
}
