/** Every step keeps the disks right: finished chunks, and chunks whose writers are still at work. */
module DiskPreservation {
  import opened Types
  import opened Chunking
  import opened ReplicaWrites
  import opened Protocol
  import opened Invariant
  import opened Preservation
  import Cluster

  /** The disks differ at most in files of chunk `c` (none if negative). */
  ghost predicate DisksAgree(disk: Cluster.Disk, disk': Cluster.Disk, c: int) {
    forall loc: Loc :: loc.chunk != c ==> (loc in disk <==> loc in disk') && (loc in disk ==> disk[loc] == disk'[loc])
  }

  lemma OneOwner(s: State, u: nat, i: nat)
    requires UploadsOk(s) && u < |s.uploads| && i < |s.uploads[u].infos|
    ensures s.uploads[u].infos[i].chunkId < |s.owner| && s.owner[s.uploads[u].infos[i].chunkId] == Slot(u, i)
  {
    assert UploadOk(s.owner, s.bound, u, s.uploads[u]);
    assert InfoOk(s.owner, s.bound, u, i, s.uploads[u].infos[i], s.uploads[u].seen[i]);
  }

  lemma ChunkFollows(bound: seq<Addr>, bound': seq<Addr>, disk: Cluster.Disk, disk': Cluster.Disk, c: int,
                     up: Upload, up': Upload, i: nat, intact: bool, intact': bool)
    requires i < |up.infos| && i < |up'.infos| && up'.infos[i] == up.infos[i] && up'.data == up.data
    requires forall j :: 0 <= j < |up.infos[i].nodeIds| ==> Known(bound, up.infos[i].nodeIds[j])
    requires bound <= bound' && DisksAgree(disk, disk', c) && up.infos[i].chunkId != c && (intact' ==> intact)
    requires ChunkOk(bound, disk, up, i, intact)
    ensures ChunkOk(bound', disk', up', i, intact')
  {
    var info := up.infos[i];
    forall j | 0 <= j < |info.nodeIds|
      ensures CopyOk(bound', disk', info, Slice(up'.data, i), j, intact')
    {
      assert CopyOk(bound, disk, info, Slice(up.data, i), j, intact);
      assert Known(bound', info.nodeIds[j]) && BoundTo(bound', info.nodeIds[j]) == BoundTo(bound, info.nodeIds[j]);
    }
  }

  lemma NodesKnown(s: State, u: nat, i: nat)
    requires UploadsOk(s) && u < |s.uploads| && i < |s.uploads[u].infos|
    ensures forall j :: 0 <= j < |s.uploads[u].infos[i].nodeIds| ==> Known(s.bound, s.uploads[u].infos[i].nodeIds[j])
  {
    assert UploadOk(s.owner, s.bound, u, s.uploads[u]);
    assert InfoOk(s.owner, s.bound, u, i, s.uploads[u].infos[i], s.uploads[u].seen[i]);
  }

  /** Chunk `i` of upload `u` was finished before, and this step has not made its file less safe. */
  ghost predicate StaysSafe(s: State, s': State, c: int, u: nat, i: nat)
    requires u < |s'.uploads|
  {
    && u < |s.uploads| && Final(s.uploads[u], i) && s.uploads[u].infos[i].chunkId != c
    && i < |s'.uploads[u].infos|
    && (Intact(s', u) ==> Intact(s, u))
  }

  lemma ChunkKept(s: State, s': State, c: int, u: nat, i: nat)
    requires UploadsOk(s) && DiskOk(s) && Grown(s, s') && DisksAgree(s.disk, s'.disk, c)
    requires u < |s'.uploads| && StaysSafe(s, s', c, u, i)
    ensures ChunkOk(s'.bound, s'.disk, s'.uploads[u], i, Intact(s', u))
  {
    NodesKnown(s, u, i);
    ChunkFollows(s.bound, s'.bound, s.disk, s'.disk, c, s.uploads[u], s'.uploads[u], i, Intact(s, u), Intact(s', u));
  }

  lemma DiskFollows(s: State, s': State, c: int)
    requires UploadsOk(s) && DiskOk(s) && Grown(s, s') && DisksAgree(s.disk, s'.disk, c)
    requires forall u, i :: 0 <= u < |s'.uploads| && 0 <= i && Final(s'.uploads[u], i) ==> StaysSafe(s, s', c, u, i)
    ensures DiskOk(s')
  {
    forall u, i | 0 <= u < |s'.uploads| && 0 <= i && Final(s'.uploads[u], i)
      ensures ChunkOk(s'.bound, s'.disk, s'.uploads[u], i, Intact(s', u))
    {
      ChunkKept(s, s', c, u, i);
    }
  }

  // ---------------------------------------------------------------- joining a chunk

  lemma JoinedChunk(s: State, u: nat)
    requires Inv(s) && Enabled(s, Join(u))
    ensures ChunkOk(s.bound, s.disk, s.uploads[u], |s.uploads[u].infos| - 1, true)
  {
    var up := s.uploads[u];
    assert UploadOk(s.owner, s.bound, u, up);
    var i := |up.infos| - 1;
    var info, data, writers := LastInfo(up), LastSlice(up), up.phase.writers;
    assert Failed !in writers;
    assert JobOk(s.bound, s.disk, up);
    forall j | 0 <= j < |info.nodeIds|
      ensures CopyOk(s.bound, s.disk, info, data, j, true)
    {
      assert writers[j] in writers;
      assert WriterOk(s.bound, s.disk, info, data, writers, j);
      var loc := Loc(writers[j].addr, info.chunkId);
      forall v | 0 <= v < |writers|
        ensures writers[v].Stored?
      {
        assert writers[v] in writers;
      }
      StoredIsWhole(s.disk[loc], data, writers, writers[j].addr);
    }
  }

  lemma DiskKeptByJoin(s: State, u: nat)
    requires Inv(s) && Enabled(s, Join(u))
    ensures DiskOk(WithPhase(s, u, Ready))
  {
    var s' := WithPhase(s, u, Ready);
    JoinedChunk(s, u);
    assert Grown(s, s');
    forall v, i | 0 <= v < |s'.uploads| && 0 <= i && Final(s'.uploads[v], i)
      ensures ChunkOk(s'.bound, s'.disk, s'.uploads[v], i, Intact(s', v))
    {
      if v == u && i == |s.uploads[u].infos| - 1 {
        NodesKnown(s, u, i);
        ChunkFollows(s.bound, s'.bound, s.disk, s'.disk, -1, s.uploads[v], s'.uploads[v], i, true, Intact(s', v));
      } else {
        ChunkKept(s, s', -1, v, i);
      }
    }
  }

  // ---------------------------------------------------------------- deleting a copy

  lemma DiskKeptByDelete(s: State)
    requires Inv(s) && Enabled(s, CleanupDeletes)
    ensures DiskOk(Apply(s, CleanupDeletes))
  {
    var s' := Apply(s, CleanupDeletes);
    var tomb := s.tombs[s.cleaner.pos];
    assert TombOk(s.uploads, tomb);
    OneOwner(s, tomb.meta.uid, s.cleaner.i);
    assert s.uploads[tomb.meta.uid].infos[s.cleaner.i] == CleanupChunk(s);
    FewerCopiesKept(s, s', tomb.meta.uid, CleanupChunk(s).chunkId);
  }

  /** Copies of chunk `c` of upload `uid`, which is not intact, may go. */
  lemma FewerCopiesKept(s: State, s': State, uid: nat, c: ChunkId)
    requires UploadsOk(s) && DiskOk(s) && s'.uploads == s.uploads && s'.bound == s.bound && Grown(s, s')
    requires c < |s.owner| && s.owner[c].uid == uid && uid < |s.uploads| && !Intact(s, uid) && !Intact(s', uid)
    requires forall u :: 0 <= u < |s.uploads| && u != uid && Intact(s', u) ==> Intact(s, u)
    requires DisksAgree(s.disk, s'.disk, c)
    requires s'.disk.Keys <= s.disk.Keys && forall loc :: loc in s'.disk ==> s'.disk[loc] == s.disk[loc]
    ensures DiskOk(s')
  {
    forall v, i | 0 <= v < |s'.uploads| && 0 <= i && Final(s'.uploads[v], i)
      ensures ChunkOk(s'.bound, s'.disk, s'.uploads[v], i, Intact(s', v))
    {
      OneOwner(s, v, i);
      if v == uid {
        FewerCopies(s.bound, s.disk, s'.disk, s.uploads[v], i);
      } else {
        ChunkKept(s, s', c, v, i);
      }
    }
  }

  lemma FewerCopies(bound: seq<Addr>, disk: Cluster.Disk, disk': Cluster.Disk, up: Upload, i: nat)
    requires i < |up.infos| && ChunkOk(bound, disk, up, i, false)
    requires disk'.Keys <= disk.Keys && forall loc :: loc in disk' ==> disk'[loc] == disk[loc]
    ensures ChunkOk(bound, disk', up, i, false)
  {
    forall j | 0 <= j < |up.infos[i].nodeIds|
      ensures CopyOk(bound, disk', up.infos[i], Slice(up.data, i), j, false)
    {
      assert CopyOk(bound, disk, up.infos[i], Slice(up.data, i), j, false);
    }
  }

  // ---------------------------------------------------------------- the other steps

  predicate WritesDisk(step: Step) {
    step.WriterOpens? || step.WriterWrites? || step.StrayWrite?
  }

  /** The chunk a step writes files of; none for most. */
  ghost function Touched(s: State, step: Step): int
    requires Enabled(s, step)
  {
    match step
    case WriterOpens(u, _) => LastInfo(s.uploads[u]).chunkId
    case WriterWrites(u, _, _) => LastInfo(s.uploads[u]).chunkId
    case StrayWrite(loc, _) => loc.chunk
    case CleanupDeletes => CleanupChunk(s).chunkId
    case _ => -1
  }

  lemma UploadsLeaveDisk(s: State, step: Step)
    requires Enabled(s, step) && Uploads(step) && !WritesDisk(step)
    ensures Apply(s, step).disk == s.disk
  {
  }

  lemma StepLeavesDisk(s: State, step: Step)
    requires Enabled(s, step) && !WritesDisk(step) && !step.CleanupDeletes?
    ensures Apply(s, step).disk == s.disk
  {
    if Uploads(step) {
      UploadsLeaveDisk(s, step);
    }
  }

  lemma StepTouches(s: State, step: Step)
    requires Enabled(s, step)
    ensures DisksAgree(s.disk, Apply(s, step).disk, Touched(s, step))
  {
    if !WritesDisk(step) && !step.CleanupDeletes? {
      StepLeavesDisk(s, step);
    }
  }

  lemma NotFinalWhenTouched(s: State, step: Step, u: nat, i: nat)
    requires UploadsOk(s) && Enabled(s, step) && WritesDisk(step) && u < |s.uploads| && Final(s.uploads[u], i)
    ensures s.uploads[u].infos[i].chunkId != Touched(s, step)
  {
    OneOwner(s, u, i);
    if !step.StrayWrite? {
      OneOwner(s, step.u, |s.uploads[step.u].infos| - 1);
    }
  }

  lemma IntactBefore(s: State, step: Step, u: nat)
    requires EntriesOk(s) && TombsOk(s)
    requires Enabled(s, step) && !step.Join? && u < |s.uploads| && u < |Apply(s, step).uploads| && Intact(Apply(s, step), u)
    ensures Intact(s, u)
  {
    var s' := Apply(s, step);
    if step.CleanupErases? {
      assert TombOk(s.uploads, s.tombs[s.cleaner.pos]);
    } else if MovesFiles(step) {
      StepPhases(s, step, u);
    } else if MovesUpload(step) {
      StepMovesUpload(s, step);
    } else if !step.Allocate? && !step.PutBegins? {
      StepLeavesUploads(s, step);
      IntactWithSameUploads(s, step, u);
    }
  }

  lemma IntactWithSameUploads(s: State, step: Step, u: nat)
    requires Enabled(s, step) && !MovesFiles(step) && Apply(s, step).uploads == s.uploads
    requires u < |s.uploads| && Intact(Apply(s, step), u)
    ensures Intact(s, u)
  {
    if !MovesCleaner(step) {
      StepCleaner(s, step);
      StepTombs(s, step);
    }
  }

  lemma FinalBefore(s: State, step: Step, u: nat, i: nat)
    requires EntriesOk(s) && TombsOk(s)
    requires Enabled(s, step) && !step.Join? && u < |Apply(s, step).uploads| && Final(Apply(s, step).uploads[u], i)
    ensures u < |s.uploads| && Final(s.uploads[u], i)
  {
    if MovesUpload(step) {
      FinalBeforeMoves(s, step, u, i);
    } else if !step.Allocate? && !step.PutBegins? {
      StepLeavesUpload(s, step, u);
      FinalBeforeLeft(s, step, Apply(s, step), u, i);
    }
  }

  lemma OwnMoveNotReady(s: State, step: Step)
    requires Enabled(s, step) && MovesUpload(step) && !step.Join?
    ensures step.u < |Apply(s, step).uploads| && !Apply(s, step).uploads[step.u].phase.Ready?
  {
  }

  lemma FinalBeforeMoves(s: State, step: Step, u: nat, i: nat)
    requires Enabled(s, step) && MovesUpload(step) && !step.Join? && u < |Apply(s, step).uploads| && Final(Apply(s, step).uploads[u], i)
    ensures u < |s.uploads| && Final(s.uploads[u], i)
  {
    StepMovesUpload(s, step);
    OwnMoveNotReady(s, step);
    FinalBeforeMove(s, step.u, Apply(s, step), u, i);
  }

  lemma FinalBeforeLeft(s: State, step: Step, s': State, u: nat, i: nat)
    requires u < |s.uploads| && u < |s'.uploads| && LeavesUpload(s, step, s', u) && !MovesUpload(step) && Final(s'.uploads[u], i)
    ensures Final(s.uploads[u], i)
  {
  }

  lemma FinalBeforeMove(s: State, v: nat, s': State, u: nat, i: nat)
    requires MovesTo(s, v, s') && !s'.uploads[v].phase.Ready? && u < |s.uploads| && Final(s'.uploads[u], i)
    ensures Final(s.uploads[u], i)
  {
  }

  lemma DiskKept(s: State, step: Step)
    requires Inv(s) && Enabled(s, step)
    ensures DiskOk(Apply(s, step))
  {
    var s' := Apply(s, step);
    if step.Join? {
      DiskKeptByJoin(s, step.u);
    } else if step.CleanupDeletes? {
      DiskKeptByDelete(s);
    } else {
      var c := Touched(s, step);
      StepTouches(s, step);
      StepGrows(s, step);
      forall u, i | 0 <= u < |s'.uploads| && 0 <= i && Final(s'.uploads[u], i)
        ensures StaysSafe(s, s', c, u, i)
      {
        FinalBefore(s, step, u, i);
        if WritesDisk(step) {
          NotFinalWhenTouched(s, step, u, i);
        }
        if Intact(s', u) {
          IntactBefore(s, step, u);
        }
      }
      DiskFollows(s, s', c);
    }
  }

  // ---------------------------------------------------------------- chunks being written

  lemma JobFollows(s: State, s': State, c: int, u: nat)
    requires s.bound <= s'.bound && DisksAgree(s.disk, s'.disk, c) && u < |s.uploads| && u < |s'.uploads|
    requires s'.uploads[u] == s.uploads[u] && s.uploads[u].phase.Storing? && |s.uploads[u].infos| > 0
    requires LastInfo(s.uploads[u]).chunkId != c || Failed in s.uploads[u].phase.writers
    requires JobOk(s.bound, s.disk, s.uploads[u])
    ensures JobOk(s'.bound, s'.disk, s'.uploads[u])
  {
    var up := s.uploads[u];
    var info, data, writers := LastInfo(up), LastSlice(up), up.phase.writers;
    if Failed !in writers {
      forall w | 0 <= w < |writers| && w < |info.nodeIds|
        ensures WriterOk(s'.bound, s'.disk, info, data, writers, w)
      {
        assert WriterOk(s.bound, s.disk, info, data, writers, w);
      }
    }
  }

  lemma OpenKeepsJob(bound: seq<Addr>, disk: Cluster.Disk, info: ChunkInfo, data: Bytes, writers: seq<Writer>, v: nat)
    requires v < |writers| == |info.nodeIds| && writers[v].Waiting? && info.chunkId < CHUNK_ID_LIMIT
    requires WritersOk(bound, disk, info, data, writers)
    requires Known(bound, info.nodeIds[v])
    ensures var addr := BoundTo(bound, info.nodeIds[v]);
            WritersOk(bound, disk[Loc(addr, info.chunkId) := []], info, data, writers[v := Writing(addr, 0)])
  {
    var addr := BoundTo(bound, info.nodeIds[v]);
    var after, disk' := writers[v := Writing(addr, 0)], disk[Loc(addr, info.chunkId) := []];
    OpenCovers(data, writers, v, addr);
    forall w | 0 <= w < |writers|
      ensures WriterOk(bound, disk', info, data, after, w)
    {
      assert WriterOk(bound, disk, info, data, writers, w);
      if w != v && (writers[w].Writing? || writers[w].Stored?) && writers[w].addr != addr {
        ElsewhereCovers(disk[Loc(writers[w].addr, info.chunkId)], data, writers, v, Writing(addr, 0), writers[w].addr);
      }
    }
  }

  lemma WriteKeepsJob(bound: seq<Addr>, disk: Cluster.Disk, info: ChunkInfo, data: Bytes, writers: seq<Writer>, v: nat, n: nat)
    requires v < |writers| == |info.nodeIds| && writers[v].Writing? && writers[v].off + n <= |data|
    requires WritersOk(bound, disk, info, data, writers)
    requires Loc(writers[v].addr, info.chunkId) in disk
    ensures var addr, off := writers[v].addr, writers[v].off;
            var loc := Loc(addr, info.chunkId);
            WritersOk(bound, disk[loc := WriteAt(disk[loc], off, data[off..off + n])], info, data, writers[v := Writing(addr, off + n)])
  {
    var addr, off := writers[v].addr, writers[v].off;
    var loc := Loc(addr, info.chunkId);
    var disk' := disk[loc := WriteAt(disk[loc], off, data[off..off + n])];
    var after := writers[v := Writing(addr, off + n)];
    assert WriterOk(bound, disk, info, data, writers, v);
    WriteCovers(disk[loc], data, writers, v, n);
    forall w | 0 <= w < |writers|
      ensures WriterOk(bound, disk', info, data, after, w)
    {
      assert WriterOk(bound, disk, info, data, writers, w);
      if (writers[w].Writing? || writers[w].Stored?) && writers[w].addr != addr {
        ElsewhereCovers(disk[Loc(writers[w].addr, info.chunkId)], data, writers, v, after[v], writers[w].addr);
      }
    }
  }

  lemma CloseKeepsJob(bound: seq<Addr>, disk: Cluster.Disk, info: ChunkInfo, data: Bytes, writers: seq<Writer>, v: nat)
    requires v < |writers| == |info.nodeIds| && writers[v].Writing? && writers[v].off == |data|
    requires WritersOk(bound, disk, info, data, writers)
    ensures WritersOk(bound, disk, info, data, writers[v := Stored(writers[v].addr)])
  {
    var after := writers[v := Stored(writers[v].addr)];
    forall w | 0 <= w < |writers|
      ensures WriterOk(bound, disk, info, data, after, w)
    {
      assert WriterOk(bound, disk, info, data, writers, w);
      if writers[w].Writing? || writers[w].Stored? {
        CloseCovers(disk[Loc(writers[w].addr, info.chunkId)], data, writers, v, writers[w].addr);
      }
    }
  }

  predicate MovesWriter(step: Step) {
    step.WriterOpens? || step.WriterWrites? || step.WriterCloses? || step.WriterFails?
  }

  lemma FailedStays(writers: seq<Writer>, v: nat, w: Writer)
    requires v < |writers| && writers[v] != Failed && Failed in writers
    ensures Failed in writers[v := w]
  {
    var x :| 0 <= x < |writers| && writers[x] == Failed;
    assert writers[v := w][x] == Failed;
  }

  lemma OpenKeepsOwnJob(s: State, u: nat, w: nat)
    requires Inv(s) && Enabled(s, WriterOpens(u, w))
    ensures var s' := Apply(s, WriterOpens(u, w));
            && u < |s'.uploads| && s'.uploads[u].phase.Storing? && |s'.uploads[u].infos| > 0
            && JobOk(s'.bound, s'.disk, s'.uploads[u])
  {
    var up := s.uploads[u];
    assert UploadOk(s.owner, s.bound, u, up) && JobOk(s.bound, s.disk, up);
    if Failed in up.phase.writers {
      FailedStays(up.phase.writers, w, Writing(s.registry[LastInfo(up).nodeIds[w]], 0));
    } else {
      OpenKeepsJob(s.bound, s.disk, LastInfo(up), LastSlice(up), up.phase.writers, w);
    }
  }

  lemma WriteKeepsOwnJob(s: State, u: nat, w: nat, n: nat)
    requires Inv(s) && Enabled(s, WriterWrites(u, w, n))
    ensures var s' := Apply(s, WriterWrites(u, w, n));
            && u < |s'.uploads| && s'.uploads[u].phase.Storing? && |s'.uploads[u].infos| > 0
            && JobOk(s'.bound, s'.disk, s'.uploads[u])
  {
    var up := s.uploads[u];
    assert UploadOk(s.owner, s.bound, u, up) && JobOk(s.bound, s.disk, up);
    WriteKeepsUpload(s.bound, s.disk, up, w, n);
  }

  lemma WriteKeepsUpload(bound: seq<Addr>, disk: Cluster.Disk, up: Upload, w: nat, n: nat)
    requires |up.infos| > 0 && up.phase.Storing? && JobOk(bound, disk, up)
    requires var writers := up.phase.writers;
             && w < |writers| == |LastInfo(up).nodeIds| && writers[w].Writing? && writers[w].off + n <= |LastSlice(up)|
             && Loc(writers[w].addr, LastInfo(up).chunkId) in disk
    ensures var addr, off := up.phase.writers[w].addr, up.phase.writers[w].off;
            var loc := Loc(addr, LastInfo(up).chunkId);
            JobOk(bound, disk[loc := WriteAt(disk[loc], off, LastSlice(up)[off..off + n])],
                  up.(phase := Storing(up.phase.writers[w := Writing(addr, off + n)])))
  {
    if Failed in up.phase.writers {
      FailedStays(up.phase.writers, w, Writing(up.phase.writers[w].addr, up.phase.writers[w].off + n));
    } else {
      WriteKeepsJob(bound, disk, LastInfo(up), LastSlice(up), up.phase.writers, w, n);
    }
  }

  lemma CloseKeepsUpload(bound: seq<Addr>, disk: Cluster.Disk, up: Upload, w: nat)
    requires |up.infos| > 0 && up.phase.Storing? && JobOk(bound, disk, up)
    requires var writers := up.phase.writers;
             w < |writers| == |LastInfo(up).nodeIds| && writers[w].Writing? && writers[w].off == |LastSlice(up)|
    ensures JobOk(bound, disk, up.(phase := Storing(up.phase.writers[w := Stored(up.phase.writers[w].addr)])))
  {
    if Failed in up.phase.writers {
      FailedStays(up.phase.writers, w, Stored(up.phase.writers[w].addr));
    } else {
      CloseKeepsJob(bound, disk, LastInfo(up), LastSlice(up), up.phase.writers, w);
    }
  }

  lemma OwnJobKept(s: State, step: Step)
    requires Inv(s) && Enabled(s, step) && MovesWriter(step)
    ensures var s' := Apply(s, step);
            && step.u < |s'.uploads| && s'.uploads[step.u].phase.Storing? && |s'.uploads[step.u].infos| > 0
            && JobOk(s'.bound, s'.disk, s'.uploads[step.u])
  {
    match step
    case WriterOpens(u, w) =>
      OpenKeepsOwnJob(s, u, w);
    case WriterWrites(u, w, n) =>
      WriteKeepsOwnJob(s, u, w, n);
    case WriterCloses(u, w) =>
      var up := s.uploads[u];
      assert UploadOk(s.owner, s.bound, u, up) && JobOk(s.bound, s.disk, up);
      CloseKeepsUpload(s.bound, s.disk, up, w);
    case WriterFails(u, w) =>
      assert s.uploads[u].phase.writers[w := Failed][w] == Failed;
  }

  lemma OtherJobUntouched(s: State, step: Step, u: nat)
    requires Inv(s) && Enabled(s, step) && u < |s.uploads| && s.uploads[u].phase.Storing? && |s.uploads[u].infos| > 0
    requires MovesWriter(step) ==> step.u != u
    ensures LastInfo(s.uploads[u]).chunkId != Touched(s, step) || Failed in s.uploads[u].phase.writers
  {
    OneOwner(s, u, |s.uploads[u].infos| - 1);
    if step.WriterOpens? || step.WriterWrites? {
      OneOwner(s, step.u, |s.uploads[step.u].infos| - 1);
    } else if step.CleanupDeletes? {
      assert TombOk(s.uploads, s.tombs[s.cleaner.pos]);
      OneOwner(s, s.tombs[s.cleaner.pos].meta.uid, s.cleaner.i);
    }
  }

  lemma JobBefore(s: State, step: Step, u: nat)
    requires EntriesOk(s) && TombsOk(s)
    requires Enabled(s, step) && u < |Apply(s, step).uploads| && Apply(s, step).uploads[u].phase.Storing?
    requires MovesWriter(step) ==> step.u != u
    ensures (step.Allocate? && step.u == u) || (u < |s.uploads| && Apply(s, step).uploads[u] == s.uploads[u])
  {
    if MovesUpload(step) {
      StepMovesUpload(s, step);
    } else if !step.Allocate? && !step.PutBegins? {
      StepLeavesUpload(s, step, u);
    }
  }

  lemma JobsKept(s: State, step: Step)
    requires Inv(s) && Enabled(s, step)
    ensures JobsOk(Apply(s, step))
  {
    var s' := Apply(s, step);
    StepTouches(s, step);
    StepGrows(s, step);
    forall u | 0 <= u < |s'.uploads| && s'.uploads[u].phase.Storing? && |s'.uploads[u].infos| > 0
      ensures JobOk(s'.bound, s'.disk, s'.uploads[u])
    {
      if MovesWriter(step) && step.u == u {
        OwnJobKept(s, step);
      } else {
        JobBefore(s, step, u);
        if !step.Allocate? || step.u != u {
          OtherJobUntouched(s, step, u);
          JobFollows(s, s', Touched(s, step), u);
        }
      }
    }
  }

  /** Every step keeps the invariant. */
  lemma StepKeepsInv(s: State, step: Step)
    requires Inv(s) && Enabled(s, step)
    ensures Inv(Apply(s, step))
  {
    RegistryKept(s, step);
    UploadsKept(s, step);
    EntriesKept(s, step);
    TombsKept(s, step);
    CleanerKept(s, step);
    ReadersKept(s, step);
    DiskKept(s, step);
    JobsKept(s, step);
  }
}
