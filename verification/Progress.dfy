/**
 Nothing gets stuck. A running download or cleanup pass always has exactly one next step of its own,
 and an upload can go on unless it waits for the lock or for nodes. All of them end after a number of
 steps known beforehand, so a cleanup pass gives the metadata store's lock back however the other
 steps interleave.
 */
module Progress {
  import opened Types
  import opened Chunking
  import opened Tombstones
  import opened ReplicaWrites
  import opened Protocol
  import opened Invariant
  import opened Preservation
  import Cluster
  import Placement

  // ---------------------------------------------------------------- work still to do

  /** One attempt or deletion for each listed node, and one step to go on, for each chunk. */
  function ChunksWork(chunks: seq<ChunkInfo>): nat {
    if |chunks| == 0 then 0 else |chunks[0].nodeIds| + 1 + ChunksWork(chunks[1..])
  }

  function TombsWork(tombs: seq<Tombstone<File>>): nat {
    if |tombs| == 0 then 0 else ChunksWork(tombs[0].meta.meta.chunks) + 2 + TombsWork(tombs[1..])
  }

  /** The work left in chunk `i` and after it, when `j` of its nodes are done. */
  function WorkFrom(chunks: seq<ChunkInfo>, i: nat, j: nat): nat
    requires i <= |chunks| && (i < |chunks| ==> j <= |chunks[i].nodeIds|)
  {
    if i == |chunks| then 0 else ChunksWork(chunks[i..]) - j
  }

  lemma ChunksWorkStep(chunks: seq<ChunkInfo>, i: nat)
    requires i < |chunks|
    ensures ChunksWork(chunks[i..]) == |chunks[i].nodeIds| + 1 + ChunksWork(chunks[i + 1..])
  {
    assert chunks[i..][1..] == chunks[i + 1..];
  }

  lemma TombsWorkStep(tombs: seq<Tombstone<File>>, i: nat)
    requires i < |tombs|
    ensures TombsWork(tombs[i..]) == ChunksWork(tombs[i].meta.meta.chunks) + 2 + TombsWork(tombs[i + 1..])
  {
    assert tombs[i..][1..] == tombs[i + 1..];
  }

  // ---------------------------------------------------------------- downloads

  /** Steps of download `r`. */
  predicate StepOfReader(step: Step, r: nat) {
    step == ReadHit(r) || step == ReadMiss(r) || step == ReadFails(r) || step == ReadEnds(r)
  }

  /** What a running download does next. */
  function NextOfReader(s: State, r: nat): Step
    requires r < |s.readers| && s.readers[r].progress.Reading?
  {
    var rd := s.readers[r];
    if rd.next >= |rd.file.meta.chunks| then ReadEnds(r)
    else if rd.progress.attempt >= |ReaderChunk(rd).nodeIds| then ReadFails(r)
    else if AttemptHits(s, rd) then ReadHit(r)
    else ReadMiss(r)
  }

  /** A running download always has exactly one step it can take. */
  lemma ReaderHasNextStep(s: State, r: nat, step: Step)
    requires ReadersOk(s) && r < |s.readers| && s.readers[r].progress.Reading? && StepOfReader(step, r)
    ensures Enabled(s, step) <==> step == NextOfReader(s, r)
  {
    assert ReaderOk(s.uploads, s.readers[r]);
  }

  predicate InRange(rd: Reader) {
    rd.progress.Reading? ==>
      && rd.next <= |rd.file.meta.chunks|
      && (rd.next < |rd.file.meta.chunks| ==> rd.progress.attempt <= |ReaderChunk(rd).nodeIds|)
  }

  function ReaderWork(rd: Reader): nat
    requires InRange(rd)
  {
    if rd.progress.Reading? then WorkFrom(rd.file.meta.chunks, rd.next, rd.progress.attempt) + 1 else 0
  }

  /** Every step of a download brings it nearer to its end; it starts in range, and no other step touches it. */
  lemma DownloadEnds(s: State, step: Step, r: nat)
    requires Enabled(s, step) && r < |s.readers| && InRange(s.readers[r])
    ensures r < |Apply(s, step).readers| && InRange(Apply(s, step).readers[r])
    ensures if StepOfReader(step, r) then ReaderWork(Apply(s, step).readers[r]) < ReaderWork(s.readers[r])
            else Apply(s, step).readers[r] == s.readers[r]
  {
    if !MovesReader(step) {
      StepLeavesReaders(s, step);
    } else if StepOfReader(step, r) {
      OwnStepWork(s, step, r);
    }
  }

  lemma OwnStepWork(s: State, step: Step, r: nat)
    requires Enabled(s, step) && r < |s.readers| && InRange(s.readers[r]) && StepOfReader(step, r)
    ensures r < |Apply(s, step).readers| && InRange(Apply(s, step).readers[r])
    ensures ReaderWork(Apply(s, step).readers[r]) < ReaderWork(s.readers[r])
  {
    if !step.ReadEnds? {
      ChunksWorkStep(s.readers[r].file.meta.chunks, s.readers[r].next);
    }
  }

  // ---------------------------------------------------------------- the cleanup worker

  /** Steps of a cleanup pass under way. */
  predicate StepOfPass(step: Step) {
    MovesCleaner(step) && !step.CleanupBegins?
  }

  /** What a cleanup pass under way does next. */
  function NextOfPass(s: State): Step
    requires CleanerOk(s) && !s.cleaner.Idle?
  {
    match s.cleaner
    case Scanning(now, pos) =>
      if pos == |s.tombs| then CleanupEnds else if Expired(s.tombs[pos], now) then CleanupTakes else CleanupPasses
    case Deleting(now, pos, i, j) =>
      if i == |s.tombs[pos].meta.meta.chunks| then CleanupErases
      else if j < |s.tombs[pos].meta.meta.chunks[i].nodeIds| then CleanupDeletes
      else CleanupNextChunk
  }

  /** A cleanup pass under way always has exactly one step it can take. */
  lemma PassHasNextStep(s: State, step: Step)
    requires CleanerOk(s) && TombsOk(s) && !s.cleaner.Idle? && StepOfPass(step)
    ensures Enabled(s, step) <==> step == NextOfPass(s)
  {
    if step.CleanupErases? && s.cleaner.Deleting? {
      assert TombOk(s.uploads, s.tombs[s.cleaner.pos]);
    }
  }

  /** A bound on the steps a cleanup pass has still to take. */
  function PassWork(s: State): nat
    requires CleanerOk(s)
  {
    match s.cleaner
    case Idle => 0
    case Scanning(_, pos) => TombsWork(s.tombs[pos..]) + 1
    case Deleting(_, pos, i, j) => WorkFrom(s.tombs[pos].meta.meta.chunks, i, j) + TombsWork(s.tombs[pos + 1..]) + 2
  }

  /** Every step of a cleanup pass brings it nearer to its end, and no other step adds to its work. */
  lemma PassEnds(s: State, step: Step)
    requires CleanerOk(s) && Enabled(s, step) && !s.cleaner.Idle?
    ensures CleanerOk(Apply(s, step))
    ensures if StepOfPass(step) then PassWork(Apply(s, step)) < PassWork(s) else PassWork(Apply(s, step)) == PassWork(s)
  {
    CleanerKept(s, step);
    if !MovesCleaner(step) {
      StepCleaner(s, step);
    } else if step.CleanupPasses? || step.CleanupTakes? {
      ScanStepWork(s, step);
    } else if step.CleanupErases? {
      EraseStepWork(s);
    } else if step.CleanupDeletes? || step.CleanupNextChunk? {
      ChunksWorkStep(s.tombs[s.cleaner.pos].meta.meta.chunks, s.cleaner.i);
    }
  }

  lemma ScanStepWork(s: State, step: Step)
    requires CleanerOk(s) && Enabled(s, step) && (step.CleanupPasses? || step.CleanupTakes?)
    ensures CleanerOk(Apply(s, step)) && PassWork(Apply(s, step)) < PassWork(s)
  {
    TombsWorkStep(s.tombs, s.cleaner.pos);
    var chunks := s.tombs[s.cleaner.pos].meta.meta.chunks;
    assert chunks[0..] == chunks;
  }

  lemma EraseStepWork(s: State)
    requires CleanerOk(s) && Enabled(s, CleanupErases)
    ensures CleanerOk(Apply(s, CleanupErases)) && PassWork(Apply(s, CleanupErases)) < PassWork(s)
  {
    var pos := s.cleaner.pos;
    assert (s.tombs[..pos] + s.tombs[pos + 1..])[pos..] == s.tombs[pos + 1..];
  }

  // ---------------------------------------------------------------- uploads

  /** Steps of upload `u`. */
  predicate StepOfUpload(step: Step, u: nat) {
    (MovesUpload(step) || step.Allocate? || step.Commit?) && step.u == u
  }

  /** Steps that bring upload `u` nearer to its success: no failures, and no writes of nothing. */
  predicate GoesOn(step: Step, u: nat) {
    || (step.Allocate? && step.u == u)
    || (step.WriterOpens? && step.u == u)
    || (step.WriterWrites? && step.u == u && step.n > 0)
    || (step.WriterCloses? && step.u == u)
    || step == Join(u)
    || step == Commit(u)
  }

  /** Upload `u` is about to commit, and a cleanup pass holds the lock. */
  predicate WaitsForLock(s: State, u: nat)
    requires u < |s.uploads|
  {
    s.uploads[u].phase.Ready? && |s.uploads[u].infos| == NumChunks(|s.uploads[u].data|) && !s.cleaner.Idle?
  }

  /** Upload `u` has a chunk to place, and no node is registered. */
  predicate HasNoNodes(s: State, u: nat)
    requires u < |s.uploads|
  {
    s.uploads[u].phase.Ready? && |s.uploads[u].infos| < NumChunks(|s.uploads[u].data|) && s.registry.Keys == {}
  }

  predicate WriterAnswered(s: State, u: nat, w: nat)
    requires InJob(s, u, w)
  {
    Cluster.Answers(s.registry, s.down, LastInfo(s.uploads[u]).nodeIds[w], LastInfo(s.uploads[u]).chunkId)
  }

  /** Some writer of upload `u` has not started, none is at work, and no node still to be called answers. */
  ghost predicate NoNodeAnswers(s: State, u: nat)
    requires u < |s.uploads|
  {
    && s.uploads[u].phase.Storing? && Waiting in s.uploads[u].phase.writers
    && forall w: nat :: InJob(s, u, w) ==>
                          var writer := s.uploads[u].phase.writers[w];
                          !writer.Writing? && (writer.Waiting? ==> !WriterAnswered(s, u, w))
  }

  /**
   A running upload of which no call has failed can go on exactly unless it waits for a cleanup pass
   to give the lock back, has a chunk to place and no nodes, or waits for nodes that do not answer.
   With a failure of a call counted as a step, it always has one, but for the wait for the lock.
   */
  lemma UploadHasNextStep(s: State, u: nat, order: seq<NodeId>)
    requires Inv(s) && u < |s.uploads| && (s.uploads[u].phase.Ready? || s.uploads[u].phase.Storing?)
    requires Placement.IsOrderOf(order, s.registry.Keys) && |s.owner| < UINT64_SPAN
    ensures (s.uploads[u].phase.Storing? ==> Failed !in s.uploads[u].phase.writers) ==>
              ((exists step :: GoesOn(step, u) && Enabled(s, step)) <==>
               !WaitsForLock(s, u) && !HasNoNodes(s, u) && !NoNodeAnswers(s, u))
    ensures (exists step :: StepOfUpload(step, u) && Enabled(s, step)) <==> !WaitsForLock(s, u)
  {
    var up := s.uploads[u];
    assert UploadOk(s.owner, s.bound, u, up);
    if up.phase.Storing? {
      StoringHasNextStep(s, u);
      if Failed !in up.phase.writers {
        StoringGoesOn(s, u);
      }
    } else {
      ReadyHasNextStep(s, u, order);
    }
  }

  lemma OrderOfNothing(order: seq<NodeId>, keys: set<NodeId>)
    requires Placement.IsOrderOf(order, keys)
    ensures order == [] <==> keys == {}
  {
    var listed := set x | x in order;
    if order == [] {
      assert listed == {};
    } else {
      assert order[0] in listed;
    }
  }

  lemma ReadyHasNextStep(s: State, u: nat, order: seq<NodeId>)
    requires u < |s.uploads| && s.uploads[u].phase.Ready? && UploadOk(s.owner, s.bound, u, s.uploads[u])
    requires Placement.IsOrderOf(order, s.registry.Keys) && |s.owner| < UINT64_SPAN
    ensures (exists step :: GoesOn(step, u) && Enabled(s, step)) <==> !WaitsForLock(s, u) && !HasNoNodes(s, u)
    ensures (exists step :: StepOfUpload(step, u) && Enabled(s, step)) <==> !WaitsForLock(s, u)
  {
    var up := s.uploads[u];
    OrderOfNothing(order, s.registry.Keys);
    if |up.infos| == NumChunks(|up.data|) {
      assert s.cleaner.Idle? ==> Enabled(s, Commit(u)) && StepOfUpload(Commit(u), u) && GoesOn(Commit(u), u);
    } else if order == [] {
      assert Enabled(s, AllocateFails(u)) && StepOfUpload(AllocateFails(u), u);
      forall step | GoesOn(step, u)
        ensures !Enabled(s, step)
      {
        if step.Allocate? && Placement.IsOrderOf(step.order, s.registry.Keys) {
          OrderOfNothing(step.order, s.registry.Keys);
        }
      }
    } else {
      assert Enabled(s, Allocate(u, order)) && StepOfUpload(Allocate(u, order), u) && GoesOn(Allocate(u, order), u);
    }
  }

  lemma StoringHasNextStep(s: State, u: nat)
    requires u < |s.uploads| && UploadOk(s.owner, s.bound, u, s.uploads[u]) && s.uploads[u].phase.Storing?
    ensures exists step :: StepOfUpload(step, u) && Enabled(s, step)
  {
    var writers := s.uploads[u].phase.writers;
    if w: nat :| w < |writers| && (writers[w].Waiting? || writers[w].Writing?) {
      assert Enabled(s, WriterFails(u, w)) && StepOfUpload(WriterFails(u, w), u);
    } else if Failed in writers {
      assert Enabled(s, JoinFails(u)) && StepOfUpload(JoinFails(u), u);
    } else {
      assert Enabled(s, Join(u)) && StepOfUpload(Join(u), u);
    }
  }

  lemma StoringGoesOn(s: State, u: nat)
    requires UploadsOk(s) && JobsOk(s) && u < |s.uploads| && s.uploads[u].phase.Storing? && Failed !in s.uploads[u].phase.writers
    ensures (exists step :: GoesOn(step, u) && Enabled(s, step)) <==> !NoNodeAnswers(s, u)
  {
    var up := s.uploads[u];
    assert UploadOk(s.owner, s.bound, u, up);
    if w: nat :| w < |up.phase.writers| && up.phase.writers[w].Writing? {
      WritingGoesOn(s, u, w);
    } else if w: nat :| InJob(s, u, w) && up.phase.writers[w].Waiting? && WriterAnswered(s, u, w) {
      assert Enabled(s, WriterOpens(u, w)) && GoesOn(WriterOpens(u, w), u);
    } else if Waiting !in up.phase.writers {
      assert Enabled(s, Join(u)) && GoesOn(Join(u), u);
    } else {
      NothingGoesOn(s, u);
    }
  }

  /** A writer at work can always write its next byte, or has written all and can close. */
  lemma WritingGoesOn(s: State, u: nat, w: nat)
    requires UploadsOk(s) && JobsOk(s) && u < |s.uploads| && s.uploads[u].phase.Storing? && Failed !in s.uploads[u].phase.writers
    requires w < |s.uploads[u].phase.writers| && s.uploads[u].phase.writers[w].Writing?
    ensures exists step :: GoesOn(step, u) && Enabled(s, step)
  {
    var up := s.uploads[u];
    assert UploadOk(s.owner, s.bound, u, up) && JobOk(s.bound, s.disk, up);
    assert WriterOk(s.bound, s.disk, LastInfo(up), LastSlice(up), up.phase.writers, w);
    if up.phase.writers[w].off < |LastSlice(up)| {
      assert Enabled(s, WriterWrites(u, w, 1)) && GoesOn(WriterWrites(u, w, 1), u);
    } else {
      assert Enabled(s, WriterCloses(u, w)) && GoesOn(WriterCloses(u, w), u);
    }
  }

  lemma NothingGoesOn(s: State, u: nat)
    requires u < |s.uploads| && NoNodeAnswers(s, u)
    ensures forall step :: GoesOn(step, u) ==> !Enabled(s, step)
  {
    var w: nat :| w < |s.uploads[u].phase.writers| && s.uploads[u].phase.writers[w] == Waiting;
    assert s.uploads[u].phase.writers[w] in s.uploads[u].phase.writers;
  }

  // ---------------------------------------------------------------- an upload's work

  /** More than the work of storing one chunk on all its nodes. */
  const CHUNK_WORK := REPLICATION_FACTOR * (CHUNK_SIZE + 2) + 2

  function WriterWork(w: Writer, size: nat): nat {
    match w
    case Waiting => size + 2
    case Writing(_, off) => if off <= size then size - off + 1 else 1
    case _ => 0
  }

  function WritersWork(writers: seq<Writer>, size: nat): nat {
    if |writers| == 0 then 0 else WriterWork(writers[0], size) + WritersWork(writers[1..], size)
  }

  lemma {:induction false} WritersWorkUpdate(writers: seq<Writer>, w: nat, writer: Writer, size: nat)
    requires w < |writers|
    ensures WritersWork(writers[w := writer], size) == WritersWork(writers, size) - WriterWork(writers[w], size) + WriterWork(writer, size)
  {
    if w == 0 {
      assert writers[0 := writer][1..] == writers[1..];
    } else {
      WritersWorkUpdate(writers[1..], w - 1, writer, size);
      assert writers[w := writer][1..] == writers[1..][w - 1 := writer];
    }
  }

  lemma {:induction false} WaitingWork(n: nat, size: nat)
    ensures WritersWork(seq(n, _ => Waiting), size) == n * (size + 2)
  {
    if n > 0 {
      WaitingWork(n - 1, size);
      assert seq(n, _ => Waiting)[1..] == seq(n - 1, _ => Waiting);
      Distributed(n, size + 2);
    }
  }

  lemma Distributed(n: nat, x: nat)
    requires n > 0
    ensures x + (n - 1) * x == n * x
  {
  }

  function ChunksLeft(up: Upload): nat {
    if |up.infos| <= NumChunks(|up.data|) then NumChunks(|up.data|) - |up.infos| else 0
  }

  /** A bound on the steps a running upload has still to take, writes of nothing not counted. */
  function UploadWork(up: Upload): nat {
    match up.phase
    case Ready => ChunksLeft(up) * CHUNK_WORK + 1
    case Storing(writers) =>
      ChunksLeft(up) * CHUNK_WORK + 2 + (if |up.infos| > 0 then WritersWork(writers, |LastSlice(up)|) else 0)
    case _ => 0
  }

  /**
   Every step of a running upload brings it nearer to its end, but for a write of nothing, which
   leaves its work as it is; and the steps of all others leave the upload alone.
   */
  lemma UploadEnds(s: State, step: Step, u: nat)
    requires Inv(s) && Enabled(s, step) && u < |s.uploads| && (s.uploads[u].phase.Ready? || s.uploads[u].phase.Storing?)
    ensures u < |Apply(s, step).uploads|
    ensures if StepOfUpload(step, u) then
              if step.WriterWrites? && step.n == 0 then UploadWork(Apply(s, step).uploads[u]) == UploadWork(s.uploads[u])
              else UploadWork(Apply(s, step).uploads[u]) < UploadWork(s.uploads[u])
            else Apply(s, step).uploads[u] == s.uploads[u]
  {
    if !StepOfUpload(step, u) {
      OthersLeaveUpload(s, step, u);
    } else if step.Allocate? {
      AllocationWork(s, u, step.order);
    } else if step.WriterOpens? || step.WriterWrites? || step.WriterCloses? || step.WriterFails? {
      WriterStepWork(s, step);
    } else {
      OtherOwnWork(s, step);
    }
  }

  lemma OthersLeaveUpload(s: State, step: Step, u: nat)
    requires EntriesOk(s) && TombsOk(s) && Enabled(s, step) && u < |s.uploads|
    requires (s.uploads[u].phase.Ready? || s.uploads[u].phase.Storing?) && !StepOfUpload(step, u)
    ensures u < |Apply(s, step).uploads| && Apply(s, step).uploads[u] == s.uploads[u]
  {
    if !step.Allocate? && !step.PutBegins? {
      StepLeavesUpload(s, step, u);
      StepPhases(s, step, u);
    }
  }

  lemma AllocationWork(s: State, u: nat, order: seq<NodeId>)
    requires Enabled(s, Allocate(u, order))
    ensures UploadWork(Allocated(s, u, order).uploads[u]) < UploadWork(s.uploads[u])
  {
    var up, up' := s.uploads[u], Allocated(s, u, order).uploads[u];
    WaitingWork(REPLICATION_FACTOR, |LastSlice(up')|);
    assert |LastSlice(up')| <= CHUNK_SIZE;
    assert ChunksLeft(up) == ChunksLeft(up') + 1;
  }

  lemma WriterStepWork(s: State, step: Step)
    requires Enabled(s, step) && (step.WriterOpens? || step.WriterWrites? || step.WriterCloses? || step.WriterFails?)
    ensures step.u < |Apply(s, step).uploads|
    ensures var work, work' := UploadWork(s.uploads[step.u]), UploadWork(Apply(s, step).uploads[step.u]);
            if step.WriterWrites? && step.n == 0 then work' == work else work' < work
  {
    var up, up' := s.uploads[step.u], Apply(s, step).uploads[step.u];
    WritersWorkUpdate(up.phase.writers, step.w, up'.phase.writers[step.w], |LastSlice(up)|);
  }

  lemma OtherOwnWork(s: State, step: Step)
    requires Enabled(s, step) && (step.AllocateFails? || step.Join? || step.JoinFails? || step.Commit?)
    ensures step.u < |Apply(s, step).uploads| && UploadWork(Apply(s, step).uploads[step.u]) < UploadWork(s.uploads[step.u])
  {
  }
}
