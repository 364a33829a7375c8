/** Every step keeps the invariant. */
module Preservation {
  import opened Types
  import opened Chunking
  import opened Placement
  import opened Tombstones
  import opened Protocol
  import opened Invariant

  /** Steps of one upload that change its phase alone. */
  predicate MovesUpload(step: Step) {
    || step.AllocateFails? || step.WriterOpens? || step.WriterWrites? || step.WriterCloses? || step.WriterFails?
    || step.Join? || step.JoinFails?
  }

  /** Steps of the metadata store that change what has become of committed files. */
  predicate MovesFiles(step: Step) {
    step.Commit? || step.DeletePath? || step.CleanupErases?
  }

  lemma StepLeavesUploads(s: State, step: Step)
    requires Enabled(s, step) && !step.PutBegins? && !step.Allocate? && !MovesUpload(step) && !MovesFiles(step)
    ensures Apply(s, step).uploads == s.uploads && Apply(s, step).owner == s.owner
    ensures s.bound <= Apply(s, step).bound && s.clock <= Apply(s, step).clock
  {
  }

  /** The ways an upload's phase can change in one step. */
  predicate PhaseMove(p: Phase, p': Phase) {
    || p == p'
    || (p.Ready? && (p'.Aborted? || p'.Active?))
    || (p.Storing? && (p'.Ready? || p'.Aborted? || (p'.Storing? && |p'.writers| == |p.writers|)))
    || (p.Active? && (p'.Overwritten? || p'.Pending? || p'.Forgotten?))
    || (p.Pending? && (p'.Reclaimed? || p'.Forgotten?))
  }

  /** Upload `u` moves to another phase before its commit, and no other upload changes. */
  ghost predicate MovesTo(s: State, u: nat, s': State) {
    && SameUploads(s, s') && u < |s.uploads| && s'.bound == s.bound && s'.clock == s.clock
    && s'.uploads == s.uploads[u := s.uploads[u].(phase := s'.uploads[u].phase)]
    && PhaseMove(s.uploads[u].phase, s'.uploads[u].phase)
    && !Committed(s'.uploads[u].phase) && !Committed(s.uploads[u].phase)
  }

  lemma WriterMovesUpload(s: State, step: Step)
    requires Enabled(s, step) && (step.WriterOpens? || step.WriterWrites?)
    ensures MovesTo(s, step.u, Apply(s, step))
  {
  }

  lemma WriterEndMovesUpload(s: State, step: Step)
    requires Enabled(s, step) && (step.WriterCloses? || step.WriterFails?)
    ensures MovesTo(s, step.u, Apply(s, step))
  {
  }

  lemma StepMovesUpload(s: State, step: Step)
    requires Enabled(s, step) && MovesUpload(step)
    ensures MovesTo(s, step.u, Apply(s, step))
  {
    if step.WriterOpens? || step.WriterWrites? {
      WriterMovesUpload(s, step);
    } else if step.WriterCloses? || step.WriterFails? {
      WriterEndMovesUpload(s, step);
    }
  }

  /** What a commit does to the metadata. */
  ghost predicate CommitsTo(s: State, u: nat, s': State) {
    && SameUploads(s, s') && u < |s.uploads| && s'.uploads[u].phase.Active?
    && s'.entries == s.entries[s.uploads[u].name := File(u, MetaOf(s.uploads[u]))]
    && (forall v :: 0 <= v < |s.uploads| && v != u ==>
                      s'.uploads[v].phase == if Replaces(s, u, v) then Overwritten else s.uploads[v].phase)
  }

  /** Committing upload `u` overwrites the file that upload `v` made. */
  predicate Replaces(s: State, u: nat, v: nat)
    requires u < |s.uploads|
  {
    s.uploads[u].name in s.entries && s.entries[s.uploads[u].name].uid == v
  }

  lemma CommitMoves(s: State, u: nat)
    requires Enabled(s, Commit(u)) && EntriesOk(s)
    ensures CommitsTo(s, u, Commits(s, u))
    ensures forall v :: 0 <= v < |s.uploads| && Replaces(s, u, v) ==> v != u && s.uploads[v].phase.Active?
  {
  }

  /** The tombstones before any trimming by this deletion. */
  function Entombed(s: State, name: Name): seq<Tombstone<File>>
    requires name in s.entries
  {
    s.tombs + [Tombstone(name, s.entries[name], s.clock)]
  }

  /** How many of them the deletion trims at once. */
  function Trimmed(s: State, name: Name, trimTime: nat): nat
    requires name in s.entries
  {
    if |Entombed(s, name)| > MAX_DELETED_ENTRIES then ExpiredPrefix(Entombed(s, name), trimTime) else 0
  }

  ghost predicate TrimmedAway(s: State, name: Name, trimTime: nat, u: nat)
    requires name in s.entries
  {
    exists i :: 0 <= i < Trimmed(s, name, trimTime) && Entombed(s, name)[i].meta.uid == u
  }

  /** What a deletion does to the metadata. */
  ghost predicate DeletesTo(s: State, name: Name, trimTime: nat, s': State) {
    && name in s.entries
    && SameUploads(s, s') && s'.clock == trimTime && s'.entries == s.entries - {name}
    && Trimmed(s, name, trimTime) <= |Entombed(s, name)|
    && s'.tombs == Entombed(s, name)[Trimmed(s, name, trimTime)..]
    && (forall v :: 0 <= v < |s.uploads| ==>
                      s'.uploads[v].phase == if TrimmedAway(s, name, trimTime, v) then Forgotten
                                             else if v == s.entries[name].uid then Pending(s.clock)
                                             else s.uploads[v].phase)
  }

  lemma DeleteMoves(s: State, name: Name, trimTime: nat)
    requires Enabled(s, DeletePath(name, trimTime))
    ensures DeletesTo(s, name, trimTime, Deletes(s, name, trimTime))
  {
  }

  /** What reclaiming a tombstone does to the metadata. */
  ghost predicate ErasesTo(s: State, pos: nat, s': State) {
    && pos < |s.tombs| && s.tombs[pos].meta.uid < |s.uploads|
    && s'.tombs == Erased(s.tombs, pos) && s'.clock == s.clock
    && s'.uploads == s.uploads[s.tombs[pos].meta.uid := s.uploads[s.tombs[pos].meta.uid].(phase := Reclaimed)]
  }

  lemma EntombedPhase(s: State, name: Name, i: nat)
    requires name in s.entries && EntriesOk(s) && TombsOk(s) && i < |Entombed(s, name)|
    ensures var u := Entombed(s, name)[i].meta.uid;
            && u < |s.uploads|
            && if i < |s.tombs| then s.uploads[u].phase == Pending(s.tombs[i].deletedAt) else s.uploads[u].phase.Active?
  {
    if i < |s.tombs| {
      assert TombOk(s.uploads, s.tombs[i]);
    } else {
      assert FileOk(s.uploads, s.entries[name]);
    }
  }

  lemma DeletePhases(s: State, name: Name, trimTime: nat, s': State, u: nat)
    requires EntriesOk(s) && TombsOk(s) && DeletesTo(s, name, trimTime, s') && u < |s.uploads|
    ensures PhaseMove(s.uploads[u].phase, s'.uploads[u].phase)
    ensures s'.uploads[u].phase.Active? ==> s.uploads[u].phase.Active?
  {
    EntombedPhase(s, name, |s.tombs|);
    if TrimmedAway(s, name, trimTime, u) {
      var i :| 0 <= i < Trimmed(s, name, trimTime) && Entombed(s, name)[i].meta.uid == u;
      EntombedPhase(s, name, i);
    }
  }

  lemma StepPhases(s: State, step: Step, u: nat)
    requires EntriesOk(s) && TombsOk(s)
    requires Enabled(s, step) && !step.PutBegins? && !step.Allocate? && u < |s.uploads|
    ensures |Apply(s, step).uploads| == |s.uploads| && PhaseMove(s.uploads[u].phase, Apply(s, step).uploads[u].phase)
    ensures Apply(s, step).uploads[u].phase.Active? ==> s.uploads[u].phase.Active? || step == Commit(u)
  {
    if MovesUpload(step) {
      StepMovesUpload(s, step);
    } else if step.Commit? {
      CommitMoves(s, step.u);
    } else if step.DeletePath? {
      DeleteMoves(s, step.name, step.trimTime);
      DeletePhases(s, step.name, step.trimTime, Apply(s, step), u);
    } else if step.CleanupErases? {
      assert TombOk(s.uploads, s.tombs[s.cleaner.pos]);
    } else {
      StepLeavesUploads(s, step);
    }
  }

  lemma StepSame(s: State, step: Step)
    requires EntriesOk(s) && TombsOk(s)
    requires Enabled(s, step) && !step.PutBegins? && !step.Allocate?
    ensures SameUploads(s, Apply(s, step))
  {
    if MovesUpload(step) {
      StepMovesUpload(s, step);
    } else if step.Commit? {
      CommitMoves(s, step.u);
    } else if step.DeletePath? {
      DeleteMoves(s, step.name, step.trimTime);
    } else if !step.CleanupErases? {
      StepLeavesUploads(s, step);
    }
  }

  /** A step leaves an upload alone, is one of its own steps, or concerns it as a committed file. */
  ghost predicate LeavesUpload(s: State, step: Step, s': State, u: nat)
    requires u < |s.uploads| && u < |s'.uploads|
  {
    || s'.uploads[u] == s.uploads[u]
    || (MovesUpload(step) && step.u == u)
    || (s'.uploads[u] == s.uploads[u].(phase := s'.uploads[u].phase) && Committed(s'.uploads[u].phase)
        && (Committed(s.uploads[u].phase) || s.uploads[u].phase.Ready?))
  }

  lemma StepLeavesUpload(s: State, step: Step, u: nat)
    requires EntriesOk(s) && TombsOk(s)
    requires Enabled(s, step) && !step.PutBegins? && !step.Allocate? && u < |s.uploads|
    ensures |Apply(s, step).uploads| == |s.uploads| && LeavesUpload(s, step, Apply(s, step), u)
  {
    if MovesUpload(step) {
      StepMovesUpload(s, step);
    } else if MovesFiles(step) {
      StepSame(s, step);
      StepPhases(s, step, u);
      FilesStepKinds(s, step, u);
    } else {
      StepLeavesUploads(s, step);
    }
  }

  lemma FilesStepKinds(s: State, step: Step, u: nat)
    requires EntriesOk(s) && TombsOk(s) && Enabled(s, step) && MovesFiles(step) && u < |s.uploads|
    ensures Apply(s, step).uploads[u] == s.uploads[u] || Committed(Apply(s, step).uploads[u].phase)
  {
    if step.Commit? {
      CommitMoves(s, step.u);
    } else if step.DeletePath? {
      DeleteMoves(s, step.name, step.trimTime);
    }
  }

  lemma StepGrows(s: State, step: Step)
    requires EntriesOk(s) && TombsOk(s)
    requires Enabled(s, step)
    ensures Grown(s, Apply(s, step))
  {
    if !step.Allocate? && !step.PutBegins? {
      StepSame(s, step);
    }
  }

  // ---------------------------------------------------------------- uploads

  lemma InfoGrows(s: State, s': State, u: nat, i: nat, info: ChunkInfo, n: nat)
    requires s.owner <= s'.owner && s.bound <= s'.bound
    requires InfoOk(s.owner, s.bound, u, i, info, n)
    ensures InfoOk(s'.owner, s'.bound, u, i, info, n)
  {
  }

  lemma UploadsFollow(s: State, s': State)
    requires UploadsOk(s) && SameUploads(s, s')
    requires forall u :: 0 <= u < |s.uploads| ==> PhaseMove(s.uploads[u].phase, s'.uploads[u].phase)
    requires forall u :: 0 <= u < |s.uploads| && s'.uploads[u].phase.Active? ==> |s.uploads[u].infos| == NumChunks(|s.uploads[u].data|)
    ensures UploadsOk(s')
  {
    forall u | 0 <= u < |s'.uploads|
      ensures UploadOk(s'.owner, s'.bound, u, s'.uploads[u])
    {
      var up, up' := s.uploads[u], s'.uploads[u];
      assert UploadOk(s.owner, s.bound, u, up) && PhaseMove(up.phase, up'.phase);
      forall i | 0 <= i < |up.infos|
        ensures InfoOk(s'.owner, s'.bound, u, i, up'.infos[i], up'.seen[i])
      {
        InfoGrows(s, s', u, i, up.infos[i], up.seen[i]);
      }
    }
  }

  lemma AllocatedInfo(s: State, u: nat, order: seq<NodeId>)
    requires Inv(s) && Enabled(s, Allocate(u, order))
    ensures var s' := Allocated(s, u, order);
            var i := |s.uploads[u].infos|;
            && |s'.uploads[u].infos| == i + 1
            && InfoOk(s'.owner, s'.bound, u, i, s'.uploads[u].infos[i], |order|)
  {
    var start := StartOf(s.nodeIndex, |order|);
    var ids := Select(order, start, REPLICATION_FACTOR);
    SelectShape(order, start, REPLICATION_FACTOR);
    SelectDistinct(order, start, REPLICATION_FACTOR);
    forall j | 0 <= j < |ids|
      ensures ids[j] in s.registry && Known(s.bound, ids[j]) && BoundTo(s.bound, ids[j]) == s.registry[ids[j]]
    {
      assert ids[j] in order;
    }
  }

  lemma UploadsKeptByAllocate(s: State, u: nat, order: seq<NodeId>)
    requires Inv(s) && Enabled(s, Allocate(u, order))
    ensures UploadsOk(Allocated(s, u, order))
  {
    var s' := Allocated(s, u, order);
    AllocatedInfo(s, u, order);
    forall v | 0 <= v < |s'.uploads|
      ensures UploadOk(s'.owner, s'.bound, v, s'.uploads[v])
    {
      assert UploadOk(s.owner, s.bound, v, s.uploads[v]);
      forall i | 0 <= i < |s.uploads[v].infos|
        ensures InfoOk(s'.owner, s'.bound, v, i, s'.uploads[v].infos[i], s'.uploads[v].seen[i])
      {
        InfoGrows(s, s', v, i, s.uploads[v].infos[i], s.uploads[v].seen[i]);
      }
    }
  }

  lemma UploadsKept(s: State, step: Step)
    requires Inv(s) && Enabled(s, step)
    ensures UploadsOk(Apply(s, step))
  {
    var s' := Apply(s, step);
    if step.PutBegins? {
      forall u | 0 <= u < |s'.uploads|
        ensures UploadOk(s'.owner, s'.bound, u, s'.uploads[u])
      {
        assert u < |s.uploads| ==> UploadOk(s.owner, s.bound, u, s.uploads[u]);
      }
    } else if step.Allocate? {
      UploadsKeptByAllocate(s, step.u, step.order);
    } else {
      forall u | 0 <= u < |s.uploads|
        ensures |s'.uploads| == |s.uploads| && PhaseMove(s.uploads[u].phase, s'.uploads[u].phase)
        ensures s'.uploads[u].phase.Active? ==> |s.uploads[u].infos| == NumChunks(|s.uploads[u].data|)
      {
        assert UploadOk(s.owner, s.bound, u, s.uploads[u]);
        StepPhases(s, step, u);
      }
      StepSame(s, step);
      UploadsFollow(s, s');
    }
  }

  // ---------------------------------------------------------------- downloads

  /** A committed upload stays committed, with the same chunks. */
  lemma StaysCommitted(s: State, step: Step, u: nat)
    requires EntriesOk(s) && TombsOk(s) && Enabled(s, step) && u < |s.uploads| && Committed(s.uploads[u].phase)
    ensures var s' := Apply(s, step);
            && u < |s'.uploads| && Committed(s'.uploads[u].phase)
            && s'.uploads[u].infos == s.uploads[u].infos && s'.uploads[u].data == s.uploads[u].data
            && s'.uploads[u].name == s.uploads[u].name
  {
    if !step.Allocate? && !step.PutBegins? {
      StepPhases(s, step, u);
      StepSame(s, step);
    }
  }

  lemma ReaderStays(s: State, step: Step, rd: Reader)
    requires Inv(s) && Enabled(s, step) && ReaderOk(s.uploads, rd)
    ensures ReaderOk(Apply(s, step).uploads, rd)
  {
    StaysCommitted(s, step, rd.file.uid);
  }

  lemma ReadHitKeeps(s: State, r: nat)
    requires Inv(s) && Enabled(s, ReadHit(r))
    ensures ReaderOk(s.uploads, Apply(s, ReadHit(r)).readers[r])
  {
    var rd := s.readers[r];
    var up, i := s.uploads[rd.file.uid], rd.next;
    assert ReaderOk(s.uploads, rd);
    var info, j := up.infos[i], rd.progress.attempt;
    assert Final(up, i) && ChunkOk(s.bound, s.disk, up, i, Intact(s, rd.file.uid));
    assert CopyOk(s.bound, s.disk, info, Slice(up.data, i), j, Intact(s, rd.file.uid));
    PrefixStep(up.data, i);
  }

  predicate MovesReader(step: Step) {
    step.Lookup? || step.ReadHit? || step.ReadMiss? || step.ReadFails? || step.ReadEnds?
  }

  lemma StepLeavesReaders(s: State, step: Step)
    requires Enabled(s, step) && !MovesReader(step)
    ensures Apply(s, step).readers == s.readers
  {
  }

  lemma StepReaders(s: State, step: Step, r: nat)
    requires Enabled(s, step) && r < |Apply(s, step).readers|
    ensures r >= |s.readers| ==> step.Lookup? && Apply(s, step).readers[r] == Reader(step.name, s.entries[step.name], 0, [], Reading(0))
    ensures r < |s.readers| ==>
              var rd, rd' := s.readers[r], Apply(s, step).readers[r];
              || rd' == rd
              || step == ReadHit(r)
              || (step == ReadMiss(r) && rd' == rd.(progress := Reading(rd.progress.attempt + 1)))
              || (step == ReadFails(r) && rd' == rd.(progress := Broken))
              || (step == ReadEnds(r) && rd' == rd.(progress := Done))
  {
    if !MovesReader(step) {
      StepLeavesReaders(s, step);
    }
  }

  lemma ReaderKept(s: State, step: Step, r: nat)
    requires Inv(s) && Enabled(s, step) && r < |Apply(s, step).readers|
    ensures ReaderOk(s.uploads, Apply(s, step).readers[r])
  {
    StepReaders(s, step, r);
    if step == ReadHit(r) {
      ReadHitKeeps(s, r);
    } else if r < |s.readers| {
      assert ReaderOk(s.uploads, s.readers[r]);
    } else {
      assert FileOk(s.uploads, s.entries[step.name]);
    }
  }

  lemma ReadersKept(s: State, step: Step)
    requires Inv(s) && Enabled(s, step)
    ensures ReadersOk(Apply(s, step))
  {
    forall r | 0 <= r < |Apply(s, step).readers|
      ensures ReaderOk(Apply(s, step).uploads, Apply(s, step).readers[r])
    {
      ReaderKept(s, step, r);
      ReaderStays(s, step, Apply(s, step).readers[r]);
    }
  }

  // ---------------------------------------------------------------- active files

  lemma EntriesFollow(s: State, s': State)
    requires EntriesOk(s) && s'.entries == s.entries && Grown(s, s')
    requires forall u :: 0 <= u < |s.uploads| && s.uploads[u].phase.Active? ==>
                           s'.uploads[u].phase.Active? && s'.uploads[u].infos == s.uploads[u].infos
    requires forall u :: 0 <= u < |s'.uploads| && s'.uploads[u].phase.Active? ==> u < |s.uploads| && s.uploads[u].phase.Active?
    ensures EntriesOk(s')
  {
    forall name | name in s'.entries
      ensures FileOk(s'.uploads, s'.entries[name]) && s'.uploads[s'.entries[name].uid].phase.Active?
      ensures s'.uploads[s'.entries[name].uid].name == name
    {
      assert FileOk(s.uploads, s.entries[name]);
    }
  }

  lemma EntriesAfterCommit(s: State, u: nat, s': State)
    requires EntriesOk(s) && CommitsTo(s, u, s') && !Committed(s.uploads[u].phase)
    ensures EntriesOk(s')
  {
    forall n | n in s'.entries
      ensures FileOk(s'.uploads, s'.entries[n]) && s'.uploads[s'.entries[n].uid].phase.Active?
      ensures s'.uploads[s'.entries[n].uid].name == n
    {
      if n != s.uploads[u].name {
        assert FileOk(s.uploads, s.entries[n]);
      }
    }
  }

  lemma EntriesAfterDelete(s: State, name: Name, trimTime: nat, s': State)
    requires EntriesOk(s) && TombsOk(s) && DeletesTo(s, name, trimTime, s')
    ensures EntriesOk(s')
  {
    forall n | n in s'.entries
      ensures FileOk(s'.uploads, s'.entries[n]) && s'.uploads[s'.entries[n].uid].phase.Active?
      ensures s'.uploads[s'.entries[n].uid].name == n
    {
      var v := s.entries[n].uid;
      assert FileOk(s.uploads, s.entries[n]);
      if TrimmedAway(s, name, trimTime, v) {
        var i :| 0 <= i < Trimmed(s, name, trimTime) && Entombed(s, name)[i].meta.uid == v;
        EntombedPhase(s, name, i);
      }
    }
    forall v | 0 <= v < |s'.uploads| && s'.uploads[v].phase.Active?
      ensures s'.uploads[v].name in s'.entries && s'.entries[s'.uploads[v].name].uid == v
    {
      assert s.uploads[v].phase.Active?;
    }
  }

  lemma StaysActive(s: State, step: Step, u: nat)
    requires EntriesOk(s) && TombsOk(s) && Enabled(s, step) && !step.Commit? && !step.DeletePath? && u < |s.uploads| && s.uploads[u].phase.Active?
    ensures u < |Apply(s, step).uploads| && Apply(s, step).uploads[u] == s.uploads[u]
  {
    if MovesUpload(step) {
      StepMovesUpload(s, step);
    } else if step.CleanupErases? {
      assert TombOk(s.uploads, s.tombs[s.cleaner.pos]);
    } else if !step.Allocate? && !step.PutBegins? {
      StepLeavesUploads(s, step);
    }
  }

  lemma WasActive(s: State, step: Step, u: nat)
    requires EntriesOk(s) && TombsOk(s) && Enabled(s, step) && !step.Commit? && u < |Apply(s, step).uploads| && Apply(s, step).uploads[u].phase.Active?
    ensures u < |s.uploads| && s.uploads[u].phase.Active?
  {
    if !step.Allocate? && !step.PutBegins? {
      StepSame(s, step);
      StepPhases(s, step, u);
    }
  }

  lemma UploadsLeaveEntries(s: State, step: Step)
    requires Enabled(s, step) && Uploads(step) && !step.Commit?
    ensures Apply(s, step).entries == s.entries
  {
  }

  lemma StepEntries(s: State, step: Step)
    requires Enabled(s, step) && !step.Commit? && !step.DeletePath?
    ensures Apply(s, step).entries == s.entries
  {
    if Uploads(step) {
      UploadsLeaveEntries(s, step);
    }
  }

  lemma EntriesKeptByCommit(s: State, u: nat)
    requires EntriesOk(s) && TombsOk(s) && Enabled(s, Commit(u))
    ensures EntriesOk(Commits(s, u))
  {
    CommitMoves(s, u);
    EntriesAfterCommit(s, u, Commits(s, u));
  }

  lemma EntriesKeptByDelete(s: State, name: Name, trimTime: nat)
    requires EntriesOk(s) && TombsOk(s) && Enabled(s, DeletePath(name, trimTime))
    ensures EntriesOk(Deletes(s, name, trimTime))
  {
    DeleteMoves(s, name, trimTime);
    EntriesAfterDelete(s, name, trimTime, Deletes(s, name, trimTime));
  }

  lemma EntriesKept(s: State, step: Step)
    requires Inv(s) && Enabled(s, step)
    ensures EntriesOk(Apply(s, step))
  {
    var s' := Apply(s, step);
    if step.Commit? {
      EntriesKeptByCommit(s, step.u);
    } else if step.DeletePath? {
      EntriesKeptByDelete(s, step.name, step.trimTime);
    } else {
      forall u | 0 <= u < |s.uploads| && s.uploads[u].phase.Active?
        ensures u < |s'.uploads| && s'.uploads[u] == s.uploads[u]
      {
        StaysActive(s, step, u);
      }
      forall u | 0 <= u < |s'.uploads| && s'.uploads[u].phase.Active?
        ensures u < |s.uploads| && s.uploads[u].phase.Active?
      {
        WasActive(s, step, u);
      }
      StepEntries(s, step);
      StepGrows(s, step);
      EntriesFollow(s, s');
    }
  }

  // ---------------------------------------------------------------- tombstones

  lemma TombsFollow(s: State, s': State)
    requires TombsOk(s) && s'.tombs == s.tombs && Grown(s, s')
    requires forall u :: 0 <= u < |s.uploads| && s.uploads[u].phase.Pending? ==> s'.uploads[u] == s.uploads[u]
    requires forall u :: 0 <= u < |s'.uploads| && s'.uploads[u].phase.Pending? ==> u < |s.uploads| && s.uploads[u].phase.Pending?
    ensures TombsOk(s')
  {
    forall k | 0 <= k < |s'.tombs|
      ensures TombOk(s'.uploads, s'.tombs[k])
    {
      assert TombOk(s.uploads, s.tombs[k]);
    }
  }

  lemma StaysPending(s: State, step: Step, u: nat)
    requires EntriesOk(s) && TombsOk(s) && Enabled(s, step) && !step.CleanupErases? && !step.DeletePath? && u < |s.uploads| && s.uploads[u].phase.Pending?
    ensures u < |Apply(s, step).uploads| && Apply(s, step).uploads[u] == s.uploads[u]
  {
    if MovesUpload(step) {
      StepMovesUpload(s, step);
    } else if step.Commit? {
      CommitMoves(s, step.u);
    } else if !step.Allocate? && !step.PutBegins? {
      StepLeavesUploads(s, step);
    }
  }

  lemma WasPending(s: State, step: Step, u: nat)
    requires EntriesOk(s) && TombsOk(s) && Enabled(s, step) && !step.DeletePath? && u < |Apply(s, step).uploads| && Apply(s, step).uploads[u].phase.Pending?
    ensures u < |s.uploads| && s.uploads[u].phase.Pending?
  {
    if MovesUpload(step) {
      StepMovesUpload(s, step);
    } else if step.Commit? {
      CommitMoves(s, step.u);
    } else if !step.Allocate? && !step.PutBegins? && !step.CleanupErases? {
      StepLeavesUploads(s, step);
    }
  }

  lemma StepTombs(s: State, step: Step)
    requires Enabled(s, step) && !step.DeletePath? && !step.CleanupErases?
    ensures Apply(s, step).tombs == s.tombs
  {
  }

  function Erased<T>(ts: seq<T>, pos: nat): seq<T>
    requires pos < |ts|
  {
    ts[..pos] + ts[pos + 1..]
  }

  lemma ErasedAt<T>(ts: seq<T>, pos: nat)
    requires pos < |ts|
    ensures |Erased(ts, pos)| == |ts| - 1
    ensures forall k :: 0 <= k < pos ==> Erased(ts, pos)[k] == ts[k]
    ensures forall k :: pos <= k < |ts| - 1 ==> Erased(ts, pos)[k] == ts[k + 1]
  {
  }

  lemma TombsAfterErase(s: State, pos: nat, s': State)
    requires TombsOk(s) && ErasesTo(s, pos, s')
    ensures forall k :: 0 <= k < |s'.tombs| ==> TombOk(s'.uploads, s'.tombs[k])
    ensures forall k, l :: 0 <= k < l < |s'.tombs| ==> s'.tombs[k].meta.uid != s'.tombs[l].meta.uid
    ensures Sorted(s'.tombs) && UpTo(s'.tombs, s'.clock)
  {
    ErasedAt(s.tombs, pos);
    forall k | 0 <= k < |s'.tombs|
      ensures TombOk(s'.uploads, s'.tombs[k])
    {
      assert TombOk(s.uploads, s.tombs[k]) && TombOk(s.uploads, s.tombs[k + 1]);
    }
  }

  lemma PendingAfterErase(s: State, pos: nat, s': State, u: nat)
    requires TombsOk(s) && ErasesTo(s, pos, s')
    requires u < |s'.uploads| && s'.uploads[u].phase.Pending?
    ensures HasTomb(s'.tombs, u)
  {
    ErasedAt(s.tombs, pos);
    assert HasTomb(s.tombs, u);
    var l :| 0 <= l < |s.tombs| && s.tombs[l].meta.uid == u;
    if l < pos {
      assert s'.tombs[l].meta.uid == u;
    } else {
      assert s'.tombs[l - 1].meta.uid == u;
    }
  }

  lemma EntombedOk(s: State, name: Name)
    requires EntriesOk(s) && TombsOk(s) && name in s.entries
    ensures Sorted(Entombed(s, name)) && UpTo(Entombed(s, name), s.clock)
    ensures forall k, l :: 0 <= k < l < |Entombed(s, name)| ==> Entombed(s, name)[k].meta.uid != Entombed(s, name)[l].meta.uid
  {
    var all := Entombed(s, name);
    forall k, l | 0 <= k < l < |all|
      ensures all[k].meta.uid != all[l].meta.uid
    {
      EntombedPhase(s, name, k);
      EntombedPhase(s, name, l);
    }
  }

  lemma TombsAfterDelete(s: State, name: Name, trimTime: nat, s': State)
    requires EntriesOk(s) && TombsOk(s) && DeletesTo(s, name, trimTime, s') && s.clock <= trimTime
    ensures forall k :: 0 <= k < |s'.tombs| ==> TombOk(s'.uploads, s'.tombs[k])
  {
    var all, k0 := Entombed(s, name), Trimmed(s, name, trimTime);
    EntombedOk(s, name);
    forall k | 0 <= k < |s'.tombs|
      ensures TombOk(s'.uploads, s'.tombs[k])
    {
      var t := all[k0 + k];
      assert s'.tombs[k] == t;
      EntombedPhase(s, name, k0 + k);
      if k0 + k < |s.tombs| {
        assert TombOk(s.uploads, s.tombs[k0 + k]);
      } else {
        assert FileOk(s.uploads, s.entries[name]);
      }
      assert !TrimmedAway(s, name, trimTime, t.meta.uid);
    }
  }

  lemma PendingAfterDelete(s: State, name: Name, trimTime: nat, s': State, u: nat)
    requires EntriesOk(s) && TombsOk(s) && DeletesTo(s, name, trimTime, s')
    requires u < |s'.uploads| && s'.uploads[u].phase.Pending?
    ensures HasTomb(s'.tombs, u)
  {
    var l := PendingIsEntombed(s, name, trimTime, s', u);
    assert !TrimmedAway(s, name, trimTime, u);
    assert s'.tombs[l - Trimmed(s, name, trimTime)] == Entombed(s, name)[l];
  }

  lemma PendingIsEntombed(s: State, name: Name, trimTime: nat, s': State, u: nat) returns (l: nat)
    requires EntriesOk(s) && TombsOk(s) && DeletesTo(s, name, trimTime, s')
    requires u < |s'.uploads| && s'.uploads[u].phase.Pending?
    ensures l < |Entombed(s, name)| && Entombed(s, name)[l].meta.uid == u
  {
    l := |s.tombs|;
    if u != s.entries[name].uid {
      assert HasTomb(s.tombs, u);
      l :| 0 <= l < |s.tombs| && s.tombs[l].meta.uid == u;
    }
  }

  lemma TombsKeptByDelete(s: State, name: Name, trimTime: nat, s': State)
    requires EntriesOk(s) && TombsOk(s) && DeletesTo(s, name, trimTime, s') && s.clock <= trimTime
    ensures TombsOk(s')
  {
    EntombedOk(s, name);
    TombsAfterDelete(s, name, trimTime, s');
    forall u | 0 <= u < |s'.uploads| && s'.uploads[u].phase.Pending?
      ensures HasTomb(s'.tombs, u)
    {
      PendingAfterDelete(s, name, trimTime, s', u);
    }
  }

  lemma TombsKeptByDeletes(s: State, name: Name, trimTime: nat)
    requires EntriesOk(s) && TombsOk(s) && Enabled(s, DeletePath(name, trimTime))
    ensures TombsOk(Deletes(s, name, trimTime))
  {
    DeleteMoves(s, name, trimTime);
    TombsKeptByDelete(s, name, trimTime, Deletes(s, name, trimTime));
  }

  lemma TombsKeptByErase(s: State)
    requires TombsOk(s) && Enabled(s, CleanupErases)
    ensures TombsOk(Drops(s))
  {
    var s' := Drops(s);
    TombsAfterErase(s, s.cleaner.pos, s');
    forall u | 0 <= u < |s'.uploads| && s'.uploads[u].phase.Pending?
      ensures HasTomb(s'.tombs, u)
    {
      PendingAfterErase(s, s.cleaner.pos, s', u);
    }
  }

  lemma TombsKept(s: State, step: Step)
    requires Inv(s) && Enabled(s, step)
    ensures TombsOk(Apply(s, step))
  {
    var s' := Apply(s, step);
    if step.CleanupErases? {
      TombsKeptByErase(s);
    } else if step.DeletePath? {
      TombsKeptByDeletes(s, step.name, step.trimTime);
    } else {
      forall u | 0 <= u < |s.uploads| && s.uploads[u].phase.Pending?
        ensures u < |s'.uploads| && s'.uploads[u] == s.uploads[u]
      {
        StaysPending(s, step, u);
      }
      forall u | 0 <= u < |s'.uploads| && s'.uploads[u].phase.Pending?
        ensures u < |s.uploads| && s.uploads[u].phase.Pending?
      {
        WasPending(s, step, u);
      }
      StepTombs(s, step);
      StepGrows(s, step);
      TombsFollow(s, s');
    }
  }

  predicate MovesCleaner(step: Step) {
    || step.CleanupBegins? || step.CleanupPasses? || step.CleanupTakes? || step.CleanupDeletes? || step.CleanupNextChunk?
    || step.CleanupErases? || step.CleanupEnds?
  }

  lemma StepCleaner(s: State, step: Step)
    requires Enabled(s, step) && !MovesCleaner(step)
    ensures Apply(s, step).cleaner == s.cleaner && s.clock <= Apply(s, step).clock
    ensures !s.cleaner.Idle? ==> Apply(s, step).tombs == s.tombs
  {
  }

  lemma CleanerKept(s: State, step: Step)
    requires CleanerOk(s) && Enabled(s, step)
    ensures CleanerOk(Apply(s, step))
  {
    if !MovesCleaner(step) {
      StepCleaner(s, step);
    }
  }
}
