/**
 What time and failures do to files and nodes: the grace window of running downloads, the fate of
 every committed file, and the lasting binding of node ids.
 */
module Lifetimes {
  import opened Types
  import opened Chunking
  import opened Tombstones
  import opened NodeIds
  import opened Protocol
  import opened Invariant
  import opened Preservation
  import opened DiskPreservation
  import opened Safety
  import opened Refinement
  import Cluster

  // ---------------------------------------------------------------- the fate of committed files

  /** Once a file has been overwritten, reclaimed or forgotten, nothing more becomes of it. */
  predicate Settled(phase: Phase) {
    phase.Overwritten? || phase.Reclaimed? || phase.Forgotten?
  }

  /** How the fate of a committed file can develop. */
  predicate FateAfter(before: Phase, after: Phase) {
    && Committed(after)
    && (Settled(before) ==> after == before)
    && (before.Pending? ==> after == before || after.Reclaimed? || after.Forgotten?)
  }

  /**
   Accounting over runs: a committed file stays accounted for, is made a tombstone at most once (a
   tombstone keeps its time until it goes, and never comes back), and its end is final.
   */
  lemma {:induction false} FatesAdvance(states: seq<State>, steps: seq<Step>, i: nat, j: nat, u: nat)
    requires Run(states, steps) && i <= j < |states| && u < |states[i].uploads| && Committed(states[i].uploads[u].phase)
    ensures u < |states[j].uploads| && FateAfter(states[i].uploads[u].phase, states[j].uploads[u].phase)
    ensures states[j].uploads[u].infos == states[i].uploads[u].infos
    ensures var p, q := states[i].uploads[u].phase, states[j].uploads[u].phase;
            && (q.Active? || q.Overwritten? || q.Pending? || q.Reclaimed? || q.Forgotten?)
            && (p.Overwritten? || p.Reclaimed? || p.Forgotten? ==> q == p)
            && (p.Pending? ==> q == p || q.Reclaimed? || q.Forgotten?)
  {
    if i < j {
      FatesAdvance(states, steps, i, j - 1, u);
      RunKeepsInv(states, steps, j - 1);
      FateExtends(states[i].uploads[u].phase, states[j - 1], steps[j - 1], u);
    }
  }

  lemma FateChains(p: Phase, q: Phase, r: Phase)
    requires FateAfter(p, q) && FateAfter(q, r)
    ensures FateAfter(p, r)
  {
  }

  lemma FateStep(s: State, step: Step, u: nat)
    requires EntriesOk(s) && TombsOk(s) && Enabled(s, step) && u < |s.uploads| && Committed(s.uploads[u].phase)
    ensures u < |Apply(s, step).uploads| && FateAfter(s.uploads[u].phase, Apply(s, step).uploads[u].phase)
    ensures Apply(s, step).uploads[u].infos == s.uploads[u].infos
  {
    StaysCommitted(s, step, u);
    if !step.Allocate? && !step.PutBegins? {
      StepPhases(s, step, u);
    }
  }

  lemma FateExtends(start: Phase, s: State, step: Step, u: nat)
    requires Inv(s) && Enabled(s, step) && u < |s.uploads| && Committed(start) && FateAfter(start, s.uploads[u].phase)
    ensures u < |Apply(s, step).uploads| && FateAfter(start, Apply(s, step).uploads[u].phase)
    ensures Apply(s, step).uploads[u].infos == s.uploads[u].infos
  {
    FateStep(s, step, u);
    FateChains(start, s.uploads[u].phase, Apply(s, step).uploads[u].phase);
  }

  /**
   Accounting in every reachable state: the active files are exactly the uploads the entries refer
   to, each under its own name, and the pending ones are exactly those with a tombstone, one each.
   */
  lemma FatesAccounted(states: seq<State>, steps: seq<Step>, k: nat, u: nat)
    requires Run(states, steps) && k < |states| && u < |states[k].uploads|
    ensures var s := states[k];
            && (s.uploads[u].phase.Active? <==> exists name :: name in s.entries && s.entries[name].uid == u)
            && (forall name :: name in s.entries && s.entries[name].uid == u ==> name == s.uploads[u].name)
            && (s.uploads[u].phase.Pending? <==> HasTomb(s.tombs, u))
            && (forall l, m :: 0 <= l < |s.tombs| && 0 <= m < |s.tombs| && s.tombs[l].meta.uid == u && s.tombs[m].meta.uid == u ==> l == m)
  {
    RunKeepsInv(states, steps, k);
    var s := states[k];
    if HasTomb(s.tombs, u) {
      var l :| 0 <= l < |s.tombs| && s.tombs[l].meta.uid == u;
      assert TombOk(s.uploads, s.tombs[l]);
    }
  }

  // ---------------------------------------------------------------- racing uploads of one name

  /** Step `i` began upload `u` of `name`, and step `k` commits it. */
  ghost predicate Puts(states: seq<State>, steps: seq<Step>, i: nat, k: nat, name: Name, u: nat) {
    && i < k < |steps| && |steps| < |states|
    && steps[i].PutBegins? && steps[i].name == name && |states[i].uploads| == u
    && steps[k] == Commit(u)
  }

  /** A commit overwrites upload `v` exactly when the name stands for `v`. */
  lemma CommitOverwrites(s: State, u: nat, v: nat)
    requires EntriesOk(s) && Enabled(s, Commit(u)) && v < |s.uploads|
    ensures |Apply(s, Commit(u)).uploads| == |s.uploads|
    ensures s.uploads[v].phase.Active? && Apply(s, Commit(u)).uploads[v].phase.Overwritten? <==> Holds(s, s.uploads[u].name, v)
  {
    CommitMoves(s, u);
  }

  /**
   A put that found its name free overwrites another upload's file exactly when that upload was
   committed under the name in between, and not deleted or overwritten since.
   */
  lemma CommitOverwritesExactly(states: seq<State>, steps: seq<Step>, i: nat, k: nat, name: Name, u: nat, v: nat)
    requires Run(states, steps) && Puts(states, steps, i, k, name, u) && v < |states[k].uploads|
    ensures v < |states[k + 1].uploads|
    ensures states[k].uploads[v].phase.Active? && states[k + 1].uploads[v].phase.Overwritten? <==>
            exists m: nat :: i < m && MadeBy(states, steps, m, k, name, v)
  {
    PutName(states, steps, i, k, name, u);
    RunKeepsInv(states, steps, k);
    CommitOverwrites(states[k], u, v);
    HoldsExactly(states, steps, k, name, v);
    forall m: nat | MadeBy(states, steps, m, k, name, v)
      ensures i < m
    {
      FreeAtBegin(states, steps, i, m, k, name, v);
    }
  }

  lemma PutName(states: seq<State>, steps: seq<Step>, i: nat, k: nat, name: Name, u: nat)
    requires Run(states, steps) && Puts(states, steps, i, k, name, u)
    ensures u < |states[k].uploads| && states[k].uploads[u].name == name
  {
    assert states[i + 1].uploads == states[i].uploads + [Upload(name, steps[i].data, [], [], Ready)];
    UploadsPersist(states, steps, i + 1, k, u);
  }

  /** A file committed before the put began would have been found by its check. */
  lemma FreeAtBegin(states: seq<State>, steps: seq<Step>, i: nat, m: nat, k: nat, name: Name, v: nat)
    requires Run(states, steps) && i < k < |states| && steps[i].PutBegins? && steps[i].name == name
    requires MadeBy(states, steps, m, k, name, v)
    ensures i < m
  {
    if m < i {
      assert MadeBy(states, steps, m, i, name, v);
      HoldsExactly(states, steps, i, name, v);
    }
  }

  /** Puts of one name that do not overlap never overwrite each other: the second begins after the first has ended. */
  lemma PutsInTurnKeepFiles(states: seq<State>, steps: seq<Step>, i: nat, k: nat, i': nat, k': nat, name: Name, u: nat, v: nat)
    requires Run(states, steps) && Puts(states, steps, i', k', name, v) && Puts(states, steps, i, k, name, u) && k' < i
    ensures v < |states[k].uploads| && v < |states[k + 1].uploads|
    ensures !(states[k].uploads[v].phase.Active? && states[k + 1].uploads[v].phase.Overwritten?)
  {
    PutName(states, steps, i', k', name, v);
    UploadsPersist(states, steps, k', k, v);
    CommitOverwritesExactly(states, steps, i, k, name, u, v);
    forall m: nat | MadeBy(states, steps, m, k, name, v)
      ensures m <= i
    {
      CommitsOnce(states, steps, k', m, v);
    }
  }

  /** An upload is committed once. */
  lemma CommitsOnce(states: seq<State>, steps: seq<Step>, k: nat, m: nat, v: nat)
    requires Run(states, steps) && k < |steps| && m < |steps| && steps[k] == Commit(v) && steps[m] == Commit(v)
    ensures k == m
  {
    if k < m {
      CommittedOnward(states, steps, k, m, v);
    } else if m < k {
      CommittedOnward(states, steps, m, k, v);
    }
  }

  lemma CommittedOnward(states: seq<State>, steps: seq<Step>, k: nat, m: nat, v: nat)
    requires Run(states, steps) && k < m < |states| && steps[k] == Commit(v)
    ensures v < |states[m].uploads| && Committed(states[m].uploads[v].phase)
  {
    CommitActivates(states[k], v);
    FatesAdvance(states, steps, k + 1, m, v);
  }

  lemma CommitActivates(s: State, v: nat)
    requires Enabled(s, Commit(v))
    ensures v < |Apply(s, Commit(v)).uploads| && Apply(s, Commit(v)).uploads[v].phase.Active?
  {
  }

  // ---------------------------------------------------------------- racing deletions of one name

  lemma StepNames(s: State, step: Step, name: Name)
    requires EntriesOk(s) && Enabled(s, step)
    ensures name in Apply(s, step).entries <==> if Rewrites(s, step, name) then step.Commit? else name in s.entries
  {
    if name in s.entries {
      StepHolds(s, step, name, s.entries[name].uid);
    }
    if name in Apply(s, step).entries {
      StepHolds(s, step, name, Apply(s, step).entries[name].uid);
    }
    if step.Commit? {
      StepHolds(s, step, name, step.u);
    }
  }

  /** Step `m` deleted the name, and until state `k` nothing committed it again. */
  ghost predicate RemovedBy(states: seq<State>, steps: seq<Step>, m: nat, k: nat, name: Name) {
    && m < k <= |steps| && k <= |states|
    && steps[m].DeletePath? && Rewrites(states[m], steps[m], name)
    && forall x :: m < x < k ==> !Rewrites(states[x], steps[x], name)
  }

  lemma LastRemoved(states: seq<State>, steps: seq<Step>, i: nat, j: nat, k: nat, name: Name)
    requires i <= j && k == j + 1 && k < |states| && k <= |steps|
    ensures (exists m: nat :: i <= m && RemovedBy(states, steps, m, k, name)) <==>
            if Rewrites(states[j], steps[j], name) then steps[j].DeletePath?
            else exists m: nat :: i <= m && RemovedBy(states, steps, m, j, name)
  {
    if m: nat :| i <= m && RemovedBy(states, steps, m, k, name) {
      assert m < j ==> !Rewrites(states[j], steps[j], name) && RemovedBy(states, steps, m, j, name);
    }
    if Rewrites(states[j], steps[j], name) {
      assert steps[j].DeletePath? ==> RemovedBy(states, steps, j, k, name);
    } else if m: nat :| i <= m && RemovedBy(states, steps, m, j, name) {
      assert RemovedBy(states, steps, m, k, name);
    }
  }

  /**
   A deletion looks its name up and deletes it in two critical sections. One that found the name in
   state `i` and deletes in state `k` finds nothing to delete, and answers that all is well, exactly
   when another deletion removed the name in between and nothing committed it again.
   */
  lemma {:induction false} DeleteFindsNothingExactly(states: seq<State>, steps: seq<Step>, i: nat, k: nat, name: Name)
    requires Run(states, steps) && i <= k < |states| && name in states[i].entries
    ensures name !in states[k].entries <==> exists m: nat :: i <= m && RemovedBy(states, steps, m, k, name)
  {
    if i < k {
      DeleteFindsNothingExactly(states, steps, i, k - 1, name);
      RunKeepsInv(states, steps, k - 1);
      StepNames(states[k - 1], steps[k - 1], name);
      LastRemoved(states, steps, i, k - 1, k, name);
    }
  }

  /**
   It finds the very file that it looked up exactly when no step has deleted or committed the name in
   between; otherwise it finds nothing, or deletes a file that came later.
   */
  lemma DeletesSameFileExactly(states: seq<State>, steps: seq<Step>, i: nat, k: nat, name: Name)
    requires Run(states, steps) && i <= k < |states| && name in states[i].entries
    ensures Holds(states[k], name, states[i].entries[name].uid) <==> forall x :: i <= x < k ==> !Rewrites(states[x], steps[x], name)
  {
    var v := states[i].entries[name].uid;
    HoldsExactly(states, steps, i, name, v);
    HoldsExactly(states, steps, k, name, v);
    assert Holds(states[i], name, v);
    var m: nat :| MadeBy(states, steps, m, i, name, v);
    if forall x :: i <= x < k ==> !Rewrites(states[x], steps[x], name) {
      assert MadeBy(states, steps, m, k, name, v);
    }
    if Holds(states[k], name, v) {
      var m': nat :| MadeBy(states, steps, m', k, name, v);
      CommitsOnce(states, steps, m, m', v);
    }
  }

  /** A state of a system without nodes in which only these uploads and this file have ever been. */
  function After(s: State, phases: seq<Phase>, name: Name, active: Option<nat>): State {
    var uploads := seq(|phases|, u requires 0 <= u < |phases| => Upload(name, [], [], [], phases[u]));
    s.(uploads := uploads,
       entries := if active.Some? then map[name := File(active.value, FileMeta(0, CHUNK_SIZE, []))] else map[])
  }

  lemma RaceBegins(s: State, name: Name)
    requires Init(s) && name != ""
    ensures var begin := PutBegins(name, []);
            var s1 := After(s, [Ready], name, None);
            && Enabled(s, begin) && Apply(s, begin) == s1
            && Enabled(s1, begin) && Apply(s1, begin) == After(s, [Ready, Ready], name, None)
  {
  }

  lemma RaceEnds(s: State, name: Name)
    requires Init(s) && name != ""
    ensures var s2, s3 := After(s, [Ready, Ready], name, None), After(s, [Active, Ready], name, Some(0));
            && Enabled(s2, Commit(0)) && Apply(s2, Commit(0)) == s3
            && Enabled(s3, Commit(1)) && Apply(s3, Commit(1)) == After(s, [Overwritten, Active], name, Some(1))
  {
  }

  /** Two uploads of one name, both begun while it was free, can both commit, the second over the first. */
  lemma RacingUploadsBothCommit(s: State, name: Name)
    requires Init(s) && name != ""
    ensures exists states: seq<State>, steps: seq<Step> ::
              && Run(states, steps) && states[0] == s && steps == [PutBegins(name, []), PutBegins(name, []), Commit(0), Commit(1)]
              && states[4] == After(s, [Overwritten, Active], name, Some(1))
  {
    RaceBegins(s, name);
    RaceEnds(s, name);
    var steps := [PutBegins(name, []), PutBegins(name, []), Commit(0), Commit(1)];
    var states := [s, After(s, [Ready], name, None), After(s, [Ready, Ready], name, None),
                   After(s, [Active, Ready], name, Some(0)), After(s, [Overwritten, Active], name, Some(1))];
    assert Run(states, steps);
  }

  // ---------------------------------------------------------------- the grace window

  /** A deleted file whose tombstone has not outlived its lifetime, or a file that is not a tombstone. */
  predicate Young(s: State, u: nat) {
    u < |s.uploads| && (s.uploads[u].phase.Pending? ==> s.clock - s.uploads[u].phase.since <= TOMBSTONE_LIFETIME)
  }

  lemma YoungTombsAreFresh(s: State, u: nat, now: nat)
    requires TombsOk(s) && Young(s, u) && now <= s.clock
    ensures forall k :: 0 <= k < |s.tombs| && s.tombs[k].meta.uid == u ==> !Expired(s.tombs[k], now)
  {
    forall k | 0 <= k < |s.tombs| && s.tombs[k].meta.uid == u
      ensures !Expired(s.tombs[k], now)
    {
      assert TombOk(s.uploads, s.tombs[k]);
    }
  }

  lemma YoungIsNotBeingDeleted(s: State, u: nat)
    requires Inv(s) && Young(s, u)
    ensures !BeingDeleted(s, u)
  {
    if s.cleaner.Deleting? {
      YoungTombsAreFresh(s, u, s.cleaner.now);
    }
  }

  lemma FilesNotReclaimed(s: State, step: Step, u: nat)
    requires EntriesOk(s) && TombsOk(s) && Enabled(s, step) && MovesFiles(step) && u < |s.uploads|
    requires !s.uploads[u].phase.Reclaimed? && !BeingDeleted(s, u)
    ensures u < |Apply(s, step).uploads| && !Apply(s, step).uploads[u].phase.Reclaimed?
  {
    if step.Commit? {
      CommitMoves(s, step.u);
    } else if step.DeletePath? {
      DeleteMoves(s, step.name, step.trimTime);
    }
  }

  lemma NotErasedNotReclaimed(s: State, step: Step, u: nat)
    requires EntriesOk(s) && TombsOk(s) && Enabled(s, step) && u < |s.uploads|
    requires Committed(s.uploads[u].phase) && !s.uploads[u].phase.Reclaimed? && !BeingDeleted(s, u)
    ensures u < |Apply(s, step).uploads| && !Apply(s, step).uploads[u].phase.Reclaimed?
  {
    if MovesFiles(step) {
      FilesNotReclaimed(s, step, u);
    } else if !step.Allocate? && !step.PutBegins? {
      StepLeavesUpload(s, step, u);
      if MovesUpload(step) {
        StepMovesUpload(s, step);
      }
    }
  }

  /** `pick` names, for each chunk, a node in its list that is registered and up. */
  ghost predicate PicksAlive(s: State, chunks: seq<ChunkInfo>, pick: seq<nat>) {
    && |pick| == |chunks|
    && forall c :: 0 <= c < |chunks| ==> pick[c] < |chunks[c].nodeIds| && Alive(s, chunks[c].nodeIds[pick[c]])
  }

  /** The download has not failed, and has not gone past the picked node of its next chunk. */
  predicate OnTrack(rd: Reader, pick: seq<nat>) {
    && !rd.progress.Broken?
    && (rd.progress.Reading? && rd.next < |pick| ==> rd.progress.attempt <= pick[rd.next])
  }

  lemma PickedAttemptHits(s: State, rd: Reader, pick: seq<nat>)
    requires Inv(s) && ReaderOk(s.uploads, rd) && Intact(s, rd.file.uid) && PicksAlive(s, rd.file.meta.chunks, pick)
    requires rd.progress.Reading? && rd.next < |rd.file.meta.chunks| && rd.progress.attempt == pick[rd.next]
    ensures AttemptHits(s, rd)
  {
    SafeFileStored(s, rd.file);
    assert StoredAt(s, rd.file, rd.next, pick[rd.next]);
    StoredIsUsable(s, rd.file, rd.next, pick[rd.next]);
  }

  lemma StaysOnTrack(s: State, step: Step, r: nat, pick: seq<nat>)
    requires Inv(s) && Enabled(s, step) && r < |s.readers| && OnTrack(s.readers[r], pick)
    requires PicksAlive(s, s.readers[r].file.meta.chunks, pick) && Intact(s, s.readers[r].file.uid)
    ensures r < |Apply(s, step).readers| && OnTrack(Apply(s, step).readers[r], pick)
  {
    OneNewReader(s, step);
    StepReaders(s, step, r);
    var rd := s.readers[r];
    assert ReaderOk(s.uploads, rd);
    if (step == ReadMiss(r) || step == ReadFails(r)) && rd.progress.attempt >= pick[rd.next] {
      PickedAttemptHits(s, rd, pick);
    }
  }

  /** Throughout states `i` to `j - 1` the picked nodes stay alive. */
  ghost predicate PicksStayAlive(states: seq<State>, i: nat, j: nat, chunks: seq<ChunkInfo>, pick: seq<nat>) {
    j < |states| && forall m :: i <= m < j ==> PicksAlive(states[m], chunks, pick)
  }

  /** Throughout states `i` to `j - 1` no cleanup pass is at the tombstone of upload `u`. */
  ghost predicate LeftAlone(states: seq<State>, i: nat, j: nat, u: nat) {
    j < |states| && forall m :: i <= m < j ==> !BeingDeleted(states[m], u)
  }

  /** Throughout states `i` to `j - 1` the file is no old tombstone. */
  ghost predicate StaysYoung(states: seq<State>, i: nat, j: nat, u: nat) {
    j < |states| && forall m :: i <= m < j ==> Young(states[m], u)
  }

  lemma {:induction false} UndisturbedStaysOnTrack(states: seq<State>, steps: seq<Step>, i: nat, j: nat, r: nat, name: Name, pick: seq<nat>)
    requires Run(states, steps) && i < j < |states|
    requires steps[i] == Lookup(name) && |states[i].readers| == r && name in states[i].entries
    requires PicksStayAlive(states, i, j, states[i].entries[name].meta.chunks, pick)
    requires LeftAlone(states, i, j, states[i].entries[name].uid)
    ensures r < |states[j].readers| && states[j].readers[r].file == states[i].entries[name]
    ensures OnTrack(states[j].readers[r], pick)
    ensures var u := states[i].entries[name].uid;
            u < |states[j].uploads| && Committed(states[j].uploads[u].phase) && !states[j].uploads[u].phase.Reclaimed?
  {
    var f := states[i].entries[name];
    var s, step := states[j - 1], steps[j - 1];
    RunKeepsInv(states, steps, j - 1);
    if j == i + 1 {
      assert FileOk(s.uploads, f) && s.uploads[f.uid].phase.Active?;
      assert PicksAlive(states[i], f.meta.chunks, pick);
    } else {
      UndisturbedStaysOnTrack(states, steps, i, j - 1, r, name, pick);
      assert PicksAlive(s, f.meta.chunks, pick) && !BeingDeleted(s, f.uid);
      StaysOnTrack(s, step, r, pick);
      ReaderStep(s, step, r);
      StaysCommitted(s, step, f.uid);
      NotErasedNotReclaimed(s, step, f.uid);
    }
  }

  /**
   The grace window. A download started by the lookup at step `i` does not fail as long as each chunk
   has some node that stays registered and up, and the file, should it have been deleted, has not
   been a tombstone for longer than the lifetime, whatever deletions, cleanup passes, uploads and
   other outages happen meanwhile. (What it sends is the file's data by DownloadIsOneUpload.)
   */
  lemma GraceWindow(states: seq<State>, steps: seq<Step>, i: nat, j: nat, r: nat, name: Name, pick: seq<nat>)
    requires Run(states, steps) && i < j < |states|
    requires steps[i] == Lookup(name) && |states[i].readers| == r && name in states[i].entries
    requires PicksStayAlive(states, i, j, states[i].entries[name].meta.chunks, pick)
    requires StaysYoung(states, i, j, states[i].entries[name].uid)
    ensures r < |states[j].readers| && states[j].readers[r].file == states[i].entries[name]
    ensures OnTrack(states[j].readers[r], pick) && !states[j].readers[r].progress.Broken?
    ensures var u := states[i].entries[name].uid;
            u < |states[j].uploads| && Committed(states[j].uploads[u].phase) && !states[j].uploads[u].phase.Reclaimed?
  {
    var u := states[i].entries[name].uid;
    forall m | i <= m < j
      ensures !BeingDeleted(states[m], u)
    {
      RunKeepsInv(states, steps, m);
      YoungIsNotBeingDeleted(states[m], u);
    }
    UndisturbedStaysOnTrack(states, steps, i, j, r, name, pick);
  }

  // ---------------------------------------------------------------- node ids

  lemma {:induction false} BindingsPersist(states: seq<State>, steps: seq<Step>, i: nat, j: nat)
    requires Run(states, steps) && i <= j < |states|
    ensures states[i].bound <= states[j].bound
  {
    if i < j {
      BindingsPersist(states, steps, i, j - 1);
      RunKeepsInv(states, steps, j - 1);
      StepGrows(states[j - 1], steps[j - 1]);
    }
  }

  /** The address a node id was given to is its address for the rest of the run. */
  lemma IdsBoundForever(states: seq<State>, steps: seq<Step>, i: nat, j: nat, id: NodeId)
    requires Run(states, steps) && i <= j < |states| && Known(states[i].bound, id)
    ensures Known(states[j].bound, id) && BoundTo(states[j].bound, id) == BoundTo(states[i].bound, id)
    ensures id in states[j].registry ==> states[j].registry[id] == BoundTo(states[i].bound, id)
  {
    RunKeepsInv(states, steps, j);
    BindingsPersist(states, steps, i, j);
  }

  lemma StepRegistry(s: State, step: Step)
    requires Enabled(s, step) && !step.Register?
    ensures Apply(s, step).registry.Keys <= s.registry.Keys
  {
    if !step.Unregister? {
      StepLeavesRegistry(s, step);
    }
  }

  lemma StaysUnregistered(s: State, step: Step, id: NodeId)
    requires RegistryOk(s) && Enabled(s, step) && Known(s.bound, id) && id !in s.registry
    ensures id !in Apply(s, step).registry
  {
    if step.Register? {
      SerialOfId(|s.bound|);
    } else {
      StepRegistry(s, step);
    }
  }

  /** An unregistered id never comes back: a server that returns gets a new one. */
  lemma {:induction false} UnregisteredForever(states: seq<State>, steps: seq<Step>, i: nat, j: nat, id: NodeId)
    requires Run(states, steps) && i <= j < |states| && Known(states[i].bound, id) && id !in states[i].registry
    ensures id !in states[j].registry
  {
    if i < j {
      UnregisteredForever(states, steps, i, j - 1, id);
      IdsBoundForever(states, steps, i, j - 1, id);
      RunKeepsInv(states, steps, j - 1);
      StaysUnregistered(states[j - 1], steps[j - 1], id);
    }
  }

  /**
   What that costs: a committed file one of whose chunks has lost all its nodes to unregistration can
   never be downloaded again, even if the same servers, with their disks, register anew.
   */
  lemma LostForever(states: seq<State>, steps: seq<Step>, i: nat, j: nat, u: nat, c: nat)
    requires Run(states, steps) && i <= j < |states|
    requires u < |states[i].uploads| && c < |states[i].uploads[u].infos| && Committed(states[i].uploads[u].phase)
    requires forall id :: id in states[i].uploads[u].infos[c].nodeIds ==> id !in states[i].registry
    ensures var s, f := states[j], File(u, MetaOf(states[i].uploads[u]));
            |Download(s, f)| < |f.meta.chunks|
  {
    var s, f := states[j], File(u, MetaOf(states[i].uploads[u]));
    var info := f.meta.chunks[c];
    RunKeepsInv(states, steps, i);
    NodesKnown(states[i], u, c);
    forall id | id in info.nodeIds
      ensures id !in s.registry
    {
      var k :| 0 <= k < |info.nodeIds| && info.nodeIds[k] == id;
      UnregisteredForever(states, steps, i, j, id);
    }
    Cluster.DownloadOutcome(s.registry, s.down, s.disk, f.meta.chunks);
    assert !Cluster.Readable(s.registry, s.down, s.disk, info);
  }

  /** A registration gets an id no earlier one had, and an address nobody registered holds. */
  lemma RegistrationIsFresh(states: seq<State>, steps: seq<Step>, k: nat, addr: Addr)
    requires Run(states, steps) && k < |steps| && steps[k] == Register(addr)
    ensures var id := IdOf(|states[k].bound|);
            && !Known(states[k].bound, id) && Known(states[k + 1].bound, id)
            && states[k + 1].registry == states[k].registry[id := addr]
            && forall other :: other in states[k].registry ==> states[k].registry[other] != addr
  {
    SerialOfId(|states[k].bound|);
  }

  /**
   A stop is safe however late: when the server that registered at `addr` in step `k` has its id
   unregistered in step `m`, the entry that goes is its own, and every other server's stays.
   */
  lemma StaleStopHitsOwner(states: seq<State>, steps: seq<Step>, k: nat, m: nat, addr: Addr)
    requires Run(states, steps) && k < m < |steps| && steps[k] == Register(addr)
    requires steps[m] == Unregister(IdOf(|states[k].bound|))
    ensures var id := IdOf(|states[k].bound|);
            && states[m].registry[id] == addr
            && states[m + 1].registry == states[m].registry - {id}
            && forall other :: other in states[m].registry && states[m].registry[other] != addr ==>
                                 other in states[m + 1].registry && states[m + 1].registry[other] == states[m].registry[other]
  {
    RegistrationIsFresh(states, steps, k, addr);
    SerialOfId(|states[k].bound|);
    IdsBoundForever(states, steps, k + 1, m, IdOf(|states[k].bound|));
    assert BoundTo(states[k + 1].bound, IdOf(|states[k].bound|)) == addr;
  }
}
