/**
 Where the protection of running downloads by tombstones ends: a download with working nodes breaks
 only after a cleanup pass has taken up its file as an over-age tombstone; it breaks exactly if all
 copies of a chunk go before it has got past that chunk; and once the tombstone has been dropped it
 cannot end well any more.
 */
module LateReads {
  import opened Types
  import opened Chunking
  import opened Tombstones
  import opened Protocol
  import opened Invariant
  import opened Preservation
  import opened DiskPreservation
  import opened Safety
  import opened Refinement
  import opened Lifetimes
  import opened Reclamation

  /** A cleanup pass is at the tombstone of upload `u`, which is older than the lifetime. */
  predicate TakenUp(s: State, u: nat) {
    && BeingDeleted(s, u) && u < |s.uploads| && s.uploads[u].phase.Pending?
    && s.clock - s.uploads[u].phase.since > TOMBSTONE_LIFETIME
  }

  lemma BeingDeletedIsTakenUp(s: State, u: nat)
    requires TombsOk(s) && CleanerOk(s) && BeingDeleted(s, u)
    ensures TakenUp(s, u)
  {
    assert TombOk(s.uploads, s.tombs[s.cleaner.pos]);
  }

  /**
   A download that breaks although some node of each chunk stays registered and up breaks because a
   cleanup pass has taken up its file, as a tombstone older than the lifetime, since the lookup.
   */
  lemma BreaksOnlyWhenTakenUp(states: seq<State>, steps: seq<Step>, i: nat, j: nat, r: nat, name: Name, pick: seq<nat>)
    requires Run(states, steps) && i < j < |states|
    requires steps[i] == Lookup(name) && |states[i].readers| == r && name in states[i].entries
    requires PicksStayAlive(states, i, j, states[i].entries[name].meta.chunks, pick)
    requires r < |states[j].readers| && states[j].readers[r].progress.Broken?
    ensures exists m :: i < m < j && TakenUp(states[m], states[i].entries[name].uid)
  {
    var u := states[i].entries[name].uid;
    if forall m :: i <= m < j ==> !BeingDeleted(states[m], u) {
      UndisturbedStaysOnTrack(states, steps, i, j, r, name, pick);
    } else {
      var m :| i <= m < j && BeingDeleted(states[m], u);
      RunKeepsInv(states, steps, m);
      BeingDeletedIsTakenUp(states[m], u);
    }
  }

  // ---------------------------------------------------------------- too late

  /** Every copy of chunk `c` of upload `u` is gone. */
  ghost predicate ChunkGone(s: State, u: nat, c: nat) {
    && u < |s.uploads| && Committed(s.uploads[u].phase) && c < |s.uploads[u].infos|
    && forall d: nat :: d < |s.uploads[u].infos[c].nodeIds| ==> Gone(s, u, c, d)
  }

  /** The download reads upload `u` and has not got past chunk `c`. */
  predicate NotPast(rd: Reader, u: nat, c: nat) {
    rd.file.uid == u && rd.next <= c && !rd.progress.Done?
  }

  lemma MissesGoneChunk(s: State, step: Step, r: nat, u: nat, c: nat)
    requires Inv(s) && Enabled(s, step) && ChunkGone(s, u, c) && r < |s.readers| && NotPast(s.readers[r], u, c)
    ensures r < |Apply(s, step).readers| && NotPast(Apply(s, step).readers[r], u, c)
  {
    var rd := s.readers[r];
    assert ReaderOk(s.uploads, rd);
    OneNewReader(s, step);
    StepReaders(s, step, r);
    if rd.next == c && rd.progress.Reading? {
      GoneChunkIsMissed(s, rd, u, c);
    }
  }

  lemma GoneChunkIsMissed(s: State, rd: Reader, u: nat, c: nat)
    requires RegistryOk(s) && ReaderOk(s.uploads, rd) && ChunkGone(s, u, c)
    requires rd.file.uid == u && rd.progress.Reading? && rd.next == c
    ensures rd.next < |rd.file.meta.chunks|
    ensures rd.progress.attempt < |ReaderChunk(rd).nodeIds| ==> !AttemptHits(s, rd)
  {
    if rd.progress.attempt < |ReaderChunk(rd).nodeIds| {
      assert Gone(s, u, c, rd.progress.attempt);
    }
  }

  lemma GoneChunkStays(s: State, step: Step, u: nat, c: nat)
    requires Inv(s) && Enabled(s, step) && ChunkGone(s, u, c)
    ensures ChunkGone(Apply(s, step), u, c)
  {
    StaysCommitted(s, step, u);
    forall d: nat | d < |s.uploads[u].infos[c].nodeIds|
      ensures Gone(Apply(s, step), u, c, d)
    {
      GoneStays(s, step, u, c, d);
    }
  }

  /** A download that has still to read a chunk whose copies are all gone never ends well. */
  lemma {:induction false} NeverEndsWell(states: seq<State>, steps: seq<Step>, k: nat, l: nat, r: nat, u: nat, c: nat)
    requires Run(states, steps) && k <= l < |states| && ChunkGone(states[k], u, c)
    requires r < |states[k].readers| && NotPast(states[k].readers[r], u, c)
    ensures ChunkGone(states[l], u, c) && r < |states[l].readers| && NotPast(states[l].readers[r], u, c)
  {
    if k < l {
      NeverEndsWell(states, steps, k, l - 1, r, u, c);
      RunKeepsInv(states, steps, l - 1);
      MissesGoneChunk(states[l - 1], steps[l - 1], r, u, c);
      GoneChunkStays(states[l - 1], steps[l - 1], u, c);
    }
  }

  /**
   Too late: when a pass drops the tombstone of a file, and all nodes of chunk `c` were registered
   and up during the tombstone's turn, a download that has not got past chunk `c` never ends well.
   */
  lemma TooLateNeverEndsWell(states: seq<State>, steps: seq<Step>, i: nat, j: nat, k: nat, r: nat, u: nat, c: nat)
    requires Run(states, steps) && TurnBetween(states, steps, i, j, u) && j < |steps| && steps[j].CleanupErases?
    requires u < |states[j].uploads| && c < |states[j].uploads[u].infos|
    requires forall d: nat :: d < |states[j].uploads[u].infos[c].nodeIds| ==> AliveBetween(states, i, j, u, c, d)
    requires j < k < |states| && r < |states[j + 1].readers| && NotPast(states[j + 1].readers[r], u, c)
    ensures r < |states[k].readers| && !states[k].readers[r].progress.Done?
  {
    ReclaimedChunkGone(states, steps, i, j, u, c);
    NeverEndsWell(states, steps, j + 1, k, r, u, c);
  }

  lemma ReclaimedChunkGone(states: seq<State>, steps: seq<Step>, i: nat, j: nat, u: nat, c: nat)
    requires Run(states, steps) && TurnBetween(states, steps, i, j, u) && j < |steps| && steps[j].CleanupErases?
    requires u < |states[j].uploads| && c < |states[j].uploads[u].infos|
    requires forall d: nat :: d < |states[j].uploads[u].infos[c].nodeIds| ==> AliveBetween(states, i, j, u, c, d)
    ensures ChunkGone(states[j + 1], u, c)
  {
    TurnAtEnd(states, steps, i, j, u);
    var s' := states[j + 1];
    RunKeepsInv(states, steps, j);
    StaysCommitted(states[j], steps[j], u);
    forall d: nat | d < |states[j].uploads[u].infos[c].nodeIds|
      ensures Gone(s', u, c, d)
    {
      GoneAfterTurn(states, steps, i, j, u, c, d);
    }
  }

  /** Until its tombstone is dropped the file is a committed one. */
  lemma TurnAtEnd(states: seq<State>, steps: seq<Step>, i: nat, j: nat, u: nat)
    requires Run(states, steps) && TurnBetween(states, steps, i, j, u) && u < |states[j].uploads|
    ensures Committed(states[j].uploads[u].phase)
  {
    RunKeepsInv(states, steps, i + 1);
    BeingDeletedIsTakenUp(states[i + 1], u);
    FatesAdvance(states, steps, i + 1, j, u);
  }

  // ---------------------------------------------------------------- exactly when a download breaks

  /** Every node listed for these chunks is registered and up. */
  predicate AllAlive(s: State, chunks: seq<ChunkInfo>) {
    forall c, d :: 0 <= c < |chunks| && 0 <= d < |chunks[c].nodeIds| ==> Alive(s, chunks[c].nodeIds[d])
  }

  /** Throughout states `i` to `j - 1` every listed node stays registered and up. */
  ghost predicate AllStayAlive(states: seq<State>, i: nat, j: nat, chunks: seq<ChunkInfo>) {
    j < |states| && forall m :: i <= m < j ==> AllAlive(states[m], chunks)
  }

  /** The first `n` copies of chunk `c` of upload `u` are gone. */
  ghost predicate FirstGone(s: State, u: nat, c: nat, n: nat) {
    forall d: nat :: d < n ==> Gone(s, u, c, d)
  }

  /** Only missing copies have made the download miss: those it has tried for its next chunk, or all of that chunk. */
  ghost predicate MissesExplained(s: State, rd: Reader) {
    && (rd.progress.Reading? ==> FirstGone(s, rd.file.uid, rd.next, rd.progress.attempt))
    && (rd.progress.Broken? ==> ChunkGone(s, rd.file.uid, rd.next))
  }

  lemma FirstGoneStays(s: State, step: Step, u: nat, c: nat, n: nat)
    requires Inv(s) && Enabled(s, step) && FirstGone(s, u, c, n)
    ensures FirstGone(Apply(s, step), u, c, n)
  {
    var s' := Apply(s, step);
    forall d: nat | d < n
      ensures Gone(s', u, c, d)
    {
      assert Gone(s, u, c, d);
      GoneStays(s, step, u, c, d);
    }
  }

  /** A working node that hands a chunk of a committed file out no more has lost its copy. */
  lemma MissedIsGone(s: State, rd: Reader)
    requires Inv(s) && ReaderOk(s.uploads, rd) && rd.progress.Reading? && rd.next < |rd.file.meta.chunks|
    requires rd.progress.attempt < |ReaderChunk(rd).nodeIds| && !AttemptHits(s, rd)
    requires Alive(s, ReaderChunk(rd).nodeIds[rd.progress.attempt])
    ensures Gone(s, rd.file.uid, rd.next, rd.progress.attempt)
  {
    var u, c, d := rd.file.uid, rd.next, rd.progress.attempt;
    NodesKnown(s, u, c);
    assert Final(s.uploads[u], c) && ChunkOk(s.bound, s.disk, s.uploads[u], c, Intact(s, u));
    assert CopyOk(s.bound, s.disk, s.uploads[u].infos[c], Slice(s.uploads[u].data, c), d, Intact(s, u));
  }

  lemma MissExplained(s: State, r: nat)
    requires Inv(s) && Enabled(s, ReadMiss(r)) && MissesExplained(s, s.readers[r]) && AllAlive(s, s.readers[r].file.meta.chunks)
    ensures FirstGone(s, s.readers[r].file.uid, s.readers[r].next, s.readers[r].progress.attempt + 1)
  {
    assert ReaderOk(s.uploads, s.readers[r]);
    MissedIsGone(s, s.readers[r]);
  }

  lemma FailExplained(s: State, r: nat)
    requires Inv(s) && Enabled(s, ReadFails(r)) && MissesExplained(s, s.readers[r])
    ensures ChunkGone(s, s.readers[r].file.uid, s.readers[r].next)
  {
    assert ReaderOk(s.uploads, s.readers[r]);
  }

  lemma StaysExplained(s: State, step: Step, r: nat)
    requires Inv(s) && Enabled(s, step) && r < |s.readers| && r < |Apply(s, step).readers|
    requires MissesExplained(s, s.readers[r]) && AllAlive(s, s.readers[r].file.meta.chunks)
    ensures MissesExplained(Apply(s, step), Apply(s, step).readers[r])
  {
    var rd := s.readers[r];
    StepReaders(s, step, r);
    if step == ReadMiss(r) {
      MissExplained(s, r);
      FirstGoneStays(s, step, rd.file.uid, rd.next, rd.progress.attempt + 1);
    } else if step == ReadFails(r) {
      FailExplained(s, r);
      GoneChunkStays(s, step, rd.file.uid, rd.next);
    } else if rd.progress.Broken? {
      GoneChunkStays(s, step, rd.file.uid, rd.next);
    } else if rd.progress.Reading? && step != ReadHit(r) {
      FirstGoneStays(s, step, rd.file.uid, rd.next, rd.progress.attempt);
    }
  }

  /** Download `r` reads `f`, and only missing copies have made it miss. */
  ghost predicate ReadsExplained(s: State, r: nat, f: File) {
    r < |s.readers| && s.readers[r].file == f && MissesExplained(s, s.readers[r])
  }

  lemma LookupExplained(s: State, name: Name)
    requires Enabled(s, Lookup(name))
    ensures ReadsExplained(Apply(s, Lookup(name)), |s.readers|, s.entries[name])
  {
  }

  lemma StepExplained(s: State, step: Step, r: nat, f: File)
    requires Inv(s) && Enabled(s, step) && ReadsExplained(s, r, f) && AllAlive(s, f.meta.chunks)
    ensures ReadsExplained(Apply(s, step), r, f)
  {
    OneNewReader(s, step);
    ReaderStep(s, step, r);
    StaysExplained(s, step, r);
  }

  lemma {:induction false} AlwaysExplained(states: seq<State>, steps: seq<Step>, i: nat, j: nat, name: Name)
    requires Run(states, steps) && i < j < |states| && steps[i] == Lookup(name) && name in states[i].entries
    requires AllStayAlive(states, i, j, states[i].entries[name].meta.chunks)
    ensures ReadsExplained(states[j], |states[i].readers|, states[i].entries[name])
  {
    if j == i + 1 {
      LookupExplained(states[i], name);
    } else {
      AlwaysExplained(states, steps, i, j - 1, name);
      RunKeepsInv(states, steps, j - 1);
      StepExplained(states[j - 1], steps[j - 1], |states[i].readers|, states[i].entries[name]);
    }
  }

  /**
   Exactly when a download breaks whose nodes all stay registered and up: one that has ended is broken
   if and only if, at some time since its lookup, all copies of a chunk were gone that it had not got
   past.
   */
  lemma BreaksExactly(states: seq<State>, steps: seq<Step>, i: nat, j: nat, r: nat, name: Name)
    requires Run(states, steps) && i < j < |states|
    requires steps[i] == Lookup(name) && |states[i].readers| == r && name in states[i].entries
    requires AllStayAlive(states, i, j, states[i].entries[name].meta.chunks)
    ensures r < |states[j].readers|
    ensures !states[j].readers[r].progress.Reading? ==>
              (states[j].readers[r].progress.Broken? <==>
               exists m: nat, c: nat :: i < m <= j && GoneAhead(states[m], states[i].entries[name].uid, c, r))
  {
    var u := states[i].entries[name].uid;
    AlwaysExplained(states, steps, i, j, name);
    if states[j].readers[r].progress.Broken? {
      assert GoneAhead(states[j], u, states[j].readers[r].next, r);
    }
    forall m: nat, c: nat | i < m <= j && GoneAhead(states[m], u, c, r)
      ensures !states[j].readers[r].progress.Done?
    {
      NeverEndsWell(states, steps, m, j, r, u, c);
    }
  }

  /** Download `r` has not got past chunk `c` of upload `u`, all of whose copies are gone. */
  ghost predicate GoneAhead(s: State, u: nat, c: nat, r: nat) {
    r < |s.readers| && ChunkGone(s, u, c) && NotPast(s.readers[r], u, c)
  }
}
