/**
 What the cleanup worker achieves in a system that keeps moving: the copies it could reach are gone
 when it drops a tombstone, and they never come back.
 */
module Reclamation {
  import opened Types
  import opened Chunking
  import opened Tombstones
  import opened Protocol
  import opened Invariant
  import opened Preservation
  import opened DiskPreservation
  import opened Safety
  import opened Lifetimes

  /** Where copy `d` of chunk `c` of upload `u` belongs. */
  function CopyLoc(s: State, u: nat, c: nat, d: nat): Loc
    requires u < |s.uploads| && c < |s.uploads[u].infos| && d < |s.uploads[u].infos[c].nodeIds|
    requires Known(s.bound, s.uploads[u].infos[c].nodeIds[d])
  {
    Loc(BoundTo(s.bound, s.uploads[u].infos[c].nodeIds[d]), s.uploads[u].infos[c].chunkId)
  }

  /** Upload `u` is committed, and copy `d` of its chunk `c` is not on its node's disk. */
  ghost predicate Gone(s: State, u: nat, c: nat, d: nat) {
    && u < |s.uploads| && Committed(s.uploads[u].phase) && c < |s.uploads[u].infos| && d < |s.uploads[u].infos[c].nodeIds|
    && Known(s.bound, s.uploads[u].infos[c].nodeIds[d])
    && CopyLoc(s, u, c, d) !in s.disk
  }

  /** No step writes a file of a committed upload's chunk. */
  lemma GoneStays(s: State, step: Step, u: nat, c: nat, d: nat)
    requires Inv(s) && Enabled(s, step) && Gone(s, u, c, d)
    ensures Gone(Apply(s, step), u, c, d)
  {
    StaysCommitted(s, step, u);
    StepGrows(s, step);
    StepTouches(s, step);
    if WritesDisk(step) {
      NotFinalWhenTouched(s, step, u, c);
    } else if step.CleanupDeletes? {
      DeletesNothingNew(s);
    }
  }

  lemma DeletesNothingNew(s: State)
    requires Enabled(s, CleanupDeletes)
    ensures Apply(s, CleanupDeletes).disk.Keys <= s.disk.Keys
  {
  }

  /** A copy that is gone never comes back. */
  lemma {:induction false} GoneForever(states: seq<State>, steps: seq<Step>, i: nat, j: nat, u: nat, c: nat, d: nat)
    requires Run(states, steps) && i <= j < |states| && Gone(states[i], u, c, d)
    ensures Gone(states[j], u, c, d)
  {
    if i < j {
      GoneForever(states, steps, i, j - 1, u, c, d);
      RunKeepsInv(states, steps, j - 1);
      GoneStays(states[j - 1], steps[j - 1], u, c, d);
    }
  }

  // ---------------------------------------------------------------- one tombstone's turn

  /** The cleanup worker is at the tombstone of upload `u`, and has been at copy `d` of chunk `c`. */
  predicate Passed(s: State, u: nat, c: nat, d: nat) {
    BeingDeleted(s, u) && (c < s.cleaner.i || (c == s.cleaner.i && d < s.cleaner.j))
  }

  predicate HasCopy(s: State, u: nat, c: nat, d: nat) {
    u < |s.uploads| && c < |s.uploads[u].infos| && d < |s.uploads[u].infos[c].nodeIds|
  }

  /** While the worker is at a tombstone, it stays there until it drops it. */
  lemma TurnGoesOn(s: State, step: Step, u: nat)
    requires Enabled(s, step) && BeingDeleted(s, u) && !step.CleanupErases?
    ensures BeingDeleted(Apply(s, step), u)
  {
    if !MovesCleaner(step) {
      StepCleaner(s, step);
    }
  }

  /** A step brings the worker past a copy only by asking the copy's node to delete it. */
  lemma PassedBefore(s: State, step: Step, u: nat, c: nat, d: nat)
    requires Enabled(s, step) && BeingDeleted(s, u) && !step.CleanupErases?
    requires TombOk(s.uploads, s.tombs[s.cleaner.pos]) && HasCopy(s, u, c, d) && Passed(Apply(s, step), u, c, d)
    ensures Passed(s, u, c, d) || (step.CleanupDeletes? && s.cleaner.i == c && s.cleaner.j == d)
  {
    if !MovesCleaner(step) {
      StepCleaner(s, step);
    }
  }

  lemma DeletedNow(s: State, u: nat, c: nat, d: nat)
    requires Inv(s) && Enabled(s, CleanupDeletes) && BeingDeleted(s, u) && HasCopy(s, u, c, d)
    requires s.cleaner.i == c && s.cleaner.j == d && Alive(s, s.uploads[u].infos[c].nodeIds[d])
    ensures Gone(Apply(s, CleanupDeletes), u, c, d)
  {
    assert TombOk(s.uploads, s.tombs[s.cleaner.pos]);
    var up := s.uploads[u];
    NodesKnown(s, u, c);
    assert Final(up, c) && ChunkOk(s.bound, s.disk, up, c, false);
    assert CopyOk(s.bound, s.disk, up.infos[c], Slice(up.data, c), d, false);
  }

  /** Throughout states `i` to `j - 1` the node of copy `d` of chunk `c` is registered and up. */
  ghost predicate AliveBetween(states: seq<State>, i: nat, j: nat, u: nat, c: nat, d: nat) {
    j < |states| && forall m :: i <= m < j ==> HasCopy(states[m], u, c, d) && Alive(states[m], states[m].uploads[u].infos[c].nodeIds[d])
  }

  /** Step `i` took up the tombstone of upload `u`, and up to state `j` it has not been dropped. */
  ghost predicate TurnBetween(states: seq<State>, steps: seq<Step>, i: nat, j: nat, u: nat) {
    && i < j < |states| && j <= |steps|
    && steps[i].CleanupTakes? && BeingDeleted(states[i + 1], u)
    && forall m :: i < m < j ==> !steps[m].CleanupErases?
  }

  lemma PassedIsGoneAfter(s: State, step: Step, u: nat, c: nat, d: nat)
    requires Inv(s) && Enabled(s, step) && BeingDeleted(s, u) && !step.CleanupErases?
    requires HasCopy(s, u, c, d) && Alive(s, s.uploads[u].infos[c].nodeIds[d]) && (Passed(s, u, c, d) ==> Gone(s, u, c, d))
    ensures BeingDeleted(Apply(s, step), u)
    ensures Passed(Apply(s, step), u, c, d) ==> Gone(Apply(s, step), u, c, d)
  {
    assert TombOk(s.uploads, s.tombs[s.cleaner.pos]);
    TurnGoesOn(s, step, u);
    if Passed(Apply(s, step), u, c, d) {
      PassedBefore(s, step, u, c, d);
      if Passed(s, u, c, d) {
        GoneStays(s, step, u, c, d);
      } else {
        DeletedNow(s, u, c, d);
      }
    }
  }

  lemma NothingPassedAtFirst(s: State, u: nat, c: nat, d: nat)
    requires Enabled(s, CleanupTakes)
    ensures !Passed(Apply(s, CleanupTakes), u, c, d)
  {
  }

  lemma {:induction false} PassedIsGone(states: seq<State>, steps: seq<Step>, i: nat, j: nat, u: nat, c: nat, d: nat)
    requires Run(states, steps) && TurnBetween(states, steps, i, j, u) && AliveBetween(states, i, j, u, c, d)
    ensures BeingDeleted(states[j], u)
    ensures Passed(states[j], u, c, d) ==> Gone(states[j], u, c, d)
  {
    if j == i + 1 {
      NothingPassedAtFirst(states[i], u, c, d);
    } else {
      PassedIsGone(states, steps, i, j - 1, u, c, d);
      RunKeepsInv(states, steps, j - 1);
      PassedIsGoneAfter(states[j - 1], steps[j - 1], u, c, d);
    }
  }

  /**
   Garbage is collected: when a cleanup pass drops the tombstone of a file, every copy of its chunks
   whose node was registered and up during the tombstone's turn is gone, and stays gone for the rest
   of the run, whatever uploads, failures and late writes go on around it.
   */
  lemma ReclaimedCopiesGone(states: seq<State>, steps: seq<Step>, i: nat, j: nat, k: nat, u: nat, c: nat, d: nat)
    requires Run(states, steps) && TurnBetween(states, steps, i, j, u) && AliveBetween(states, i, j, u, c, d)
    requires j < k < |states| && steps[j].CleanupErases?
    ensures Gone(states[k], u, c, d) && states[k].uploads[u].phase.Reclaimed?
  {
    PassedIsGone(states, steps, i, j, u, c, d);
    GoneAfterTurn(states, steps, i, j, u, c, d);
    GoneForever(states, steps, j + 1, k, u, c, d);
    FatesAdvance(states, steps, j + 1, k, u);
  }

  lemma GoneAfterTurn(states: seq<State>, steps: seq<Step>, i: nat, j: nat, u: nat, c: nat, d: nat)
    requires Run(states, steps) && TurnBetween(states, steps, i, j, u) && AliveBetween(states, i, j, u, c, d)
    requires j < |steps| && steps[j].CleanupErases?
    ensures Gone(states[j + 1], u, c, d) && states[j + 1].uploads[u].phase.Reclaimed?
  {
    PassedIsGone(states, steps, i, j, u, c, d);
    RunKeepsInv(states, steps, j);
    CopyHere(states, steps, j, u, c, d);
    GoneWhenDropped(states[j], u, c, d);
  }

  lemma CopyHere(states: seq<State>, steps: seq<Step>, j: nat, u: nat, c: nat, d: nat)
    requires Run(states, steps) && 0 < j < |states| && HasCopy(states[j - 1], u, c, d)
    ensures HasCopy(states[j], u, c, d)
  {
    RunKeepsInv(states, steps, j - 1);
    CopyStays(states[j - 1], steps[j - 1], u, c, d);
  }

  lemma CopyStays(s: State, step: Step, u: nat, c: nat, d: nat)
    requires EntriesOk(s) && TombsOk(s) && Enabled(s, step) && HasCopy(s, u, c, d)
    ensures HasCopy(Apply(s, step), u, c, d)
  {
    StepGrows(s, step);
  }

  lemma GoneWhenDropped(s: State, u: nat, c: nat, d: nat)
    requires Inv(s) && Enabled(s, CleanupErases) && BeingDeleted(s, u) && HasCopy(s, u, c, d)
    requires Passed(s, u, c, d) ==> Gone(s, u, c, d)
    ensures Gone(Apply(s, CleanupErases), u, c, d) && Apply(s, CleanupErases).uploads[u].phase.Reclaimed?
  {
    assert TombOk(s.uploads, s.tombs[s.cleaner.pos]);
    GoneStays(s, CleanupErases, u, c, d);
  }

  // ---------------------------------------------------------------- one whole pass

  /** Step `i` began a cleanup pass, and up to state `j` it has not ended. */
  ghost predicate PassBetween(states: seq<State>, steps: seq<Step>, i: nat, j: nat) {
    && i < j < |states| && j <= |steps| && steps[i].CleanupBegins?
    && forall m :: i < m < j ==> !steps[m].CleanupEnds?
  }

  /** All these files have been reclaimed. */
  ghost predicate AllReclaimed(s: State, files: seq<File>) {
    forall k :: 0 <= k < |files| ==> files[k].uid < |s.uploads| && s.uploads[files[k].uid].phase.Reclaimed?
  }

  /** A pass that started at `now` is under way, will leave `result`, and has dealt with `done` out of `all`. */
  ghost predicate PassAt(s: State, now: nat, result: seq<Tombstone<File>>, done: seq<File>, all: seq<File>) {
    && !s.cleaner.Idle? && s.cleaner.now == now
    && Scans(s.tombs, s.cleaner.pos, now, result, done, all)
    && AllReclaimed(s, done)
  }

  lemma ReclaimedStay(s: State, step: Step, files: seq<File>)
    requires EntriesOk(s) && TombsOk(s) && Enabled(s, step) && AllReclaimed(s, files)
    ensures AllReclaimed(Apply(s, step), files)
  {
    forall k | 0 <= k < |files|
      ensures files[k].uid < |Apply(s, step).uploads| && Apply(s, step).uploads[files[k].uid].phase.Reclaimed?
    {
      FateStep(s, step, files[k].uid);
    }
  }

  lemma ErasureReclaims(s: State)
    requires Enabled(s, CleanupErases)
    ensures AllReclaimed(Apply(s, CleanupErases), [s.tombs[s.cleaner.pos].meta])
  {
  }

  lemma PassGoesOn(s: State, step: Step, now: nat, result: seq<Tombstone<File>>, done: seq<File>, all: seq<File>) returns (done': seq<File>)
    requires EntriesOk(s) && TombsOk(s) && CleanerOk(s) && Enabled(s, step) && !step.CleanupEnds? && PassAt(s, now, result, done, all)
    ensures PassAt(Apply(s, step), now, result, done', all)
  {
    done' := done;
    ReclaimedStay(s, step, done);
    if step.CleanupErases? {
      ScansOn(s.tombs, s.cleaner.pos, now, result, done, all);
      done' := done + [s.tombs[s.cleaner.pos].meta];
      ErasureReclaims(s);
    } else if step.CleanupPasses? {
      ScansOn(s.tombs, s.cleaner.pos, now, result, done, all);
    } else if !MovesCleaner(step) {
      StepCleaner(s, step);
    }
  }

  /** The pass that began in `s` has come as far as `s'`, and has dealt with `done`. */
  ghost predicate PassSince(s: State, s': State, done: seq<File>) {
    PassAt(s', s.clock, Kept(s.tombs, s.clock), done, Metas(Condemned(s.tombs, s.clock)))
  }

  lemma PassSinceNext(s: State, s': State, step: Step, done: seq<File>) returns (done': seq<File>)
    requires EntriesOk(s') && TombsOk(s') && CleanerOk(s') && Enabled(s', step) && !step.CleanupEnds? && PassSince(s, s', done)
    ensures PassSince(s, Apply(s', step), done')
  {
    done' := PassGoesOn(s', step, s.clock, Kept(s.tombs, s.clock), done, Metas(Condemned(s.tombs, s.clock)));
  }

  lemma {:induction false} PassUnderWay(states: seq<State>, steps: seq<Step>, i: nat, j: nat) returns (done: seq<File>)
    requires Run(states, steps) && PassBetween(states, steps, i, j)
    ensures PassSince(states[i], states[j], done)
  {
    if j == i + 1 {
      done := [];
      PassStarts(states[i]);
    } else {
      var before := PassUnderWay(states, steps, i, j - 1);
      RunKeepsInv(states, steps, j - 1);
      done := PassSinceNext(states[i], states[j - 1], steps[j - 1], before);
    }
  }

  lemma PassStarts(s: State)
    requires Enabled(s, CleanupBegins)
    ensures PassSince(s, Apply(s, CleanupBegins), [])
  {
    ScansStart(s.tombs, s.clock);
  }

  /**
   A whole pass, with everything else going on in between: it leaves exactly the tombstones that were
   not expired at its start, and the files of all others have been reclaimed.
   */
  lemma PassSweeps(states: seq<State>, steps: seq<Step>, i: nat, j: nat)
    requires Run(states, steps) && PassBetween(states, steps, i, j) && j < |steps| && steps[j].CleanupEnds?
    ensures states[j + 1].tombs == Kept(states[i].tombs, states[i].clock)
    ensures AllReclaimed(states[j + 1], Metas(Condemned(states[i].tombs, states[i].clock)))
  {
    var done := PassUnderWay(states, steps, i, j);
    var s := states[i];
    RunKeepsInv(states, steps, j);
    PassFinishes(states[j], s.clock, Kept(s.tombs, s.clock), done, Metas(Condemned(s.tombs, s.clock)));
  }

  lemma PassFinishes(s: State, now: nat, result: seq<Tombstone<File>>, done: seq<File>, all: seq<File>)
    requires EntriesOk(s) && TombsOk(s) && Enabled(s, CleanupEnds) && PassAt(s, now, result, done, all)
    ensures Apply(s, CleanupEnds).tombs == result && AllReclaimed(Apply(s, CleanupEnds), all)
  {
    ScansDone(s.tombs, now, result, done, all);
    ReclaimedStay(s, CleanupEnds, done);
  }

  // ---------------------------------------------------------------- forgotten files

  /** The copies of a file whose tombstone was trimmed by an overflow stay on the disks for good. */
  lemma ForgottenStayStored(states: seq<State>, steps: seq<Step>, i: nat, j: nat, u: nat)
    requires Run(states, steps) && i <= j < |states| && u < |states[i].uploads| && states[i].uploads[u].phase.Forgotten?
    ensures u < |states[j].uploads| && states[j].uploads[u].phase.Forgotten?
    ensures FullyStored(states[j], File(u, MetaOf(states[j].uploads[u])))
  {
    FatesAdvance(states, steps, i, j, u);
    RunKeepsInv(states, steps, j);
    SafeFileStored(states[j], File(u, MetaOf(states[j].uploads[u])));
  }
}
