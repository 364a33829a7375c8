/**
 How freely the steps interleave: whether a step can be taken depends on its own object alone, the
 writers of one shared file move exactly as ReplicaWrites lets them, and runs start from any disks and go
 on with any step.
 */
module Interleavings {
  import opened Types
  import opened Chunking
  import opened ReplicaWrites
  import opened Protocol
  import opened Invariant
  import opened Preservation
  import opened Safety
  import opened Refinement
  import opened Outages
  import opened Paths
  import Cluster

  // ---------------------------------------------------------------- runs

  /** A fresh coordinator can find any disks, any nodes out and any time. */
  lemma AnyStart(down: set<Addr>, disk: Cluster.Disk, clock: nat) returns (s: State)
    ensures Init(s) && s.down == down && s.disk == disk && s.clock == clock && Run([s], [])
  {
    s := State([], 0, [], map[], down, disk, clock, map[], [], [], [], Idle);
  }

  /** A run can go on with any step that can be taken. */
  lemma RunGoesOn(states: seq<State>, steps: seq<Step>, step: Step)
    requires Run(states, steps) && Enabled(states[|steps|], step)
    ensures Run(states + [Apply(states[|steps|], step)], steps + [step])
  {
    var states', steps' := states + [Apply(states[|steps|], step)], steps + [step];
    forall k | 0 <= k < |steps'|
      ensures Enabled(states'[k], steps'[k]) && states'[k + 1] == Apply(states'[k], steps'[k])
    {
      if k < |steps| {
        assert states'[k] == states[k] && states'[k + 1] == states[k + 1] && steps'[k] == steps[k];
      }
    }
  }

  // ---------------------------------------------------------------- what a step depends on

  predicate SameUpload(s: State, s': State, u: nat) {
    (u < |s.uploads| <==> u < |s'.uploads|) && (u < |s.uploads| ==> s.uploads[u] == s'.uploads[u])
  }

  predicate SameReader(s: State, s': State, r: nat) {
    (r < |s.readers| <==> r < |s'.readers|) && (r < |s.readers| ==> s.readers[r] == s'.readers[r])
  }

  predicate SameLock(s: State, s': State) {
    s.cleaner.Idle? <==> s'.cleaner.Idle?
  }

  predicate SameName(s: State, s': State, name: Name) {
    (name in s.entries <==> name in s'.entries) && (name in s.entries ==> s.entries[name] == s'.entries[name])
  }

  /** The states agree on what the step is about. */
  predicate SameFor(s: State, s': State, step: Step) {
    match step
    case PutBegins(name, _) => SameLock(s, s') && SameName(s, s', name)
    case Allocate(u, _) => SameUpload(s, s', u) && s.registry == s'.registry && |s.owner| == |s'.owner|
    case AllocateFails(u) => SameUpload(s, s', u) && s.registry == s'.registry && |s.owner| == |s'.owner|
    case WriterOpens(u, _) => SameUpload(s, s', u) && s.registry == s'.registry && s.down == s'.down
    case WriterWrites(u, _, _) => SameUpload(s, s', u) && s.disk == s'.disk
    case WriterCloses(u, _) => SameUpload(s, s', u)
    case WriterFails(u, _) => SameUpload(s, s', u)
    case StrayWrite(loc, _) => s.owner == s'.owner && (loc.chunk < |s.owner| ==> SameUpload(s, s', s.owner[loc.chunk].uid))
    case Join(u) => SameUpload(s, s', u)
    case JoinFails(u) => SameUpload(s, s', u)
    case Commit(u) => SameLock(s, s') && SameUpload(s, s', u)
    case Lookup(name) => SameLock(s, s') && SameName(s, s', name)
    case ReadHit(r) => SameReader(s, s', r) && s.registry == s'.registry && s.down == s'.down && s.disk == s'.disk
    case ReadMiss(r) => SameReader(s, s', r) && s.registry == s'.registry && s.down == s'.down && s.disk == s'.disk
    case ReadFails(r) => SameReader(s, s', r)
    case ReadEnds(r) => SameReader(s, s', r)
    case DeletePath(name, _) => SameLock(s, s') && SameName(s, s', name) && |s.uploads| == |s'.uploads| && s.clock == s'.clock
    case CleanupBegins => SameLock(s, s')
    case Register(addr) => s.registry == s'.registry && |s.bound| == |s'.bound|
    case Unregister(id) => id in s.registry <==> id in s'.registry
    case NodeDown(addr) => addr in s.down <==> addr in s'.down
    case NodeUp(addr) => addr in s.down <==> addr in s'.down
    case Tick(_) => s.clock == s'.clock
    case _ => s.cleaner == s'.cleaner && s.tombs == s'.tombs && |s.uploads| == |s'.uploads|
  }

  lemma UploadsAreIndependent(s: State, s': State, step: Step)
    requires SameFor(s, s', step) && Uploads(step)
    ensures Enabled(s, step) <==> Enabled(s', step)
  {
  }

  /**
   Nothing holds a step up but its own object: uploads do not wait for each other, nor for downloads,
   registrations or outages, and only the critical sections of the metadata store wait for its lock.
   */
  lemma StepsAreIndependent(s: State, s': State, step: Step)
    requires SameFor(s, s', step)
    ensures Enabled(s, step) <==> Enabled(s', step)
  {
    if Uploads(step) {
      UploadsAreIndependent(s, s', step);
    }
  }

  // ---------------------------------------------------------------- writers of one file

  /** All nodes of the last chunk of upload `u` are registered at `addr` and up, and its writers are there. */
  ghost predicate SharesFile(s: State, u: nat, addr: Addr) {
    && u < |s.uploads| && s.uploads[u].phase.Storing? && |s.uploads[u].infos| > 0
    && var info, writers := LastInfo(s.uploads[u]), s.uploads[u].phase.writers;
       && |writers| == |info.nodeIds| && info.chunkId < CHUNK_ID_LIMIT && addr !in s.down
       && (forall w :: 0 <= w < |info.nodeIds| ==> info.nodeIds[w] in s.registry && s.registry[info.nodeIds[w]] == addr)
       && (forall w :: 0 <= w < |writers| && (writers[w].Writing? || writers[w].Stored?) ==> writers[w].addr == addr)
  }

  function SharedLoc(s: State, u: nat, addr: Addr): Loc
    requires u < |s.uploads| && |s.uploads[u].infos| > 0
  {
    Loc(addr, LastInfo(s.uploads[u]).chunkId)
  }

  function SharedPart(s: State, u: nat, addr: Addr): Shared
    requires u < |s.uploads| && s.uploads[u].phase.Storing? && |s.uploads[u].infos| > 0
  {
    Shared(Content(s.disk, SharedLoc(s, u, addr)), s.uploads[u].phase.writers)
  }

  function StepOf(u: nat, m: Move): Step {
    match m
    case Open(v) => WriterOpens(u, v)
    case Write(v, n) => WriterWrites(u, v, n)
    case Close(v) => WriterCloses(u, v)
  }

  /** A writer can move exactly when the system can take the step, and the step does what the move does. */
  lemma MoveIsStep(s: State, u: nat, addr: Addr, m: Move)
    requires SharesFile(s, u, addr)
    ensures CanMove(SharedPart(s, u, addr), addr, LastSlice(s.uploads[u]), m) <==> Enabled(s, StepOf(u, m))
    ensures Enabled(s, StepOf(u, m)) ==>
              var s' := Apply(s, StepOf(u, m));
              && SharesFile(s', u, addr) && LastSlice(s'.uploads[u]) == LastSlice(s.uploads[u])
              && SharedPart(s', u, addr) == Moved(SharedPart(s, u, addr), addr, LastSlice(s.uploads[u]), m)
  {
  }

  /** Every interleaving of the writers of a shared file is one of the system. */
  lemma {:induction false} MovesArePath(s: State, u: nat, addr: Addr, moves: seq<Move>, end: Shared) returns (steps: seq<Step>, s': State)
    requires SharesFile(s, u, addr) && Leads(SharedPart(s, u, addr), addr, LastSlice(s.uploads[u]), moves, end)
    ensures Path(s, steps, s') && SharesFile(s', u, addr) && SharedPart(s', u, addr) == end
    decreases |moves|
  {
    if |moves| == 0 {
      steps, s' := [], s;
    } else {
      var step := StepOf(u, moves[0]);
      MoveIsStep(s, u, addr, moves[0]);
      PathOne(s, step);
      var rest;
      rest, s' := MovesArePath(Apply(s, step), u, addr, moves[1..], end);
      PathJoin(s, [step], Apply(s, step), rest, s');
      steps := [step] + rest;
    }
  }

  // ---------------------------------------------------------------- where uploads come from

  lemma StepUpload(s: State, step: Step, u: nat)
    requires EntriesOk(s) && TombsOk(s) && Enabled(s, step) && u < |Apply(s, step).uploads|
    ensures u >= |s.uploads| ==> u == |s.uploads| && step == PutBegins(Apply(s, step).uploads[u].name, Apply(s, step).uploads[u].data)
    ensures u < |s.uploads| ==> Apply(s, step).uploads[u].name == s.uploads[u].name && Apply(s, step).uploads[u].data == s.uploads[u].data
  {
    if !step.PutBegins? && !step.Allocate? {
      StepSame(s, step);
    }
  }

  /** An upload has the name and the bytes that it began with. */
  lemma {:induction false} UploadsAreBegun(states: seq<State>, steps: seq<Step>, j: nat, u: nat)
    requires Run(states, steps) && j < |states| && u < |states[j].uploads|
    ensures exists i: nat :: BeganAs(states, steps, i, j, u, states[j].uploads[u].name, states[j].uploads[u].data)
  {
    if j > 0 {
      var s, step := states[j - 1], steps[j - 1];
      RunKeepsInv(states, steps, j - 1);
      StepUpload(s, step, u);
      if u < |s.uploads| {
        UploadsAreBegun(states, steps, j - 1, u);
        var i: nat :| BeganAs(states, steps, i, j - 1, u, s.uploads[u].name, s.uploads[u].data);
        assert BeganAs(states, steps, i, j, u, s.uploads[u].name, s.uploads[u].data);
      } else {
        assert BeganAs(states, steps, j - 1, j, u, states[j].uploads[u].name, states[j].uploads[u].data);
      }
    }
  }

  ghost predicate BeganAs(states: seq<State>, steps: seq<Step>, i: nat, j: nat, u: nat, name: Name, data: Bytes) {
    i < j <= |steps| && j <= |states| && steps[i] == PutBegins(name, data) && |states[i].uploads| == u
  }

  /** What a download sends was given to the system under this very name, by one put. */
  lemma DownloadedDataWasPut(states: seq<State>, steps: seq<Step>, j: nat, r: nat)
    requires Run(states, steps) && j < |states| && r < |states[j].readers|
    ensures exists k: nat, data: Bytes ::
              && k < j && k < |steps| && steps[k] == PutBegins(states[j].readers[r].name, data)
              && states[j].readers[r].out == Prefix(data, states[j].readers[r].next)
              && (states[j].readers[r].progress.Done? ==> states[j].readers[r].out == data)
  {
    var rd := states[j].readers[r];
    RunKeepsInv(states, steps, j);
    assert ReaderOk(states[j].uploads, rd);
    var data := states[j].uploads[rd.file.uid].data;
    SentIsPrefix(states[j], rd, data);
    UploadsAreBegun(states, steps, j, rd.file.uid);
    var k: nat :| BeganAs(states, steps, k, j, rd.file.uid, rd.name, data);
  }
}
