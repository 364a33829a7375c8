/**
 What happens around the coordinator: nodes go down and come back, register and leave, bytes of failed
 calls arrive late. Nothing in the system holds these up, and over runs they have exactly the effects
 that they should have.
 */
module Outages {
  import opened Types
  import opened Chunking
  import opened NodeIds
  import opened ReplicaWrites
  import opened Protocol
  import opened Invariant
  import opened Safety
  import Cluster

  // ---------------------------------------------------------------- outages

  predicate Switches(step: Step, addr: Addr) {
    step == NodeDown(addr) || step == NodeUp(addr)
  }

  lemma UploadsLeaveDown(s: State, step: Step)
    requires Enabled(s, step) && Uploads(step)
    ensures Apply(s, step).down == s.down
  {
  }

  lemma StepDown(s: State, step: Step, addr: Addr)
    requires Enabled(s, step)
    ensures addr in Apply(s, step).down <==> if Switches(step, addr) then step.NodeDown? else addr in s.down
  {
    if Uploads(step) {
      UploadsLeaveDown(s, step);
    }
  }

  /** Step `m` took the node down or up, and no step did so again before state `j`. */
  ghost predicate LastSwitch(steps: seq<Step>, m: nat, j: nat, addr: Addr) {
    m < j <= |steps| && Switches(steps[m], addr) && forall x :: m < x < j ==> !Switches(steps[x], addr)
  }

  /** A node is down exactly if the last step about it took it down, or it was down at first and no step was about it. */
  lemma {:induction false} DownExactly(states: seq<State>, steps: seq<Step>, j: nat, addr: Addr)
    requires Run(states, steps) && j < |states|
    ensures addr in states[j].down <==>
            || (exists m: nat :: LastSwitch(steps, m, j, addr) && steps[m] == NodeDown(addr))
            || (addr in states[0].down && forall x :: 0 <= x < j ==> !Switches(steps[x], addr))
  {
    if j > 0 {
      DownExactly(states, steps, j - 1, addr);
      StepDown(states[j - 1], steps[j - 1], addr);
      LastSwitchNext(steps, j - 1, j, addr);
    }
  }

  lemma LastSwitchNext(steps: seq<Step>, i: nat, j: nat, addr: Addr)
    requires j == i + 1 && j <= |steps|
    ensures (exists m: nat :: LastSwitch(steps, m, j, addr) && steps[m] == NodeDown(addr)) <==>
            if Switches(steps[i], addr) then steps[i].NodeDown?
            else exists m: nat :: LastSwitch(steps, m, i, addr) && steps[m] == NodeDown(addr)
  {
    if m: nat :| LastSwitch(steps, m, j, addr) && steps[m] == NodeDown(addr) {
      assert m < i ==> !Switches(steps[i], addr) && LastSwitch(steps, m, i, addr);
    }
    if Switches(steps[i], addr) {
      assert LastSwitch(steps, i, j, addr);
    } else if m: nat :| LastSwitch(steps, m, i, addr) && steps[m] == NodeDown(addr) {
      assert LastSwitch(steps, m, j, addr);
    }
  }

  /** The next attempt of download `r` goes to the node that listens at `addr`. */
  predicate AttemptsAt(s: State, r: nat, addr: Addr) {
    && InRead(s, r) && s.readers[r].progress.attempt < |ReaderChunk(s.readers[r]).nodeIds|
    && var id := ReaderChunk(s.readers[r]).nodeIds[s.readers[r].progress.attempt];
       id in s.registry && s.registry[id] == addr
  }

  /** Writer `w` of upload `u` is to write to the node that listens at `addr`, and has not begun. */
  predicate WaitsFor(s: State, u: nat, w: nat, addr: Addr) {
    && InJob(s, u, w) && s.uploads[u].phase.writers[w].Waiting?
    && var id := LastInfo(s.uploads[u]).nodeIds[w];
       id in s.registry && s.registry[id] == addr
  }

  /** A node that is out hands out nothing, takes nothing and deletes nothing; a download goes on to the next one. */
  ghost predicate IsOut(s: State, addr: Addr) {
    && (forall r: nat :: AttemptsAt(s, r, addr) ==> !Enabled(s, ReadHit(r)) && Enabled(s, ReadMiss(r)))
    && (forall u: nat, w: nat :: WaitsFor(s, u, w, addr) ==> !Enabled(s, WriterOpens(u, w)))
    && (Enabled(s, CleanupDeletes) ==>
          forall loc: Loc :: loc.addr == addr ==> SameAt(s.disk, Apply(s, CleanupDeletes).disk, loc))
  }

  predicate SameAt(disk: Cluster.Disk, disk': Cluster.Disk, loc: Loc) {
    (loc in disk <==> loc in disk') && (loc in disk ==> disk[loc] == disk'[loc])
  }

  lemma DownIsOut(s: State, addr: Addr)
    requires addr in s.down
    ensures IsOut(s, addr)
  {
    forall r: nat | AttemptsAt(s, r, addr)
      ensures !Enabled(s, ReadHit(r)) && Enabled(s, ReadMiss(r))
    {
      assert !AttemptHits(s, s.readers[r]);
    }
  }

  /** From the step that takes a node down until one brings it up, the node is out. */
  lemma OutageLasts(states: seq<State>, steps: seq<Step>, m: nat, j: nat, addr: Addr)
    requires Run(states, steps) && m < j < |states| && steps[m] == NodeDown(addr)
    requires forall x :: m < x < j ==> steps[x] != NodeUp(addr)
    ensures addr in states[j].down && IsOut(states[j], addr)
  {
    StaysDown(states, steps, m, j, addr);
    DownIsOut(states[j], addr);
  }

  lemma {:induction false} LastSwitchExists(steps: seq<Step>, m: nat, j: nat, addr: Addr) returns (last: nat)
    requires m < j <= |steps| && Switches(steps[m], addr)
    ensures m <= last && LastSwitch(steps, last, j, addr)
  {
    if j == m + 1 || Switches(steps[j - 1], addr) {
      last := j - 1;
    } else {
      last := LastSwitchExists(steps, m, j - 1, addr);
    }
  }

  lemma StaysDown(states: seq<State>, steps: seq<Step>, m: nat, j: nat, addr: Addr)
    requires Run(states, steps) && m < j < |states| && steps[m] == NodeDown(addr)
    requires forall x :: m < x < j ==> steps[x] != NodeUp(addr)
    ensures addr in states[j].down
  {
    var last := LastSwitchExists(steps, m, j, addr);
    DownExactly(states, steps, j, addr);
  }

  lemma StaysUp(states: seq<State>, steps: seq<Step>, m: nat, j: nat, addr: Addr)
    requires Run(states, steps) && m < j < |states| && steps[m] == NodeUp(addr)
    requires forall x :: m < x < j ==> steps[x] != NodeDown(addr)
    ensures addr !in states[j].down
  {
    var last := LastSwitchExists(steps, m, j, addr);
    DownExactly(states, steps, j, addr);
    if m': nat :| LastSwitch(steps, m', j, addr) && steps[m'] == NodeDown(addr) {
      OneLastSwitch(steps, last, m', j, addr);
    }
  }

  lemma OneLastSwitch(steps: seq<Step>, m: nat, m': nat, j: nat, addr: Addr)
    requires LastSwitch(steps, m, j, addr) && LastSwitch(steps, m', j, addr)
    ensures m == m'
  {
  }

  /** From the step that brings a node up until one takes it down, it serves what it holds and takes what comes. */
  lemma ComebackLasts(states: seq<State>, steps: seq<Step>, m: nat, j: nat, addr: Addr)
    requires Run(states, steps) && m < j < |states| && steps[m] == NodeUp(addr)
    requires forall x :: m < x < j ==> steps[x] != NodeDown(addr)
    ensures addr !in states[j].down
    ensures forall r: nat :: AttemptsAt(states[j], r, addr) ==>
                          var chunk := ReaderChunk(states[j].readers[r]).chunkId;
                          (Enabled(states[j], ReadHit(r)) <==> Loc(addr, chunk) in states[j].disk && chunk < 0x8000_0000)
    ensures forall u: nat, w: nat :: WaitsFor(states[j], u, w, addr) ==>
                             (Enabled(states[j], WriterOpens(u, w)) <==> LastInfo(states[j].uploads[u]).chunkId < 0x8000_0000)
  {
    StaysUp(states, steps, m, j, addr);
    UpServes(states[j], addr);
  }

  lemma UpServes(s: State, addr: Addr)
    requires addr !in s.down
    ensures forall r: nat :: AttemptsAt(s, r, addr) ==>
                          var chunk := ReaderChunk(s.readers[r]).chunkId;
                          (Enabled(s, ReadHit(r)) <==> Loc(addr, chunk) in s.disk && chunk < 0x8000_0000)
    ensures forall u: nat, w: nat :: WaitsFor(s, u, w, addr) ==> (Enabled(s, WriterOpens(u, w)) <==> LastInfo(s.uploads[u]).chunkId < 0x8000_0000)
  {
  }

  // ---------------------------------------------------------------- the surroundings are free

  /** Whatever the state, any node can go down or come back, time can pass, and any call under way can fail. */
  lemma OutagesAnytime(s: State, addr: Addr, now: nat, u: nat, w: nat)
    ensures Enabled(s, NodeDown(addr)) <==> addr !in s.down
    ensures Enabled(s, NodeUp(addr)) <==> addr in s.down
    ensures Enabled(s, Tick(now)) <==> s.clock <= now
    ensures InJob(s, u, w) ==>
              (Enabled(s, WriterFails(u, w)) <==> s.uploads[u].phase.writers[w].Waiting? || s.uploads[u].phase.writers[w].Writing?)
  {
  }

  /**
   Bytes of a chunk of an upload that has failed can arrive at any node and at any time, and be
   anything; and so can those of its last chunk as soon as one of its calls has failed.
   */
  lemma LateBytesAnytime(s: State, u: nat, loc: Loc, bytes: Bytes)
    requires UploadsOk(s) && u < |s.uploads| && HasChunk(s.uploads[u].infos, loc.chunk)
    requires s.uploads[u].phase.Aborted?
             || (s.uploads[u].phase.Storing? && Failed in s.uploads[u].phase.writers && loc.chunk == LastInfo(s.uploads[u]).chunkId)
    ensures Enabled(s, StrayWrite(loc, bytes))
    ensures loc in Apply(s, StrayWrite(loc, bytes)).disk && Apply(s, StrayWrite(loc, bytes)).disk[loc] == bytes
  {
    assert UploadOk(s.owner, s.bound, u, s.uploads[u]);
    var infos := s.uploads[u].infos;
    if s.uploads[u].phase.Storing? {
      assert InfoOk(s.owner, s.bound, u, |infos| - 1, infos[|infos| - 1], s.uploads[u].seen[|infos| - 1]);
    } else {
      var i :| 0 <= i < |infos| && infos[i].chunkId == loc.chunk;
      assert InfoOk(s.owner, s.bound, u, i, infos[i], s.uploads[u].seen[i]);
    }
  }

  // ---------------------------------------------------------------- registrations

  /** The step is about node id `id`: it gives the id to a node, or takes the id out of the registry. */
  predicate AboutId(s: State, step: Step, id: NodeId) {
    (step.Register? && IdOf(|s.bound|) == id) || step == Unregister(id)
  }

  lemma StepRegistered(s: State, step: Step, id: NodeId)
    requires Enabled(s, step)
    ensures id in Apply(s, step).registry <==> if AboutId(s, step, id) then step.Register? else id in s.registry
    ensures id in Apply(s, step).registry ==>
              Apply(s, step).registry[id] == if AboutId(s, step, id) then step.addr else s.registry[id]
  {
    if !step.Register? && !step.Unregister? {
      StepLeavesRegistry(s, step);
    }
  }

  /** Step `k` gave `id` to a node, and until state `j` no step has been about the id. */
  ghost predicate LastGiven(states: seq<State>, steps: seq<Step>, k: nat, j: nat, id: NodeId) {
    && k < j <= |steps| && j <= |states|
    && steps[k].Register? && IdOf(|states[k].bound|) == id
    && forall x :: k < x < j ==> !AboutId(states[x], steps[x], id)
  }

  /** Step `x` leaves node id `id` as it is. */
  ghost predicate LeavesId(states: seq<State>, x: nat, id: NodeId)
    requires x + 1 < |states|
  {
    && (id in states[x + 1].registry <==> id in states[x].registry)
    && (id in states[x].registry ==> states[x + 1].registry[id] == states[x].registry[id])
  }

  lemma {:induction false} IdLeft(states: seq<State>, i: nat, j: nat, id: NodeId)
    requires i <= j < |states| && forall x :: i <= x < j ==> LeavesId(states, x, id)
    ensures id in states[j].registry <==> id in states[i].registry
    ensures id in states[i].registry ==> states[j].registry[id] == states[i].registry[id]
  {
    if i < j {
      IdLeft(states, i, j - 1, id);
      assert LeavesId(states, j - 1, id);
    }
  }

  lemma StepLeavesId(states: seq<State>, steps: seq<Step>, x: nat, id: NodeId)
    requires Run(states, steps) && x < |steps| && !AboutId(states[x], steps[x], id)
    ensures LeavesId(states, x, id)
  {
    StepRegistered(states[x], steps[x], id);
  }

  lemma StepGives(states: seq<State>, steps: seq<Step>, k: nat, id: NodeId)
    requires Run(states, steps) && k < |steps| && steps[k].Register? && IdOf(|states[k].bound|) == id
    ensures id in states[k + 1].registry && states[k + 1].registry[id] == steps[k].addr
  {
    StepRegistered(states[k], steps[k], id);
  }

  lemma GivenStays(states: seq<State>, steps: seq<Step>, k: nat, j: nat, id: NodeId)
    requires Run(states, steps) && j < |states| && LastGiven(states, steps, k, j, id)
    ensures id in states[j].registry && states[j].registry[id] == steps[k].addr
  {
    StepGives(states, steps, k, id);
    forall x | k + 1 <= x < j
      ensures LeavesId(states, x, id)
    {
      StepLeavesId(states, steps, x, id);
    }
    IdLeft(states, k + 1, j, id);
  }

  lemma {:induction false} RegisteredWasGiven(states: seq<State>, steps: seq<Step>, j: nat, id: NodeId) returns (k: nat)
    requires Run(states, steps) && j < |states| && id in states[j].registry
    ensures LastGiven(states, steps, k, j, id)
  {
    StepRegistered(states[j - 1], steps[j - 1], id);
    if AboutId(states[j - 1], steps[j - 1], id) {
      k := j - 1;
    } else {
      k := RegisteredWasGiven(states, steps, j - 1, id);
    }
  }

  /** A node id is registered exactly if some step gave it to a node and none has taken it out since; it has that node's address. */
  lemma RegisteredExactly(states: seq<State>, steps: seq<Step>, j: nat, id: NodeId)
    requires Run(states, steps) && j < |states|
    ensures id in states[j].registry <==> exists k: nat :: LastGiven(states, steps, k, j, id)
    ensures forall k: nat :: LastGiven(states, steps, k, j, id) ==> id in states[j].registry && states[j].registry[id] == steps[k].addr
  {
    if id in states[j].registry {
      var k := RegisteredWasGiven(states, steps, j, id);
    }
    forall k: nat | LastGiven(states, steps, k, j, id)
      ensures id in states[j].registry && states[j].registry[id] == steps[k].addr
    {
      GivenStays(states, steps, k, j, id);
    }
  }

  // ---------------------------------------------------------------- the disks

  function Content(disk: Cluster.Disk, loc: Loc): Option<Bytes> {
    if loc in disk then Some(disk[loc]) else None
  }

  /** The step opens, writes or removes the file at `loc`. */
  predicate Touches(s: State, step: Step, loc: Loc) {
    match step
    case WriterOpens(u, w) =>
      && InJob(s, u, w) && LastInfo(s.uploads[u]).nodeIds[w] in s.registry
      && loc == Loc(s.registry[LastInfo(s.uploads[u]).nodeIds[w]], LastInfo(s.uploads[u]).chunkId)
    case WriterWrites(u, w, _) =>
      && InJob(s, u, w) && s.uploads[u].phase.writers[w].Writing?
      && loc == Loc(s.uploads[u].phase.writers[w].addr, LastInfo(s.uploads[u]).chunkId)
    case StrayWrite(at, _) => loc == at
    case CleanupDeletes =>
      && InCleanup(s) && s.cleaner.i < |s.tombs[s.cleaner.pos].meta.meta.chunks| && s.cleaner.j < |CleanupChunk(s).nodeIds|
      && var id, chunk := CleanupChunk(s).nodeIds[s.cleaner.j], CleanupChunk(s).chunkId;
         id in s.registry && s.registry[id] !in s.down && chunk < 0x8000_0000 && loc == Loc(s.registry[id], chunk)
    case _ => false
  }

  /** What a step that touches a file makes of it: empty, written at the writer's offset, anything, or gone. */
  function Touched(s: State, step: Step, before: Option<Bytes>): Option<Bytes> {
    match step
    case WriterOpens(_, _) => Some([])
    case WriterWrites(u, w, n) =>
      if InJob(s, u, w) && s.uploads[u].phase.writers[w].Writing? && before.Some?
         && s.uploads[u].phase.writers[w].off + n <= |LastSlice(s.uploads[u])| then
        var off := s.uploads[u].phase.writers[w].off;
        Some(WriteAt(before.value, off, LastSlice(s.uploads[u])[off..off + n]))
      else before
    case StrayWrite(_, bytes) => Some(bytes)
    case _ => None
  }

  predicate TouchesFiles(step: Step) {
    step.WriterOpens? || step.WriterWrites? || step.StrayWrite? || step.CleanupDeletes?
  }

  lemma StepContent(s: State, step: Step, loc: Loc)
    requires Enabled(s, step)
    ensures Content(Apply(s, step).disk, loc) ==
            if Touches(s, step, loc) then Touched(s, step, Content(s.disk, loc)) else Content(s.disk, loc)
  {
    if !TouchesFiles(step) {
      OthersLeaveFiles(s, step);
    }
  }

  lemma OthersLeaveFiles(s: State, step: Step)
    requires Enabled(s, step) && !TouchesFiles(step)
    ensures Apply(s, step).disk == s.disk
  {
    if Uploads(step) {
      UploadsLeaveFiles(s, step);
    }
  }

  lemma UploadsLeaveFiles(s: State, step: Step)
    requires Enabled(s, step) && Uploads(step) && !TouchesFiles(step)
    ensures Apply(s, step).disk == s.disk
  {
  }

  /** Step `x` leaves the file at `loc` as it is. */
  ghost predicate LeavesFile(states: seq<State>, x: nat, loc: Loc)
    requires x + 1 < |states|
  {
    Content(states[x + 1].disk, loc) == Content(states[x].disk, loc)
  }

  lemma {:induction false} FileLeft(states: seq<State>, i: nat, j: nat, loc: Loc)
    requires i <= j < |states| && forall x :: i <= x < j ==> LeavesFile(states, x, loc)
    ensures Content(states[j].disk, loc) == Content(states[i].disk, loc)
  {
    if i < j {
      FileLeft(states, i, j - 1, loc);
      assert LeavesFile(states, j - 1, loc);
    }
  }

  lemma StepLeavesFile(states: seq<State>, steps: seq<Step>, x: nat, loc: Loc)
    requires Run(states, steps) && x < |steps| && !Touches(states[x], steps[x], loc)
    ensures LeavesFile(states, x, loc)
  {
    StepContent(states[x], steps[x], loc);
  }

  lemma StepTouchesFile(states: seq<State>, steps: seq<Step>, m: nat, loc: Loc)
    requires Run(states, steps) && m < |steps| && Touches(states[m], steps[m], loc)
    ensures Content(states[m + 1].disk, loc) == Touched(states[m], steps[m], Content(states[m].disk, loc))
  {
    StepContent(states[m], steps[m], loc);
  }

  /** A file is as the last step that touched it left it, on whichever node and in whatever state this is. */
  lemma FileSince(states: seq<State>, steps: seq<Step>, m: nat, j: nat, loc: Loc)
    requires Run(states, steps) && m < j < |states|
    requires Touches(states[m], steps[m], loc) && forall x :: m < x < j ==> !Touches(states[x], steps[x], loc)
    ensures Content(states[j].disk, loc) == Touched(states[m], steps[m], Content(states[m].disk, loc))
  {
    StepTouchesFile(states, steps, m, loc);
    forall x | m + 1 <= x < j
      ensures LeavesFile(states, x, loc)
    {
      StepLeavesFile(states, steps, x, loc);
    }
    FileLeft(states, m + 1, j, loc);
  }
}
