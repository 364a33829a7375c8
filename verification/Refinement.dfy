/**
 The system refines a map from names to bytes: a commit stores a whole upload under its name, a
 deletion removes a name, and every other step leaves the map alone. Downloads read that map.
 */
module Refinement {
  import opened Types
  import opened Chunking
  import opened Protocol
  import opened Invariant
  import opened Preservation
  import opened Safety

  type Files = map<Name, Bytes>

  datatype Event = Stores(name: Name, data: Bytes) | Removes(name: Name) | Silent

  /** The abstract file system. */
  function Applied(files: Files, e: Event): Files {
    match e
    case Stores(name, data) => files[name := data]
    case Removes(name) => files - {name}
    case Silent => files
  }

  function AllApplied(events: seq<Event>): Files {
    if |events| == 0 then map[] else Applied(AllApplied(events[..|events| - 1]), events[|events| - 1])
  }

  /** What a step is for the abstract file system. */
  function EventOf(s: State, step: Step): Event {
    match step
    case Commit(u) => if u < |s.uploads| then Stores(s.uploads[u].name, s.uploads[u].data) else Silent
    case DeletePath(name, _) => Removes(name)
    case _ => Silent
  }

  /** The files a state stands for: under each active name, the data of the upload behind it. */
  function Abstract(s: State): Files {
    map name | name in s.entries && s.entries[name].uid < |s.uploads| :: s.uploads[s.entries[name].uid].data
  }

  lemma CommitRefines(s: State, u: nat, s': State)
    requires EntriesOk(s) && CommitsTo(s, u, s')
    ensures Abstract(s') == Abstract(s)[s.uploads[u].name := s.uploads[u].data]
  {
  }

  lemma DeleteRefines(s: State, name: Name, trimTime: nat, s': State)
    requires EntriesOk(s) && DeletesTo(s, name, trimTime, s')
    ensures Abstract(s') == Abstract(s) - {name}
  {
  }

  lemma CommitsRefine(s: State, u: nat)
    requires EntriesOk(s) && Enabled(s, Commit(u))
    ensures Abstract(Commits(s, u)) == Abstract(s)[s.uploads[u].name := s.uploads[u].data]
  {
    CommitMoves(s, u);
    CommitRefines(s, u, Commits(s, u));
  }

  lemma DeletesRefine(s: State, name: Name, trimTime: nat)
    requires EntriesOk(s) && Enabled(s, DeletePath(name, trimTime))
    ensures Abstract(Deletes(s, name, trimTime)) == Abstract(s) - {name}
  {
    DeleteMoves(s, name, trimTime);
    DeleteRefines(s, name, trimTime, Deletes(s, name, trimTime));
  }

  lemma OtherRefines(s: State, s': State)
    requires EntriesOk(s) && s'.entries == s.entries && Grown(s, s')
    ensures Abstract(s') == Abstract(s)
  {
    forall name | name in s.entries
      ensures s.entries[name].uid < |s.uploads|
    {
      assert FileOk(s.uploads, s.entries[name]);
    }
  }

  /** Each step is one event of the abstract file system. */
  lemma StepRefines(s: State, step: Step)
    requires EntriesOk(s) && TombsOk(s) && Enabled(s, step)
    ensures Abstract(Apply(s, step)) == Applied(Abstract(s), EventOf(s, step))
  {
    if step.Commit? {
      CommitsRefine(s, step.u);
    } else if step.DeletePath? {
      DeletesRefine(s, step.name, step.trimTime);
    } else {
      StepEntries(s, step);
      StepGrows(s, step);
      OtherRefines(s, Apply(s, step));
    }
  }

  function Events(states: seq<State>, steps: seq<Step>, k: nat): seq<Event>
    requires k <= |states| && k <= |steps|
  {
    seq(k, i requires 0 <= i < k => EventOf(states[i], steps[i]))
  }

  lemma EventsStep(states: seq<State>, steps: seq<Step>, k: nat)
    requires k < |states| && k < |steps|
    ensures AllApplied(Events(states, steps, k + 1)) == Applied(AllApplied(Events(states, steps, k)), EventOf(states[k], steps[k]))
  {
    assert Events(states, steps, k + 1)[..k] == Events(states, steps, k);
  }

  /** Refinement over runs: every state stands for what the events before it made of no files. */
  lemma {:induction false} RunRefines(states: seq<State>, steps: seq<Step>, k: nat)
    requires Run(states, steps) && k < |states|
    ensures Abstract(states[k]) == AllApplied(Events(states, steps, k))
  {
    if k == 0 {
    } else {
      RunRefines(states, steps, k - 1);
      RunKeepsInv(states, steps, k - 1);
      StepRefines(states[k - 1], steps[k - 1]);
      EventsStep(states, steps, k - 1);
    }
  }

  // ---------------------------------------------------------------- where a download's bytes come from

  predicate Rewrites(s: State, step: Step, name: Name) {
    EventOf(s, step) != Silent && EventOf(s, step).name == name
  }

  /** Step `m` committed upload `v` under `name`, and until state `k` nothing replaced or removed it. */
  ghost predicate MadeBy(states: seq<State>, steps: seq<Step>, m: nat, k: nat, name: Name, v: nat) {
    && m < k <= |steps| && k <= |states|
    && steps[m] == Commit(v) && Rewrites(states[m], steps[m], name)
    && forall x :: m < x < k ==> !Rewrites(states[x], steps[x], name)
  }

  ghost predicate Holds(s: State, name: Name, v: nat) {
    name in s.entries && s.entries[name].uid == v
  }

  lemma CommitHolds(s: State, u: nat, s': State, name: Name, v: nat)
    requires CommitsTo(s, u, s')
    ensures Holds(s', name, v) <==> if s.uploads[u].name == name then u == v else Holds(s, name, v)
  {
  }

  lemma DeleteHolds(s: State, gone: Name, trimTime: nat, s': State, name: Name, v: nat)
    requires DeletesTo(s, gone, trimTime, s')
    ensures Holds(s', name, v) <==> gone != name && Holds(s, name, v)
  {
  }

  lemma CommitsHold(s: State, u: nat, name: Name, v: nat)
    requires EntriesOk(s) && Enabled(s, Commit(u))
    ensures Holds(Commits(s, u), name, v) <==> if s.uploads[u].name == name then u == v else Holds(s, name, v)
  {
    CommitMoves(s, u);
    CommitHolds(s, u, Commits(s, u), name, v);
  }

  lemma DeletesHold(s: State, gone: Name, trimTime: nat, name: Name, v: nat)
    requires Enabled(s, DeletePath(gone, trimTime))
    ensures Holds(Deletes(s, gone, trimTime), name, v) <==> gone != name && Holds(s, name, v)
  {
    DeleteMoves(s, gone, trimTime);
    DeleteHolds(s, gone, trimTime, Deletes(s, gone, trimTime), name, v);
  }

  /** A step that commits or deletes the name decides its entry, and no other step touches it. */
  lemma StepHolds(s: State, step: Step, name: Name, v: nat)
    requires EntriesOk(s) && Enabled(s, step)
    ensures Holds(Apply(s, step), name, v) <==> if Rewrites(s, step, name) then step == Commit(v) else Holds(s, name, v)
  {
    if step.Commit? {
      CommitsHold(s, step.u, name, v);
    } else if step.DeletePath? {
      DeletesHold(s, step.name, step.trimTime, name, v);
    } else {
      StepEntries(s, step);
    }
  }

  /** A name stands for upload `v` exactly when `v`'s commit is the last that touched the name. */
  lemma {:induction false} HoldsExactly(states: seq<State>, steps: seq<Step>, k: nat, name: Name, v: nat)
    requires Run(states, steps) && k < |states|
    ensures Holds(states[k], name, v) <==> exists m: nat :: MadeBy(states, steps, m, k, name, v)
  {
    if k > 0 {
      var s, step := states[k - 1], steps[k - 1];
      HoldsExactly(states, steps, k - 1, name, v);
      RunKeepsInv(states, steps, k - 1);
      StepHolds(s, step, name, v);
      LastMade(states, steps, k - 1, k, name, v);
    }
  }

  lemma LastMade(states: seq<State>, steps: seq<Step>, j: nat, k: nat, name: Name, v: nat)
    requires k == j + 1 && k < |states| && k <= |steps|
    ensures (exists m: nat :: MadeBy(states, steps, m, k, name, v)) <==>
            if Rewrites(states[j], steps[j], name) then steps[j] == Commit(v)
            else exists m: nat :: MadeBy(states, steps, m, j, name, v)
  {
    if m: nat :| MadeBy(states, steps, m, k, name, v) {
      assert m < j ==> !Rewrites(states[j], steps[j], name) && MadeBy(states, steps, m, j, name, v);
    }
    if Rewrites(states[j], steps[j], name) {
      assert steps[j] == Commit(v) ==> MadeBy(states, steps, j, k, name, v);
    } else if m: nat :| MadeBy(states, steps, m, j, name, v) {
      assert MadeBy(states, steps, m, k, name, v);
    }
  }

  /** Step `k` committed one upload of `data` under `name`, and until state `i` nothing replaced or removed it. */
  ghost predicate CommittedUnder(states: seq<State>, steps: seq<Step>, k: nat, i: nat, name: Name, data: Bytes) {
    && k < |steps| && k < |states| && steps[k].Commit?
    && EventOf(states[k], steps[k]) == Stores(name, data)
    && MadeBy(states, steps, k, i, name, steps[k].u)
  }

  lemma EntryOrigin(states: seq<State>, steps: seq<Step>, i: nat, name: Name)
    requires Run(states, steps) && i < |states| && name in AllApplied(Events(states, steps, i))
    ensures exists k: nat :: CommittedUnder(states, steps, k, i, name, AllApplied(Events(states, steps, i))[name])
  {
    RunRefines(states, steps, i);
    var v := states[i].entries[name].uid;
    HoldsExactly(states, steps, i, name, v);
    assert Holds(states[i], name, v);
    var k: nat :| MadeBy(states, steps, k, i, name, v);
    UploadsPersist(states, steps, k, i, v);
    assert CommittedUnder(states, steps, k, i, name, Abstract(states[i])[name]);
  }

  /** Step `i` was the lookup that started download `r`, and found the metadata it holds. */
  ghost predicate LookedUp(states: seq<State>, steps: seq<Step>, i: nat, r: nat, rd: Reader) {
    && i < |steps| && i < |states|
    && steps[i] == Lookup(rd.name) && |states[i].readers| == r
    && rd.name in states[i].entries && states[i].entries[rd.name] == rd.file
  }

  lemma LookupStays(states: seq<State>, steps: seq<Step>, i: nat, r: nat, rd: Reader, rd': Reader)
    requires LookedUp(states, steps, i, r, rd) && rd'.name == rd.name && rd'.file == rd.file
    ensures LookedUp(states, steps, i, r, rd')
  {
  }

  lemma {:induction false} ReaderOrigin(states: seq<State>, steps: seq<Step>, j: nat, r: nat)
    requires Run(states, steps) && j < |states| && r < |states[j].readers|
    ensures exists i: nat :: i < j && LookedUp(states, steps, i, r, states[j].readers[r])
  {
    if j > 0 {
      var s, step := states[j - 1], steps[j - 1];
      ReaderStep(s, step, r);
      if r < |s.readers| {
        ReaderOrigin(states, steps, j - 1, r);
        var i: nat :| i < j - 1 && LookedUp(states, steps, i, r, s.readers[r]);
        LookupStays(states, steps, i, r, s.readers[r], states[j].readers[r]);
      } else {
        assert LookedUp(states, steps, j - 1, r, states[j].readers[r]);
      }
    }
  }

  /** A download keeps its name and its metadata; a new one gets them from its lookup. */
  lemma ReaderStep(s: State, step: Step, r: nat)
    requires Enabled(s, step) && r < |Apply(s, step).readers|
    ensures var rd' := Apply(s, step).readers[r];
            if r < |s.readers| then rd'.name == s.readers[r].name && rd'.file == s.readers[r].file
            else r == |s.readers| && step == Lookup(rd'.name) && rd'.name in s.entries && s.entries[rd'.name] == rd'.file
  {
    StepReaders(s, step, r);
    OneNewReader(s, step);
  }

  lemma OneNewReader(s: State, step: Step)
    requires Enabled(s, step)
    ensures |s.readers| <= |Apply(s, step).readers| <= |s.readers| + 1
  {
    if !MovesReader(step) {
      StepLeavesReaders(s, step);
    }
  }

  lemma {:induction false} UploadsPersist(states: seq<State>, steps: seq<Step>, i: nat, j: nat, u: nat)
    requires Run(states, steps) && i <= j < |states| && u < |states[i].uploads|
    ensures u < |states[j].uploads|
    ensures states[j].uploads[u].data == states[i].uploads[u].data && states[j].uploads[u].name == states[i].uploads[u].name
  {
    if i < j {
      UploadsPersist(states, steps, i, j - 1, u);
      RunKeepsInv(states, steps, j - 1);
      StepGrows(states[j - 1], steps[j - 1]);
    }
  }

  /**
   Download `r` started with the lookup at step `i`, at which its name stood for the upload that step
   `k` committed, and has sent that upload's first chunks; all of it, if it has ended well.
   */
  ghost predicate DownloadFrom(states: seq<State>, steps: seq<Step>, i: nat, k: nat, r: nat, rd: Reader) {
    && LookedUp(states, steps, i, r, rd) && rd.name in Abstract(states[i])
    && var data := Abstract(states[i])[rd.name];
       && CommittedUnder(states, steps, k, i, rd.name, data)
       && rd.out == Prefix(data, rd.next)
       && (rd.progress.Done? ==> rd.out == data)
  }

  /**
   The law of downloads, over every interleaving. What a download has sent is always the first
   chunks of the file that its name stood for at its lookup; and that file is the data of one single
   upload, committed under the name before the lookup and not replaced or removed in between. When
   the download ends well it has sent that data whole, byte for byte, whatever happened meanwhile.
   */
  lemma DownloadIsOneUpload(states: seq<State>, steps: seq<Step>, j: nat, r: nat)
    requires Run(states, steps) && j < |states| && r < |states[j].readers|
    ensures var rd := states[j].readers[r];
            exists i: nat, k: nat :: i < j && DownloadFrom(states, steps, i, k, r, rd)
  {
    var rd := states[j].readers[r];
    ReaderOrigin(states, steps, j, r);
    var i: nat :| i < j && LookedUp(states, steps, i, r, rd);
    RunKeepsInv(states, steps, i);
    assert FileOk(states[i].uploads, rd.file);
    RunRefines(states, steps, i);
    EntryOrigin(states, steps, i, rd.name);
    var data := Abstract(states[i])[rd.name];
    var k: nat :| CommittedUnder(states, steps, k, i, rd.name, data);
    UploadsPersist(states, steps, i, j, rd.file.uid);
    RunKeepsInv(states, steps, j);
    SentIsPrefix(states[j], rd, data);
    assert DownloadFrom(states, steps, i, k, r, rd);
  }

  lemma SentIsPrefix(s: State, rd: Reader, data: Bytes)
    requires Inv(s) && ReaderOk(s.uploads, rd) && s.uploads[rd.file.uid].data == data
    ensures rd.out == Prefix(data, rd.next) && (rd.progress.Done? ==> rd.out == data)
  {
    assert UploadOk(s.owner, s.bound, rd.file.uid, s.uploads[rd.file.uid]);
    PrefixWhole(data);
  }
}
