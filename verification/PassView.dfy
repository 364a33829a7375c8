/** A cleanup pass of the service, made by itself, and the steps of the system. */
module PassView {
  import opened Types
  import opened Tombstones
  import opened Protocol
  import opened Invariant
  import opened Paths
  import opened Cluster
  import opened Coordinator
  import opened Agreement

  // ---------------------------------------------------------------- one tombstone

  /** The copies that the first `j` deletions of a chunk hit. */
  function ReplicaHits(s: State, info: ChunkInfo, j: nat): set<Loc>
    requires j <= |info.nodeIds|
  {
    set b | 0 <= b < j && Answers(s.registry, s.down, info.nodeIds[b], info.chunkId) :: Loc(s.registry[info.nodeIds[b]], info.chunkId)
  }

  /** The copies that the deletion of the first `i` chunks hits. */
  function ChunkHits(s: State, chunks: seq<ChunkInfo>, i: nat): set<Loc>
    requires i <= |chunks|
  {
    if i == 0 then {} else ChunkHits(s, chunks, i - 1) + ReplicaHits(s, chunks[i - 1], |chunks[i - 1].nodeIds|)
  }

  function DeletingAt(s: State, now: nat, pos: nat, i: nat, j: nat, disk: Disk): State {
    s.(cleaner := Deleting(now, pos, i, j), disk := disk)
  }

  lemma ReplicaHitsNext(s: State, info: ChunkInfo, j: nat, j': nat, disk: Disk)
    requires j' == j + 1 && j < |info.nodeIds|
    ensures var id := info.nodeIds[j];
            disk - ReplicaHits(s, info, j') ==
            if Answers(s.registry, s.down, id, info.chunkId) then disk - ReplicaHits(s, info, j) - {Loc(s.registry[id], info.chunkId)}
            else disk - ReplicaHits(s, info, j)
  {
    var id := info.nodeIds[j];
    assert ReplicaHits(s, info, j') == ReplicaHits(s, info, j) +
                                       (if Answers(s.registry, s.down, id, info.chunkId) then {Loc(s.registry[id], info.chunkId)} else {});
  }

  lemma DeletesOne(s: State, now: nat, pos: nat, i: nat, j: nat, j': nat, disk: Disk)
    requires pos < |s.tombs| && i < |s.tombs[pos].meta.meta.chunks| && j' == j + 1 && j < |s.tombs[pos].meta.meta.chunks[i].nodeIds|
    ensures var info := s.tombs[pos].meta.meta.chunks[i];
            Path(DeletingAt(s, now, pos, i, j, disk - ReplicaHits(s, info, j)), [CleanupDeletes],
                 DeletingAt(s, now, pos, i, j', disk - ReplicaHits(s, info, j')))
  {
    var info := s.tombs[pos].meta.meta.chunks[i];
    ReplicaHitsNext(s, info, j, j', disk);
    PathOne(DeletingAt(s, now, pos, i, j, disk - ReplicaHits(s, info, j)), CleanupDeletes);
  }

  lemma {:induction false} ReplicasArePath(s: State, now: nat, pos: nat, i: nat, j: nat, disk: Disk) returns (steps: seq<Step>)
    requires pos < |s.tombs| && i < |s.tombs[pos].meta.meta.chunks| && j <= |s.tombs[pos].meta.meta.chunks[i].nodeIds|
    ensures Path(DeletingAt(s, now, pos, i, 0, disk), steps,
                 DeletingAt(s, now, pos, i, j, disk - ReplicaHits(s, s.tombs[pos].meta.meta.chunks[i], j)))
  {
    var info := s.tombs[pos].meta.meta.chunks[i];
    if j == 0 {
      steps := [];
      assert disk - ReplicaHits(s, info, 0) == disk;
    } else {
      var before := ReplicasArePath(s, now, pos, i, j - 1, disk);
      DeletesOne(s, now, pos, i, j - 1, j, disk);
      PathJoin(DeletingAt(s, now, pos, i, 0, disk), before, DeletingAt(s, now, pos, i, j - 1, disk - ReplicaHits(s, info, j - 1)),
               [CleanupDeletes], DeletingAt(s, now, pos, i, j, disk - ReplicaHits(s, info, j)));
      steps := before + [CleanupDeletes];
    }
  }

  lemma GoesToNextChunk(s: State, now: nat, pos: nat, i: nat, i': nat, disk: Disk)
    requires pos < |s.tombs| && i' == i + 1 && i < |s.tombs[pos].meta.meta.chunks|
    ensures Path(DeletingAt(s, now, pos, i, |s.tombs[pos].meta.meta.chunks[i].nodeIds|, disk), [CleanupNextChunk],
                 DeletingAt(s, now, pos, i', 0, disk))
  {
    PathOne(DeletingAt(s, now, pos, i, |s.tombs[pos].meta.meta.chunks[i].nodeIds|, disk), CleanupNextChunk);
  }

  lemma MinusTwice(disk: Disk, a: set<Loc>, b: set<Loc>, both: set<Loc>)
    requires both == a + b
    ensures disk - a - b == disk - both
  {
  }

  lemma ChunkHitsNext(s: State, chunks: seq<ChunkInfo>, i: nat, i': nat)
    requires i' == i + 1 && i' <= |chunks|
    ensures ChunkHits(s, chunks, i') == ChunkHits(s, chunks, i) + ReplicaHits(s, chunks[i], |chunks[i].nodeIds|)
  {
  }

  lemma ChunksGoOn(s: State, now: nat, pos: nat, i: nat, i': nat, disk0: Disk, disk: Disk, disk': Disk, before: seq<Step>) returns (steps: seq<Step>)
    requires pos < |s.tombs| && i' == i + 1 && i < |s.tombs[pos].meta.meta.chunks|
    requires var info := s.tombs[pos].meta.meta.chunks[i]; disk' == disk - ReplicaHits(s, info, |info.nodeIds|)
    requires Path(DeletingAt(s, now, pos, 0, 0, disk0), before, DeletingAt(s, now, pos, i, 0, disk))
    ensures Path(DeletingAt(s, now, pos, 0, 0, disk0), steps, DeletingAt(s, now, pos, i', 0, disk'))
  {
    var one := ChunkIsPath(s, now, pos, i, i', disk);
    PathJoin(DeletingAt(s, now, pos, 0, 0, disk0), before, DeletingAt(s, now, pos, i, 0, disk), one, DeletingAt(s, now, pos, i', 0, disk'));
    steps := before + one;
  }

  lemma {:induction false} ChunksArePath(s: State, now: nat, pos: nat, i: nat, disk: Disk) returns (steps: seq<Step>)
    requires pos < |s.tombs| && i <= |s.tombs[pos].meta.meta.chunks|
    ensures Path(DeletingAt(s, now, pos, 0, 0, disk), steps,
                 DeletingAt(s, now, pos, i, 0, disk - ChunkHits(s, s.tombs[pos].meta.meta.chunks, i)))
  {
    var chunks := s.tombs[pos].meta.meta.chunks;
    if i == 0 {
      steps := [];
      assert disk - ChunkHits(s, chunks, 0) == disk;
    } else {
      var before := ChunksArePath(s, now, pos, i - 1, disk);
      ChunkHitsNext(s, chunks, i - 1, i);
      MinusTwice(disk, ChunkHits(s, chunks, i - 1), ReplicaHits(s, chunks[i - 1], |chunks[i - 1].nodeIds|), ChunkHits(s, chunks, i));
      steps := ChunksGoOn(s, now, pos, i - 1, i, disk, disk - ChunkHits(s, chunks, i - 1), disk - ChunkHits(s, chunks, i), before);
    }
  }

  lemma ChunkIsPath(s: State, now: nat, pos: nat, i: nat, i': nat, disk: Disk) returns (steps: seq<Step>)
    requires pos < |s.tombs| && i' == i + 1 && i < |s.tombs[pos].meta.meta.chunks|
    ensures var info := s.tombs[pos].meta.meta.chunks[i];
            Path(DeletingAt(s, now, pos, i, 0, disk), steps, DeletingAt(s, now, pos, i', 0, disk - ReplicaHits(s, info, |info.nodeIds|)))
  {
    var info := s.tombs[pos].meta.meta.chunks[i];
    var disk' := disk - ReplicaHits(s, info, |info.nodeIds|);
    var replicas := ReplicasArePath(s, now, pos, i, |info.nodeIds|, disk);
    GoesToNextChunk(s, now, pos, i, i', disk');
    PathJoin(DeletingAt(s, now, pos, i, 0, disk), replicas, DeletingAt(s, now, pos, i, |info.nodeIds|, disk'), [CleanupNextChunk],
             DeletingAt(s, now, pos, i', 0, disk'));
    steps := replicas + [CleanupNextChunk];
  }

  /** What the deletions of a file hit is what the service's deleter takes. */
  lemma HitsAreTargets(s: State, chunks: seq<ChunkInfo>, i: nat, loc: Loc)
    requires i <= |chunks|
    ensures loc in ChunkHits(s, chunks, i) <==> exists b :: 0 <= b < i && TargetsChunk(s.registry, s.down, chunks[b], loc)
  {
    if i > 0 {
      HitsAreTargets(s, chunks, i - 1, loc);
      ReplicasAreTargets(s, chunks[i - 1], loc);
      if loc in ChunkHits(s, chunks, i - 1) {
        var b :| 0 <= b < i - 1 && TargetsChunk(s.registry, s.down, chunks[b], loc);
        assert 0 <= b < i;
      }
    }
  }

  lemma ReplicasAreTargets(s: State, info: ChunkInfo, loc: Loc)
    ensures loc in ReplicaHits(s, info, |info.nodeIds|) <==> TargetsChunk(s.registry, s.down, info, loc)
  {
    if loc in ReplicaHits(s, info, |info.nodeIds|) {
      var b :| 0 <= b < |info.nodeIds| && Answers(s.registry, s.down, info.nodeIds[b], info.chunkId)
               && loc == Loc(s.registry[info.nodeIds[b]], info.chunkId);
      assert TargetsReplica(s.registry, s.down, info, b, loc);
    }
  }

  lemma HitsCleaned(s: State, meta: FileMeta, disk: Disk)
    ensures disk - ChunkHits(s, meta.chunks, |meta.chunks|) == Cleaned(s.registry, s.down, [meta], disk)
  {
    assert [meta][0] == meta;
    forall loc
      ensures loc in ChunkHits(s, meta.chunks, |meta.chunks|) <==> TargetsAny(s.registry, s.down, [meta], loc)
    {
      HitsAreTargets(s, meta.chunks, |meta.chunks|, loc);
    }
  }

  // ---------------------------------------------------------------- the scan

  /** The state after the tombstone at `pos` has been dealt with. */
  function Dealt(s: State, now: nat, pos: nat): State
    requires pos < |s.tombs| && s.tombs[pos].meta.uid < |s.uploads|
  {
    var chunks := s.tombs[pos].meta.meta.chunks;
    WithPhase(s, s.tombs[pos].meta.uid, Reclaimed).(
      tombs := s.tombs[..pos] + s.tombs[pos + 1..], disk := s.disk - ChunkHits(s, chunks, |chunks|), cleaner := Scanning(now, pos))
  }

  lemma TombIsPath(s: State, now: nat, pos: nat) returns (steps: seq<Step>)
    requires s.cleaner == Scanning(now, pos) && pos < |s.tombs| && Expired(s.tombs[pos], now) && s.tombs[pos].meta.uid < |s.uploads|
    ensures Path(s, steps, Dealt(s, now, pos))
  {
    var chunks := s.tombs[pos].meta.meta.chunks;
    var disk' := s.disk - ChunkHits(s, chunks, |chunks|);
    var deletions := ChunksArePath(s, now, pos, |chunks|, s.disk);
    var s1, s2 := DeletingAt(s, now, pos, 0, 0, s.disk), DeletingAt(s, now, pos, |chunks|, 0, disk');
    Takes(s, now, pos);
    Erases(s, now, pos, disk');
    PathJoin(s1, deletions, s2, [CleanupErases], Dealt(s, now, pos));
    PathJoin(s, [CleanupTakes], s1, deletions + [CleanupErases], Dealt(s, now, pos));
    steps := [CleanupTakes] + (deletions + [CleanupErases]);
  }

  lemma Takes(s: State, now: nat, pos: nat)
    requires s.cleaner == Scanning(now, pos) && pos < |s.tombs| && Expired(s.tombs[pos], now)
    ensures Path(s, [CleanupTakes], DeletingAt(s, now, pos, 0, 0, s.disk))
  {
    PathOne(s, CleanupTakes);
  }

  lemma Erases(s: State, now: nat, pos: nat, disk: Disk)
    requires pos < |s.tombs| && s.tombs[pos].meta.uid < |s.uploads|
    requires disk == s.disk - ChunkHits(s, s.tombs[pos].meta.meta.chunks, |s.tombs[pos].meta.meta.chunks|)
    ensures Path(DeletingAt(s, now, pos, |s.tombs[pos].meta.meta.chunks|, 0, disk), [CleanupErases], Dealt(s, now, pos))
  {
    PathOne(DeletingAt(s, now, pos, |s.tombs[pos].meta.meta.chunks|, 0, disk), CleanupErases);
  }

  /** Every tombstone refers to an upload. */
  ghost predicate Referring(s: State) {
    forall k :: 0 <= k < |s.tombs| ==> s.tombs[k].meta.uid < |s.uploads|
  }

  /** Nothing but disks, tombstones, fates and the worker has changed. */
  ghost predicate SameRest(s: State, s': State) {
    s' == s.(disk := s'.disk, tombs := s'.tombs, uploads := s'.uploads, cleaner := s'.cleaner)
  }

  /** What a scan from `pos` on leaves. */
  ghost predicate Scanned(s: State, now: nat, pos: nat, s': State)
    requires pos <= |s.tombs|
  {
    && SameRest(s, s') && s'.cleaner.Idle?
    && s'.tombs == ScanResult(s.tombs, pos, now)
    && s'.disk == Cleaned(s.registry, s.down, PlainMetas(ScanAhead(s.tombs, pos, now)), s.disk)
  }

  lemma CleanedNone(registry: Registry, down: set<Addr>, disk: Disk)
    ensures Cleaned(registry, down, [], disk) == disk
  {
    assert forall loc :: !TargetsAny(registry, down, [], loc);
  }

  lemma CleanedFirst(registry: Registry, down: set<Addr>, meta: FileMeta, metas: seq<FileMeta>, disk: Disk)
    ensures Cleaned(registry, down, [meta] + metas, disk) == Cleaned(registry, down, metas, Cleaned(registry, down, [meta], disk))
  {
    forall loc
      ensures TargetsAny(registry, down, [meta] + metas, loc) <==>
              TargetsAny(registry, down, [meta], loc) || TargetsAny(registry, down, metas, loc)
    {
      if TargetsAny(registry, down, metas, loc) {
        var k :| 0 <= k < |metas| && Targets(registry, down, metas[k], loc);
        assert ([meta] + metas)[k + 1] == metas[k];
      }
      if TargetsAny(registry, down, [meta], loc) {
        assert ([meta] + metas)[0] == meta;
      }
    }
  }

  lemma ScanStops(s: State, now: nat)
    requires s.cleaner == Scanning(now, |s.tombs|)
    ensures Path(s, [CleanupEnds], s.(cleaner := Idle)) && Scanned(s, now, |s.tombs|, s.(cleaner := Idle))
  {
    PathOne(s, CleanupEnds);
    ScanEnds(s.tombs, now);
    CleanedNone(s.registry, s.down, s.disk);
    assert PlainMetas(ScanAhead(s.tombs, |s.tombs|, now)) == [];
  }

  lemma ScanDeals(s: State, now: nat, pos: nat, s': State)
    requires pos < |s.tombs| && Expired(s.tombs[pos], now) && s.tombs[pos].meta.uid < |s.uploads|
    requires Scanned(Dealt(s, now, pos), now, pos, s')
    ensures Scanned(s, now, pos, s')
  {
    ScanErases(s.tombs, pos, now);
    var f, s1 := s.tombs[pos].meta, Dealt(s, now, pos);
    var rest := ScanAhead(s1.tombs, pos, now);
    assert PlainMetas([f] + rest) == [f.meta] + PlainMetas(rest);
    HitsCleaned(s, f.meta, s.disk);
    CleanedFirst(s.registry, s.down, f.meta, PlainMetas(rest), s.disk);
  }

  lemma ScanSkips(s: State, now: nat, pos: nat, pos': nat, s': State)
    requires pos' == pos + 1 && pos < |s.tombs| && !Expired(s.tombs[pos], now) && s.cleaner == Scanning(now, pos)
    requires Scanned(s.(cleaner := Scanning(now, pos')), now, pos', s')
    ensures Path(s, [CleanupPasses], s.(cleaner := Scanning(now, pos'))) && Scanned(s, now, pos, s')
  {
    ScanPasses(s.tombs, pos, now);
    PathOne(s, CleanupPasses);
  }

  lemma {:induction false} ScanIsPath(s: State, now: nat, pos: nat) returns (steps: seq<Step>, s': State)
    requires pos <= |s.tombs| && s.cleaner == Scanning(now, pos) && Referring(s)
    ensures Path(s, steps, s') && Scanned(s, now, pos, s')
    decreases |s.tombs| - pos
  {
    if pos == |s.tombs| {
      ScanStops(s, now);
      steps, s' := [CleanupEnds], s.(cleaner := Idle);
    } else if Expired(s.tombs[pos], now) {
      var one := TombIsPath(s, now, pos);
      var rest;
      rest, s' := ScanIsPath(Dealt(s, now, pos), now, pos);
      ScanDeals(s, now, pos, s');
      PathJoin(s, one, Dealt(s, now, pos), rest, s');
      steps := one + rest;
    } else {
      var s1 := s.(cleaner := Scanning(now, pos + 1));
      var rest;
      rest, s' := ScanIsPath(s1, now, pos + 1);
      ScanSkips(s, now, pos, pos + 1, s');
      PathJoin(s, [CleanupPasses], s1, rest, s');
      steps := [CleanupPasses] + rest;
    }
  }

  // ---------------------------------------------------------------- the pass

  lemma PassIsPath(s: State, now: nat) returns (steps: seq<Step>, s': State)
    requires s.cleaner.Idle? && Referring(s) && s.clock <= now
    ensures Path(s, steps, s') && s'.cleaner.Idle? && SameRest(s.(clock := now), s')
    ensures s'.tombs == Kept(s.tombs, now)
    ensures s'.disk == Cleaned(s.registry, s.down, PlainMetas(Metas(Condemned(s.tombs, now))), s.disk)
  {
    var s1, s2 := s.(clock := now), s.(clock := now, cleaner := Scanning(now, 0));
    var rest;
    rest, s' := ScanIsPath(s2, now, 0);
    ScanEnds(s.tombs, now);
    PathTwo(s, Tick(now), s1, CleanupBegins, s2);
    PathJoin(s, [Tick(now), CleanupBegins], s2, rest, s');
    steps := [Tick(now), CleanupBegins] + rest;
  }

  lemma SweptAgrees(view: View, s: State, now: nat, s': State, view': View)
    requires Agrees(view, s) && s.clock <= now && s'.cleaner.Idle? && SameRest(s.(clock := now), s')
    requires s'.tombs == Kept(s.tombs, now)
    requires s'.disk == Cleaned(s.registry, s.down, PlainMetas(Metas(Condemned(s.tombs, now))), s.disk)
    requires view' == view.(deleted := Kept(view.deleted, now), lastTick := now,
                            disk := Cleaned(view.registry, view.down, Metas(Condemned(view.deleted, now)), view.disk))
    ensures Agrees(view', s')
  {
    PlainKept(s.tombs, now);
    PlainCondemned(s.tombs, now);
  }

  /** A whole pass, as the service does it and as the system does it. */
  method CleanupAgrees(service: Service, now: nat, ghost s: State) returns (ghost steps: seq<Step>, ghost s': State)
    requires service.Valid() && Agrees(ViewOf(service), s) && TombsOk(s) && s.clock <= now
    modifies service.store, service.nodes
    ensures service.Valid() && Path(s, steps, s') && Agrees(ViewOf(service), s')
    ensures s'.tombs == Kept(s.tombs, now)
  {
    ghost var view := ViewOf(service);
    assert Referring(s) by {
      assert forall k :: 0 <= k < |s.tombs| ==> TombOk(s.uploads, s.tombs[k]);
    }
    service.CleanupPass(now);
    steps, s' := PassIsPath(s, now);
    SweptAgrees(view, s, now, s', ViewOf(service));
  }
}
