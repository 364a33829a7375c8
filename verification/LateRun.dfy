/**
 A run in which a download breaks although its nodes work all the time: one node stores one file of
 one byte, the file is looked up and then deleted, and the tombstone outlives its lifetime before the
 download reads the chunk.
 */
module LateRun {
  import opened Types
  import opened Chunking
  import opened Placement
  import opened Tombstones
  import opened NodeIds
  import opened ReplicaWrites
  import opened Protocol
  import opened Paths
  import opened Safety
  import opened LateReads
  import Cluster

  // ---------------------------------------------------------------- the run's states

  /** The one chunk: it was placed on the one node three times. */
  function TheChunk(): ChunkInfo {
    ChunkInfo(0, [1, 1, 1], REPLICATION_FACTOR)
  }

  function TheUpload(name: Name, b: byte, phase: Phase): Upload {
    Upload(name, [b], [TheChunk()], [1], phase)
  }

  function TheFile(name: Name, b: byte): File {
    File(0, FileMeta(1, CHUNK_SIZE, [TheChunk()]))
  }

  /** From the chunk's allocation on: one node, one upload, one disk. */
  function Scene(s: State, addr: Addr, name: Name, b: byte, phase: Phase, disk: Cluster.Disk): State {
    s.(owner := [Slot(0, 0)], nodeIndex := 1, bound := [addr], registry := map[1 := addr],
       uploads := [TheUpload(name, b, phase)], disk := disk)
  }

  function TheReader(name: Name, b: byte, progress: Progress): Reader {
    Reader(name, TheFile(name, b), 0, [], progress)
  }

  /** From the deletion on. */
  function Deleted(s: State, addr: Addr, name: Name, b: byte, disk: Cluster.Disk, progress: Progress): State {
    Scene(s, addr, name, b, Pending(s.clock), disk).(
      tombs := [Tombstone(name, TheFile(name, b), s.clock)], readers := [TheReader(name, b, progress)])
  }

  /** The time at which the tombstone is just over age. */
  function Late(s: State): nat {
    s.clock + TOMBSTONE_LIFETIME + 1
  }

  // ---------------------------------------------------------------- its steps

  function Begins(addr: Addr, name: Name, b: byte): seq<Step> {
    [Register(addr), PutBegins(name, [b]), Allocate(0, [1])]
  }

  function Stores(w: nat): seq<Step> {
    [WriterOpens(0, w), WriterWrites(0, w, 1), WriterCloses(0, w)]
  }

  function Publishes(): seq<Step> {
    [Join(0), Commit(0)]
  }

  function Retires(s: State, name: Name): seq<Step> {
    [Lookup(name), DeletePath(name, s.clock), Tick(Late(s))]
  }

  function Sweeps(): seq<Step> {
    [CleanupBegins, CleanupTakes, CleanupDeletes]
  }

  function Misses(): seq<Step> {
    [ReadMiss(0), ReadMiss(0), ReadMiss(0)]
  }

  /** No step takes a node away. */
  function LateSteps(s: State, addr: Addr, name: Name, b: byte): seq<Step> {
    Begins(addr, name, b) + (Stores(0) + (Stores(1) + (Stores(2) + (Publishes() + (Retires(s, name) + (Sweeps() + (Misses() + [ReadFails(0)])))))))
  }

  lemma OneNode()
    ensures IdOf(0) == 1 && IsOrderOf([1], {1}) && Select([1], StartOf(0, 1), REPLICATION_FACTOR) == [1, 1, 1]
  {
    assert (set x | x in [1]) == {1};
  }

  lemma PathBegins(s: State, addr: Addr, name: Name, b: byte)
    requires Init(s) && name != ""
    ensures Path(s, Begins(addr, name, b), Scene(s, addr, name, b, Storing([Waiting, Waiting, Waiting]), s.disk))
  {
    OneNode();
    var s1 := s.(bound := [addr], registry := map[1 := addr]);
    assert Enabled(s, Register(addr)) && Apply(s, Register(addr)) == s1;
    var s2 := s1.(uploads := [Upload(name, [b], [], [], Ready)]);
    assert Enabled(s1, PutBegins(name, [b])) && Apply(s1, PutBegins(name, [b])) == s2;
    AllocateOne(s, addr, name, b, s2);
    var s3 := Scene(s, addr, name, b, Storing([Waiting, Waiting, Waiting]), s.disk);
    PathThree(s, Register(addr), s1, PutBegins(name, [b]), s2, Allocate(0, [1]), s3);
  }

  lemma AllocateOne(s: State, addr: Addr, name: Name, b: byte, s2: State)
    requires Init(s) && s2 == s.(bound := [addr], registry := map[1 := addr], uploads := [Upload(name, [b], [], [], Ready)])
    ensures Enabled(s2, Allocate(0, [1]))
    ensures Apply(s2, Allocate(0, [1])) == Scene(s, addr, name, b, Storing([Waiting, Waiting, Waiting]), s.disk)
  {
    OneNode();
    assert s2.registry.Keys == {1};
    assert seq(REPLICATION_FACTOR, _ => Waiting) == [Waiting, Waiting, Waiting];
    var info := ChunkInfo(0, Select([1], StartOf(0, 1), REPLICATION_FACTOR), REPLICATION_FACTOR);
    assert info == TheChunk();
    assert Allocated(s2, 0, [1]).uploads[0] == TheUpload(name, b, Storing([Waiting, Waiting, Waiting]));
  }

  lemma PathStores(s: State, addr: Addr, name: Name, b: byte, writers: seq<Writer>, w: nat, disk: Cluster.Disk) returns (disk': Cluster.Disk)
    requires addr !in s.down && w < |writers| == 3 && writers[w].Waiting?
    ensures Path(Scene(s, addr, name, b, Storing(writers), disk), Stores(w), Scene(s, addr, name, b, Storing(writers[w := Stored(addr)]), disk'))
    ensures Loc(addr, 0) in disk' && disk'[Loc(addr, 0)] == [b]
  {
    var s0, loc := Scene(s, addr, name, b, Storing(writers), disk), Loc(addr, 0);
    var disk1 := disk[loc := []];
    disk' := disk1[loc := [b]];
    var s1 := Scene(s, addr, name, b, Storing(writers[w := Writing(addr, 0)]), disk1);
    var s2 := Scene(s, addr, name, b, Storing(writers[w := Writing(addr, 1)]), disk');
    var s3 := Scene(s, addr, name, b, Storing(writers[w := Stored(addr)]), disk');
    StoreOpens(s, addr, name, b, writers, w, disk);
    StoreWrites(s, addr, name, b, writers[w := Writing(addr, 0)], w, disk1);
    StoreCloses(s, addr, name, b, writers[w := Writing(addr, 1)], w, disk');
    assert writers[w := Writing(addr, 0)][w := Writing(addr, 1)] == writers[w := Writing(addr, 1)];
    assert writers[w := Writing(addr, 1)][w := Stored(addr)] == writers[w := Stored(addr)];
    PathThree(s0, WriterOpens(0, w), s1, WriterWrites(0, w, 1), s2, WriterCloses(0, w), s3);
  }

  lemma StoreOpens(s: State, addr: Addr, name: Name, b: byte, writers: seq<Writer>, w: nat, disk: Cluster.Disk)
    requires addr !in s.down && w < |writers| == 3 && writers[w].Waiting?
    ensures var s0 := Scene(s, addr, name, b, Storing(writers), disk);
            && Enabled(s0, WriterOpens(0, w))
            && Apply(s0, WriterOpens(0, w)) == Scene(s, addr, name, b, Storing(writers[w := Writing(addr, 0)]), disk[Loc(addr, 0) := []])
  {
  }

  lemma StoreWrites(s: State, addr: Addr, name: Name, b: byte, writers: seq<Writer>, w: nat, disk: Cluster.Disk)
    requires w < |writers| == 3 && writers[w] == Writing(addr, 0) && Loc(addr, 0) in disk && disk[Loc(addr, 0)] == []
    ensures var s0 := Scene(s, addr, name, b, Storing(writers), disk);
            && Enabled(s0, WriterWrites(0, w, 1))
            && Apply(s0, WriterWrites(0, w, 1)) == Scene(s, addr, name, b, Storing(writers[w := Writing(addr, 1)]), disk[Loc(addr, 0) := [b]])
  {
    assert LastSlice(TheUpload(name, b, Storing(writers))) == [b];
    assert WriteAt([], 0, [b][0..1]) == [b];
  }

  lemma StoreCloses(s: State, addr: Addr, name: Name, b: byte, writers: seq<Writer>, w: nat, disk: Cluster.Disk)
    requires w < |writers| == 3 && writers[w] == Writing(addr, 1)
    ensures var s0 := Scene(s, addr, name, b, Storing(writers), disk);
            && Enabled(s0, WriterCloses(0, w))
            && Apply(s0, WriterCloses(0, w)) == Scene(s, addr, name, b, Storing(writers[w := Stored(addr)]), disk)
  {
    assert LastSlice(TheUpload(name, b, Storing(writers))) == [b];
  }

  /** The file is visible. */
  function Visible(s: State, addr: Addr, name: Name, b: byte, disk: Cluster.Disk): State {
    Scene(s, addr, name, b, Active, disk).(entries := map[name := TheFile(name, b)])
  }

  lemma PathPublishes(s: State, addr: Addr, name: Name, b: byte, disk: Cluster.Disk)
    requires Init(s)
    ensures Path(Scene(s, addr, name, b, Storing([Stored(addr), Stored(addr), Stored(addr)]), disk), Publishes(), Visible(s, addr, name, b, disk))
  {
    var s0 := Scene(s, addr, name, b, Storing([Stored(addr), Stored(addr), Stored(addr)]), disk);
    var s1 := Scene(s, addr, name, b, Ready, disk);
    PathTwo(s0, Join(0), s1, Commit(0), Visible(s, addr, name, b, disk));
  }

  lemma PathRetires(s: State, addr: Addr, name: Name, b: byte, disk: Cluster.Disk)
    requires Init(s)
    ensures Path(Visible(s, addr, name, b, disk), Retires(s, name), Deleted(s, addr, name, b, disk, Reading(0)).(clock := Late(s)))
  {
    var s0 := Visible(s, addr, name, b, disk);
    var s1 := s0.(readers := [TheReader(name, b, Reading(0))]);
    var s2 := Deleted(s, addr, name, b, disk, Reading(0));
    assert Enabled(s0, Lookup(name)) && Apply(s0, Lookup(name)) == s1;
    DeleteOne(s, addr, name, b, disk, s1);
    PathThree(s0, Lookup(name), s1, DeletePath(name, s.clock), s2, Tick(Late(s)), s2.(clock := Late(s)));
  }

  lemma DeleteOne(s: State, addr: Addr, name: Name, b: byte, disk: Cluster.Disk, s1: State)
    requires Init(s) && s1 == Visible(s, addr, name, b, disk).(readers := [TheReader(name, b, Reading(0))])
    ensures Enabled(s1, DeletePath(name, s.clock))
    ensures Apply(s1, DeletePath(name, s.clock)) == Deleted(s, addr, name, b, disk, Reading(0))
  {
    assert s1.entries - {name} == map[];
  }

  /** The run's last state. */
  function Broke(s: State, addr: Addr, name: Name, b: byte, disk: Cluster.Disk, progress: Progress): State {
    Deleted(s, addr, name, b, disk - {Loc(addr, 0)}, progress).(clock := Late(s), cleaner := Deleting(Late(s), 0, 0, 1))
  }

  lemma PathSweeps(s: State, addr: Addr, name: Name, b: byte, disk: Cluster.Disk)
    requires Init(s) && addr !in s.down
    ensures Path(Deleted(s, addr, name, b, disk, Reading(0)).(clock := Late(s)), Sweeps(), Broke(s, addr, name, b, disk, Reading(0)))
  {
    var s0, now := Deleted(s, addr, name, b, disk, Reading(0)).(clock := Late(s)), Late(s);
    var s1, s2 := s0.(cleaner := Scanning(now, 0)), s0.(cleaner := Deleting(now, 0, 0, 0));
    PassBegins(s, addr, name, b, disk, s0, s1);
    PassTakes(s, addr, name, b, disk, s0, s1, s2);
    PassDeletes(s, addr, name, b, disk, s2);
    PathThree(s0, CleanupBegins, s1, CleanupTakes, s2, CleanupDeletes, Broke(s, addr, name, b, disk, Reading(0)));
  }

  lemma PassBegins(s: State, addr: Addr, name: Name, b: byte, disk: Cluster.Disk, s0: State, s1: State)
    requires Init(s) && s0 == Deleted(s, addr, name, b, disk, Reading(0)).(clock := Late(s)) && s1 == s0.(cleaner := Scanning(Late(s), 0))
    ensures Enabled(s0, CleanupBegins) && Apply(s0, CleanupBegins) == s1
  {
  }

  lemma PassTakes(s: State, addr: Addr, name: Name, b: byte, disk: Cluster.Disk, s0: State, s1: State, s2: State)
    requires s0 == Deleted(s, addr, name, b, disk, Reading(0)).(clock := Late(s))
    requires s1 == s0.(cleaner := Scanning(Late(s), 0)) && s2 == s0.(cleaner := Deleting(Late(s), 0, 0, 0))
    ensures Enabled(s1, CleanupTakes) && Apply(s1, CleanupTakes) == s2
  {
  }

  lemma PassDeletes(s: State, addr: Addr, name: Name, b: byte, disk: Cluster.Disk, s2: State)
    requires addr !in s.down && s2 == Deleted(s, addr, name, b, disk, Reading(0)).(clock := Late(s), cleaner := Deleting(Late(s), 0, 0, 0))
    ensures Enabled(s2, CleanupDeletes) && Apply(s2, CleanupDeletes) == Broke(s, addr, name, b, disk, Reading(0))
  {
  }

  lemma PathMisses(s: State, addr: Addr, name: Name, b: byte, disk: Cluster.Disk)
    ensures Path(Broke(s, addr, name, b, disk, Reading(0)), Misses(), Broke(s, addr, name, b, disk, Reading(3)))
  {
    PathMiss(s, addr, name, b, disk, 0, 1);
    PathMiss(s, addr, name, b, disk, 1, 2);
    PathMiss(s, addr, name, b, disk, 2, 3);
    PathJoin(Broke(s, addr, name, b, disk, Reading(1)), [ReadMiss(0)], Broke(s, addr, name, b, disk, Reading(2)), [ReadMiss(0)],
             Broke(s, addr, name, b, disk, Reading(3)));
    PathJoin(Broke(s, addr, name, b, disk, Reading(0)), [ReadMiss(0)], Broke(s, addr, name, b, disk, Reading(1)),
             [ReadMiss(0)] + [ReadMiss(0)], Broke(s, addr, name, b, disk, Reading(3)));
    assert Misses() == [ReadMiss(0)] + ([ReadMiss(0)] + [ReadMiss(0)]);
  }

  lemma PathMiss(s: State, addr: Addr, name: Name, b: byte, disk: Cluster.Disk, k: nat, k': nat)
    requires k < 3 && k' == k + 1
    ensures Path(Broke(s, addr, name, b, disk, Reading(k)), [ReadMiss(0)], Broke(s, addr, name, b, disk, Reading(k')))
  {
    MissesOne(s, addr, name, b, disk, k);
    PathOne(Broke(s, addr, name, b, disk, Reading(k)), ReadMiss(0));
  }

  lemma MissesOne(s: State, addr: Addr, name: Name, b: byte, disk: Cluster.Disk, k: nat)
    requires k < 3
    ensures var s0 := Broke(s, addr, name, b, disk, Reading(k));
            Enabled(s0, ReadMiss(0)) && Apply(s0, ReadMiss(0)) == Broke(s, addr, name, b, disk, Reading(k + 1))
  {
  }

  lemma FailsOne(s: State, addr: Addr, name: Name, b: byte, disk: Cluster.Disk)
    ensures var s0 := Broke(s, addr, name, b, disk, Reading(3));
            Enabled(s0, ReadFails(0)) && Apply(s0, ReadFails(0)) == Broke(s, addr, name, b, disk, Broken)
  {
  }

  /** From the last replica's close on. */
  lemma PathEnds(s: State, addr: Addr, name: Name, b: byte, disk: Cluster.Disk)
    requires Init(s) && addr !in s.down
    ensures Path(Scene(s, addr, name, b, Storing([Stored(addr), Stored(addr), Stored(addr)]), disk),
                 Publishes() + (Retires(s, name) + (Sweeps() + (Misses() + [ReadFails(0)]))), Broke(s, addr, name, b, disk, Broken))
  {
    var end := Broke(s, addr, name, b, disk, Broken);
    var retired := Deleted(s, addr, name, b, disk, Reading(0)).(clock := Late(s));
    PathPublishes(s, addr, name, b, disk);
    PathRetires(s, addr, name, b, disk);
    PathSweeps(s, addr, name, b, disk);
    PathMisses(s, addr, name, b, disk);
    FailsOne(s, addr, name, b, disk);
    PathOne(Broke(s, addr, name, b, disk, Reading(3)), ReadFails(0));
    PathJoin(Broke(s, addr, name, b, disk, Reading(0)), Misses(), Broke(s, addr, name, b, disk, Reading(3)), [ReadFails(0)], end);
    PathJoin(retired, Sweeps(), Broke(s, addr, name, b, disk, Reading(0)), Misses() + [ReadFails(0)], end);
    PathJoin(Visible(s, addr, name, b, disk), Retires(s, name), retired, Sweeps() + (Misses() + [ReadFails(0)]), end);
    PathJoin(Scene(s, addr, name, b, Storing([Stored(addr), Stored(addr), Stored(addr)]), disk), Publishes(),
             Visible(s, addr, name, b, disk), Retires(s, name) + (Sweeps() + (Misses() + [ReadFails(0)])), end);
  }

  lemma PathLate(s: State, addr: Addr, name: Name, b: byte) returns (disk: Cluster.Disk)
    requires Init(s) && addr !in s.down && name != ""
    ensures Path(s, LateSteps(s, addr, name, b), Broke(s, addr, name, b, disk, Broken))
  {
    var ws0 := [Waiting, Waiting, Waiting];
    var ws1, ws2 := ws0[0 := Stored(addr)], ws0[0 := Stored(addr)][1 := Stored(addr)];
    var ws3 := ws2[2 := Stored(addr)];
    assert ws3 == [Stored(addr), Stored(addr), Stored(addr)];
    PathBegins(s, addr, name, b);
    var disk1 := PathStores(s, addr, name, b, ws0, 0, s.disk);
    var disk2 := PathStores(s, addr, name, b, ws1, 1, disk1);
    disk := PathStores(s, addr, name, b, ws2, 2, disk2);
    PathEnds(s, addr, name, b, disk);
    var end := Broke(s, addr, name, b, disk, Broken);
    var tail := Publishes() + (Retires(s, name) + (Sweeps() + (Misses() + [ReadFails(0)])));
    PathJoin(Scene(s, addr, name, b, Storing(ws2), disk2), Stores(2), Scene(s, addr, name, b, Storing(ws3), disk), tail, end);
    PathJoin(Scene(s, addr, name, b, Storing(ws1), disk1), Stores(1), Scene(s, addr, name, b, Storing(ws2), disk2), Stores(2) + tail, end);
    PathJoin(Scene(s, addr, name, b, Storing(ws0), s.disk), Stores(0), Scene(s, addr, name, b, Storing(ws1), disk1), Stores(1) + (Stores(2) + tail), end);
    PathJoin(s, Begins(addr, name, b), Scene(s, addr, name, b, Storing(ws0), s.disk), Stores(0) + (Stores(1) + (Stores(2) + tail)), end);
  }

  /** A run over these steps, in which the node works to the end and the download breaks. */
  ghost predicate LateBroken(states: seq<State>, s: State, addr: Addr, name: Name, b: byte) {
    var steps := LateSteps(s, addr, name, b);
    && Run(states, steps) && states[0] == s
    && var end := states[|steps|];
       && end.readers == [TheReader(name, b, Broken)] && end.uploads == [TheUpload(name, b, Pending(s.clock))]
       && end.clock == Late(s) && TakenUp(end, 0) && forall id :: id in TheChunk().nodeIds ==> Alive(end, id)
  }

  /**
   A late download can break: a run stores a file of one byte on a node that stays registered and up,
   looks the file up, deletes it, and lets a pass take it up as an over-age tombstone; the download
   then misses the chunk three times and ends broken.
   */
  lemma LateDownloadBreaks(s: State, addr: Addr, name: Name, b: byte)
    requires Init(s) && addr !in s.down && name != ""
    ensures exists states :: LateBroken(states, s, addr, name, b)
  {
    var disk := PathLate(s, addr, name, b);
    var states := PathStates(s, LateSteps(s, addr, name, b), Broke(s, addr, name, b, disk, Broken));
    assert LateBroken(states, s, addr, name, b);
  }
}
