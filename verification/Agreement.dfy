/**
 The calls of the coordinator service, made one at a time, and the steps of the system: whatever a call
 does, a sequence of steps does, from every state of the system that agrees with the service's.
 */
module Agreement {
  import opened Types
  import opened Chunking
  import opened Framing
  import opened Placement
  import opened Tombstones
  import opened NodeIds
  import opened MetadataStore
  import opened Protocol
  import opened Invariant
  import opened Paths
  import opened Cluster
  import opened Coordinator
  import opened Views

  // ---------------------------------------------------------------- downloads

  /** The state with one more download. */
  function WithDownload(s: State, name: Name, f: File, next: nat, out: Bytes, progress: Progress): State {
    s.(readers := s.readers + [Reader(name, f, next, out, progress)])
  }

  lemma DownloadMoves(s: State, name: Name, f: File, next: nat, out: Bytes, progress: Progress, rd: Reader)
    requires rd.name == name && rd.file == f
    ensures var s1, r := WithDownload(s, name, f, next, out, progress), |s.readers|;
            WithReader(s1, r, rd) == WithDownload(s, name, f, rd.next, rd.out, rd.progress)
  {
    var s1 := WithDownload(s, name, f, next, out, progress);
    assert s1.readers[|s.readers| := rd] == s.readers + [rd];
  }

  lemma FailsToRead(s: State, name: Name, f: File, c: nat, out: Bytes, a: nat)
    requires c < |f.meta.chunks| && a >= |f.meta.chunks[c].nodeIds|
    ensures Path(WithDownload(s, name, f, c, out, Reading(a)), [ReadFails(|s.readers|)], WithDownload(s, name, f, c, out, Broken))
  {
    DownloadMoves(s, name, f, c, out, Reading(a), Reader(name, f, c, out, Broken));
    PathOne(WithDownload(s, name, f, c, out, Reading(a)), ReadFails(|s.readers|));
  }

  lemma MissesOnce(s: State, name: Name, f: File, c: nat, out: Bytes, a: nat)
    requires c < |f.meta.chunks| && a < |f.meta.chunks[c].nodeIds|
    requires !Usable(s.registry, s.down, s.disk, f.meta.chunks[c].nodeIds[a], f.meta.chunks[c].chunkId)
    ensures Path(WithDownload(s, name, f, c, out, Reading(a)), [ReadMiss(|s.readers|)], WithDownload(s, name, f, c, out, Reading(a + 1)))
  {
    DownloadMoves(s, name, f, c, out, Reading(a), Reader(name, f, c, out, Reading(a + 1)));
    PathOne(WithDownload(s, name, f, c, out, Reading(a)), ReadMiss(|s.readers|));
  }

  lemma HitsOnce(s: State, name: Name, f: File, c: nat, out: Bytes, a: nat, data: Bytes)
    requires c < |f.meta.chunks| && a < |f.meta.chunks[c].nodeIds|
    requires var info := f.meta.chunks[c];
             && Usable(s.registry, s.down, s.disk, info.nodeIds[a], info.chunkId)
             && data == s.disk[Loc(s.registry[info.nodeIds[a]], info.chunkId)]
    ensures Path(WithDownload(s, name, f, c, out, Reading(a)), [ReadHit(|s.readers|)], WithDownload(s, name, f, c + 1, out + data, Reading(0)))
  {
    DownloadMoves(s, name, f, c, out, Reading(a), Reader(name, f, c + 1, out + data, Reading(0)));
    PathOne(WithDownload(s, name, f, c, out, Reading(a)), ReadHit(|s.readers|));
  }

  /** Where the fallback over the nodes from the `a`-th on leads. */
  function Tries(s: State, name: Name, f: File, c: nat, out: Bytes, a: nat): State
    requires c < |f.meta.chunks| && a <= |f.meta.chunks[c].nodeIds|
  {
    match ReadChunk(s.registry, s.down, s.disk, f.meta.chunks[c].chunkId, f.meta.chunks[c].nodeIds[a..])
    case None => WithDownload(s, name, f, c, out, Broken)
    case Some(data) => WithDownload(s, name, f, c + 1, out + data, Reading(0))
  }

  lemma {:induction false} FallbackIsPath(s: State, name: Name, f: File, c: nat, out: Bytes, a: nat) returns (steps: seq<Step>)
    requires c < |f.meta.chunks| && a <= |f.meta.chunks[c].nodeIds|
    ensures Path(WithDownload(s, name, f, c, out, Reading(a)), steps, Tries(s, name, f, c, out, a))
    decreases |f.meta.chunks[c].nodeIds| - a
  {
    var info, r := f.meta.chunks[c], |s.readers|;
    if a == |info.nodeIds| {
      FailsToRead(s, name, f, c, out, a);
      steps := [ReadFails(r)];
    } else if Usable(s.registry, s.down, s.disk, info.nodeIds[a], info.chunkId) {
      HitsOnce(s, name, f, c, out, a, s.disk[Loc(s.registry[info.nodeIds[a]], info.chunkId)]);
      steps := [ReadHit(r)];
    } else {
      var rest := FallbackIsPath(s, name, f, c, out, a + 1);
      MissesOnce(s, name, f, c, out, a);
      assert info.nodeIds[a..][1..] == info.nodeIds[a + 1..];
      PathJoin(WithDownload(s, name, f, c, out, Reading(a)), [ReadMiss(r)], WithDownload(s, name, f, c, out, Reading(a + 1)), rest,
               Tries(s, name, f, c, out, a));
      steps := [ReadMiss(r)] + rest;
    }
  }

  /** Where the download of the chunks from the `c`-th on leads, if it has sent `sent` more of them. */
  function Downloaded(s: State, name: Name, f: File, c: nat, out: Bytes, sent: seq<Bytes>): State {
    WithDownload(s, name, f, c + |sent|, out + Flatten(sent), if c + |sent| == |f.meta.chunks| then Done else Broken)
  }

  function Sent(s: State, f: File, c: nat): seq<Bytes>
    requires c <= |f.meta.chunks|
  {
    ReadChunks(s.registry, s.down, s.disk, f.meta.chunks[c..])
  }

  lemma EndsWell(s: State, name: Name, f: File, out: Bytes)
    ensures Path(WithDownload(s, name, f, |f.meta.chunks|, out, Reading(0)), [ReadEnds(|s.readers|)],
                 Downloaded(s, name, f, |f.meta.chunks|, out, []))
  {
    DownloadMoves(s, name, f, |f.meta.chunks|, out, Reading(0), Reader(name, f, |f.meta.chunks|, out, Done));
    assert out + Flatten<byte>([]) == out;
    PathOne(WithDownload(s, name, f, |f.meta.chunks|, out, Reading(0)), ReadEnds(|s.readers|));
  }

  lemma SentNone(s: State, name: Name, f: File, c: nat, out: Bytes)
    requires c < |f.meta.chunks| && ReadChunk(s.registry, s.down, s.disk, f.meta.chunks[c].chunkId, f.meta.chunks[c].nodeIds).None?
    ensures Downloaded(s, name, f, c, out, Sent(s, f, c)) == WithDownload(s, name, f, c, out, Broken)
  {
    ReadChunksFrom(s.registry, s.down, s.disk, f.meta.chunks, c);
    assert out + Flatten<byte>([]) == out;
  }

  lemma SentSome(s: State, name: Name, f: File, c: nat, out: Bytes, data: Bytes)
    requires c < |f.meta.chunks|
    requires ReadChunk(s.registry, s.down, s.disk, f.meta.chunks[c].chunkId, f.meta.chunks[c].nodeIds) == Some(data)
    ensures Downloaded(s, name, f, c, out, Sent(s, f, c)) == Downloaded(s, name, f, c + 1, out + data, Sent(s, f, c + 1))
  {
    ReadChunksFrom(s.registry, s.down, s.disk, f.meta.chunks, c);
    SentOne(out, data, Sent(s, f, c + 1));
  }

  lemma ChunkIsPath(s: State, name: Name, f: File, c: nat, out: Bytes) returns (steps: seq<Step>)
    requires c < |f.meta.chunks|
    ensures match ReadChunk(s.registry, s.down, s.disk, f.meta.chunks[c].chunkId, f.meta.chunks[c].nodeIds)
            case None => Path(WithDownload(s, name, f, c, out, Reading(0)), steps, WithDownload(s, name, f, c, out, Broken))
            case Some(data) => Path(WithDownload(s, name, f, c, out, Reading(0)), steps, WithDownload(s, name, f, c + 1, out + data, Reading(0)))
  {
    steps := FallbackIsPath(s, name, f, c, out, 0);
    assert f.meta.chunks[c].nodeIds[0..] == f.meta.chunks[c].nodeIds;
  }

  lemma {:induction false} ChunksArePath(s: State, name: Name, f: File, c: nat, out: Bytes) returns (steps: seq<Step>)
    requires c <= |f.meta.chunks|
    ensures Path(WithDownload(s, name, f, c, out, Reading(0)), steps, Downloaded(s, name, f, c, out, Sent(s, f, c)))
    decreases |f.meta.chunks| - c
  {
    if c == |f.meta.chunks| {
      EndsWell(s, name, f, out);
      steps := [ReadEnds(|s.readers|)];
    } else {
      var one := ChunkIsPath(s, name, f, c, out);
      match ReadChunk(s.registry, s.down, s.disk, f.meta.chunks[c].chunkId, f.meta.chunks[c].nodeIds)
      case None =>
        SentNone(s, name, f, c, out);
        steps := one;
      case Some(data) =>
        SentSome(s, name, f, c, out, data);
        var rest := ChunksArePath(s, name, f, c + 1, out + data);
        PathJoin(WithDownload(s, name, f, c, out, Reading(0)), one, WithDownload(s, name, f, c + 1, out + data, Reading(0)), rest,
                 Downloaded(s, name, f, c + 1, out + data, Sent(s, f, c + 1)));
        steps := one + rest;
    }
  }

  lemma SentOne(out: Bytes, data: Bytes, sent: seq<Bytes>)
    ensures out + Flatten([data] + sent) == out + data + Flatten(sent)
  {
    assert ([data] + sent)[1..] == sent;
  }

  /** A download that nothing interrupts. */
  lemma GetIsPath(s: State, name: Name) returns (steps: seq<Step>)
    requires s.cleaner.Idle? && name in s.entries
    ensures Path(s, steps, Downloaded(s, name, s.entries[name], 0, [], Sent(s, s.entries[name], 0)))
  {
    var f := s.entries[name];
    var rest := ChunksArePath(s, name, f, 0, []);
    PathOne(s, Lookup(name));
    PathJoin(s, [Lookup(name)], WithDownload(s, name, f, 0, [], Reading(0)), rest, Downloaded(s, name, f, 0, [], Sent(s, f, 0)));
    steps := [Lookup(name)] + rest;
  }

  // ---------------------------------------------------------------- agreement

  /** A tombstone as the metadata store has it, without history. */
  function Plain(tombs: seq<Tombstone<File>>): seq<Tombstone<FileMeta>> {
    seq(|tombs|, k requires 0 <= k < |tombs| => Tombstone(tombs[k].path, tombs[k].meta.meta, tombs[k].deletedAt))
  }

  ghost predicate SameFiles(entries: map<Name, PathEntry>, files: map<Name, File>) {
    && entries.Keys == files.Keys
    && forall name :: name in entries ==> entries[name] == PathEntry(true, files[name].meta)
  }

  /** What the service, its metadata store and its nodes hold. */
  datatype View = View(registry: Registry, order: seq<NodeId>, down: set<Addr>, disk: Disk, counter: nat, index: nat, nextId: NodeId,
                       entries: map<Name, PathEntry>, deleted: seq<Tombstone<FileMeta>>, lastTick: nat)

  ghost function ViewOf(service: Service): View
    reads service, service.store, service.nodes
  {
    View(service.registry, service.order, service.nodes.down, service.nodes.disk, service.chunkIdCounter, service.nextNodeIndex,
         service.nextNodeId, service.store.entries, service.store.deleted, service.store.lastTick)
  }

  /** The view is the one of state `s`, history aside. */
  ghost predicate Agrees(view: View, s: State) {
    && view.registry == s.registry && IsOrderOf(view.order, s.registry.Keys) && view.down == s.down && view.disk == s.disk
    && view.counter == |s.owner| && view.index == s.nodeIndex < UINT32_SPAN && view.nextId == IdOf(|s.bound|)
    && SameFiles(view.entries, s.entries) && view.deleted == Plain(s.tombs) && view.lastTick <= s.clock
    && s.cleaner.Idle?
  }

  /** A fresh service agrees with every initial state that has its nodes. */
  method NewServiceAgrees(nodes: Nodes, ghost s: State) returns (service: Service)
    requires Init(s) && s.down == nodes.down && s.disk == nodes.disk
    ensures service.Valid() && service.nodes == nodes && Agrees(ViewOf(service), s)
  {
    var store := new Store();
    service := new Service(store, nodes);
  }

  /** What an upload promises determines the disks. */
  lemma TriedDetermines(registry: Registry, down: set<Addr>, order: seq<NodeId>, c0: nat, x0: nat, data: Bytes, k: nat,
                        counter: nat, index: nat, counter': nat, index': nat, disk0: Disk, disk: Disk, disk': Disk)
    requires Tried(registry, down, order, c0, x0, data, k, counter, index, disk0, disk)
    requires Tried(registry, down, order, c0, x0, data, k, counter', index', disk0, disk')
    ensures disk == disk'
  {
    var tried := Planning(order, c0, x0, k);
    forall loc
      ensures (loc in disk <==> loc in disk') && (loc in disk ==> disk[loc] == disk'[loc])
    {
      if b: nat :| b < |tried| && TargetsChunk(registry, down, tried[b], loc) {
        assert ChunkStored(registry, down, disk, tried[b], Slice(data, b)) && ChunkStored(registry, down, disk', tried[b], Slice(data, b));
      }
    }
  }

  lemma TriedAgrees(s: State, name: Name, data: Bytes, order: seq<NodeId>, k: nat, disk: Disk, counter': nat, index': nat, disk': Disk)
    requires TriedAlone(s, order, data, k, disk) && |s.owner| + k < UINT64_SPAN && s.nodeIndex < UINT32_SPAN
    requires Tried(s.registry, s.down, order, |s.owner|, s.nodeIndex, data, k, counter', index', s.disk, disk')
    ensures disk == disk' && counter' == |s.owner| + k && index' == if order == [] then s.nodeIndex else (s.nodeIndex + k) % UINT32_SPAN
  {
    TriedDetermines(s.registry, s.down, order, |s.owner|, s.nodeIndex, data, k, IdAfter(|s.owner|, k),
                    if order == [] then s.nodeIndex else (s.nodeIndex + k) % UINT32_SPAN, counter', index', s.disk, disk, disk');
  }

  /** An upload of `data` can start under this view, and can use up at most the ids there are. */
  ghost predicate CanStart(view: View, s: State, name: Name, data: Bytes) {
    && Agrees(view, s) && name != "" && name !in s.entries
    && |data| <= MAX_UPLOAD && |s.owner| + NumChunks(|data|) < UINT64_SPAN
  }

  /** What the service's upload promises after `t` turns, the metadata aside. */
  ghost predicate ViewTried(view: View, data: Bytes, t: nat, view': View) {
    && Tried(view.registry, view.down, view.order, view.counter, view.index, data, t, view'.counter, view'.index, view.disk, view'.disk)
    && view' == view.(counter := view'.counter, index := view'.index, disk := view'.disk, entries := view'.entries)
  }

  lemma SuccessfulPutAgrees(view: View, s: State, name: Name, data: Bytes, view': View) returns (steps: seq<Step>, s': State)
    requires CanStart(view, s, name, data) && ViewTried(view, data, NumChunks(|data|), view')
    requires CanStore(view.registry, view.down, view.order, view.counter, view.index, NumChunks(|data|))
    requires var meta := FileMeta(|data|, CHUNK_SIZE, Planning(view.order, view.counter, view.index, NumChunks(|data|)));
             view'.entries == view.entries[name := PathEntry(true, meta)]
    ensures Path(s, steps, s') && Agrees(view', s') && name in s'.entries
  {
    var disk;
    steps, disk := PutIsPath(s, name, data, view.order);
    s' := Published(s, name, data, view.order, disk);
    TriedAgrees(s, name, data, view.order, NumChunks(|data|), disk, view'.counter, view'.index, view'.disk);
  }

  lemma FailedPutAgrees(view: View, s: State, name: Name, data: Bytes, view': View) returns (steps: seq<Step>, s': State)
    requires CanStart(view, s, name, data)
    requires !CanStore(view.registry, view.down, view.order, view.counter, view.index, NumChunks(|data|))
    requires ViewTried(view, data, Turns(view.registry, view.down, view.order, view.counter, view.index, 0, NumChunks(|data|)), view')
    requires view'.entries == view.entries
    ensures Path(s, steps, s') && Agrees(view', s') && s'.entries == s.entries
  {
    var t := Turns(view.registry, view.down, view.order, view.counter, view.index, 0, NumChunks(|data|));
    var disk;
    steps, disk := FailedPutIsPath(s, name, data, view.order);
    s' := GivenUp(s, name, data, view.order, t, disk);
    TriedAgrees(s, name, data, view.order, t, disk, view'.counter, view'.index, view'.disk);
  }

  /** A refused upload changes nothing. */
  lemma RefusedPutAgrees(view: View, s: State, data: Bytes, view': View)
    requires Agrees(view, s) && view.counter < UINT64_SPAN && ViewTried(view, data, 0, view') && view'.entries == view.entries
    ensures Agrees(view', s)
  {
    forall loc
      ensures (loc in view.disk <==> loc in view'.disk) && (loc in view.disk ==> view.disk[loc] == view'.disk[loc])
    {
    }
    assert view'.disk == view.disk;
  }

  /** The contract of the service's upload. */
  ghost predicate PutPromises(view: View, requests: seq<PutFileRequest>, status: Status, view': View) {
    var data := Carried(requests);
    var n := NumChunks(|data|);
    && status == UploadStatus(requests, view.entries, view.registry, view.down, view.order, view.counter, view.index)
    && (status != Ok ==> view'.entries == view.entries)
    && (status == Ok ==>
          view'.entries == view.entries[requests[0].filename := PathEntry(true, FileMeta(|data|, CHUNK_SIZE, Planning(view.order, view.counter, view.index, n)))])
    && ViewTried(view, data, if Accepted(requests, view.entries) then Turns(view.registry, view.down, view.order, view.counter, view.index, 0, n) else 0, view')
  }

  lemma PlanIsPlanning(order: seq<NodeId>, counter: nat, index: nat, n: nat)
    requires order != [] || n == 0
    ensures Plan(order, counter, index, n) == Planning(order, counter, index, n)
  {
  }

  lemma {:induction false} AllTurns(view: View, k: nat, n: nat)
    requires k <= n && CanStore(view.registry, view.down, view.order, view.counter, view.index, n)
    ensures Turns(view.registry, view.down, view.order, view.counter, view.index, k, n) == n
    decreases n - k
  {
    if k < n {
      AllTurns(view, k + 1, n);
    }
  }

  lemma PutAgrees(view: View, s: State, requests: seq<PutFileRequest>, status: Status, view': View) returns (steps: seq<Step>, s': State)
    requires Agrees(view, s) && view.counter < UINT64_SPAN && PutPromises(view, requests, status, view')
    requires Accepted(requests, view.entries) ==>
               |Carried(requests)| <= MAX_UPLOAD && |s.owner| + NumChunks(|Carried(requests)|) < UINT64_SPAN
    ensures Path(s, steps, s') && Agrees(view', s')
    ensures if status == Ok then requests != [] && requests[0].filename in s'.entries else s'.entries == s.entries
  {
    var data := Carried(requests);
    if !Accepted(requests, view.entries) {
      RefusedPutAgrees(view, s, data, view');
      steps, s' := [], s;
    } else if status == Ok {
      AllTurns(view, 0, NumChunks(|data|));
      steps, s' := SuccessfulPutAgrees(view, s, requests[0].filename, data, view');
    } else {
      steps, s' := FailedPutAgrees(view, s, requests[0].filename, data, view');
    }
  }

  /** An upload, as the service does it and as the system does it. */
  method PutFileAgrees(service: Service, requests: seq<PutFileRequest>, ghost s: State)
      returns (status: Status, ghost steps: seq<Step>, ghost s': State)
    requires service.Valid() && Agrees(ViewOf(service), s)
    requires Accepted(requests, service.store.entries) ==>
               |Carried(requests)| <= MAX_UPLOAD && |s.owner| + NumChunks(|Carried(requests)|) < UINT64_SPAN
    modifies service`nextNodeIndex, service`chunkIdCounter, service.store`entries, service.store`readCount, service.store`writeCount
    modifies service.nodes`disk
    ensures service.Valid() && Path(s, steps, s') && Agrees(ViewOf(service), s')
    ensures if status == Ok then requests != [] && requests[0].filename in s'.entries else s'.entries == s.entries
  {
    ghost var view := ViewOf(service);
    status := service.PutFile(requests);
    if status == Ok {
      PlanIsPlanning(view.order, view.counter, view.index, NumChunks(|Carried(requests)|));
    }
    assert PutPromises(view, requests, status, ViewOf(service));
    steps, s' := PutAgrees(view, s, requests, status, ViewOf(service));
  }

  /** A download to a client that takes all replies. */
  method GetFileAgrees(service: Service, name: Name, ghost s: State)
      returns (status: Status, sent: seq<Bytes>, ghost steps: seq<Step>, ghost s': State)
    requires service.Valid() && Agrees(ViewOf(service), s)
    modifies service.store`readCount
    ensures service.Valid() && Path(s, steps, s') && Agrees(ViewOf(service), s')
    ensures status == NotFound <==> name !in s.entries
    ensures status == NotFound ==> s' == s
    ensures status != NotFound ==>
              && (status == Ok || status == Internal)
              && s'.readers == s.readers + [Reader(name, s.entries[name], |sent|, Flatten(sent), if status == Ok then Done else Broken)]
  {
    ghost var view := ViewOf(service);
    status, sent := service.GetFile(name, None);
    assert ViewOf(service) == view;
    steps, s' := [], s;
    if name in s.entries {
      steps, s' := DownloadAgrees(view, s, name);
    }
  }

  lemma DownloadAgrees(view: View, s: State, name: Name) returns (steps: seq<Step>, s': State)
    requires Agrees(view, s) && name in s.entries
    ensures Path(s, steps, s') && Agrees(view, s')
    ensures var sent := ReadChunks(view.registry, view.down, view.disk, s.entries[name].meta.chunks);
            s'.readers == s.readers + [Reader(name, s.entries[name], |sent|, Flatten(sent),
                                              if |sent| == |s.entries[name].meta.chunks| then Done else Broken)]
  {
    var f := s.entries[name];
    steps := GetIsPath(s, name);
    s' := Downloaded(s, name, f, 0, [], Sent(s, f, 0));
    assert f.meta.chunks[0..] == f.meta.chunks;
    assert [] + Flatten(Sent(s, f, 0)) == Flatten(Sent(s, f, 0));
  }

  // ---------------------------------------------------------------- registration

  method RegisterAgrees(service: Service, addr: Addr, newOrder: seq<NodeId>, ghost s: State)
      returns (success: bool, nodeId: NodeId, ghost steps: seq<Step>, ghost s': State)
    requires service.Valid() && Agrees(ViewOf(service), s) && |s.bound| < INT32_SPAN
    requires IsOrderOf(newOrder, service.registry.Keys + {service.nextNodeId})
    modifies service`registry, service`order, service`nextNodeId
    ensures service.Valid() && Path(s, steps, s') && Agrees(ViewOf(service), s')
    ensures if success then s'.bound == s.bound + [addr] && nodeId == IdOf(|s.bound|) else s' == s
  {
    success, nodeId := service.RegisterDataNode(addr, newOrder);
    steps, s' := [], s;
    if success {
      PathOne(s, Register(addr));
      NextId(|s.bound|);
      steps, s' := [Register(addr)], Apply(s, Register(addr));
    }
  }

  lemma NextId(k: nat)
    ensures Wrap32(IdOf(k) + 1) == IdOf(k + 1)
  {
  }

  method UnregisterAgrees(service: Service, nodeId: NodeId, newOrder: seq<NodeId>, ghost s: State)
      returns (status: Status, ghost steps: seq<Step>, ghost s': State)
    requires service.Valid() && Agrees(ViewOf(service), s)
    requires IsOrderOf(newOrder, service.registry.Keys - {nodeId})
    modifies service`registry, service`order
    ensures service.Valid() && Path(s, steps, s') && Agrees(ViewOf(service), s')
    ensures if status == Ok then nodeId in s.registry && nodeId !in s'.registry else s' == s
  {
    status := service.UnregisterDataNode(nodeId, newOrder);
    steps, s' := [], s;
    if status == Ok {
      PathOne(s, Unregister(nodeId));
      steps, s' := [Unregister(nodeId)], Apply(s, Unregister(nodeId));
    }
  }

  // ---------------------------------------------------------------- deletion

  lemma {:induction false} PlainKept(tombs: seq<Tombstone<File>>, now: nat)
    ensures Plain(Kept(tombs, now)) == Kept(Plain(tombs), now)
  {
    if |tombs| > 0 {
      PlainKept(tombs[1..], now);
      assert Plain(tombs)[1..] == Plain(tombs[1..]);
    }
  }

  lemma {:induction false} PlainCondemned(tombs: seq<Tombstone<File>>, now: nat)
    ensures Metas(Condemned(Plain(tombs), now)) == PlainMetas(Metas(Condemned(tombs, now)))
  {
    if |tombs| > 0 {
      PlainCondemned(tombs[1..], now);
      assert Plain(tombs)[1..] == Plain(tombs[1..]);
      if Expired(tombs[0], now) {
        assert Metas(Condemned(tombs, now))[1..] == Metas(Condemned(tombs[1..], now));
        assert Metas(Condemned(Plain(tombs), now))[1..] == Metas(Condemned(Plain(tombs)[1..], now));
      }
    }
  }

  function PlainMetas(files: seq<File>): seq<FileMeta> {
    seq(|files|, k requires 0 <= k < |files| => files[k].meta)
  }

  /** The state after a deletion at `deleteTime` that trims at `trimTime`. */
  ghost predicate Buried(s: State, path: Name, deleteTime: nat, trimTime: nat, s': State) {
    && path in s.entries
    && s' == s.(clock := trimTime, entries := s.entries - {path}, tombs := s'.tombs, uploads := s'.uploads)
    && var all := s.tombs + [Tombstone(path, s.entries[path], deleteTime)];
       s'.tombs == if |all| > MAX_DELETED_ENTRIES then Kept(all, trimTime) else all
  }

  lemma TrimIsKept(s: State, path: Name, deleteTime: nat, trimTime: nat)
    requires TombsOk(s) && path in s.entries && s.clock <= deleteTime
    ensures var all := s.tombs + [Tombstone(path, s.entries[path], deleteTime)];
            all[ExpiredPrefix(all, trimTime)..] == Kept(all, trimTime)
  {
    var all := s.tombs + [Tombstone(path, s.entries[path], deleteTime)];
    assert Sorted(all);
    SortedExpiresFirst(all, trimTime);
    PopIsScanExactly(all, trimTime);
  }

  lemma DeletionIsPath(s: State, path: Name, deleteTime: nat, trimTime: nat) returns (s': State)
    requires EntriesOk(s) && TombsOk(s) && s.cleaner.Idle? && path in s.entries && s.clock <= deleteTime <= trimTime
    ensures Path(s, [Tick(deleteTime), DeletePath(path, trimTime)], s') && Buried(s, path, deleteTime, trimTime, s')
  {
    var s1 := s.(clock := deleteTime);
    assert FileOk(s.uploads, s.entries[path]);
    TrimIsKept(s, path, deleteTime, trimTime);
    s' := Deletes(s1, path, trimTime);
    PathTwo(s, Tick(deleteTime), s1, DeletePath(path, trimTime), s');
  }

  lemma BuriedAgrees(view: View, s: State, path: Name, deleteTime: nat, trimTime: nat, s': State, view': View)
    requires Agrees(view, s) && Buried(s, path, deleteTime, trimTime, s')
    requires view' == view.(entries := view.entries - {path}, deleted := view'.deleted, lastTick := trimTime)
    requires var all := view.deleted + [Tombstone(path, view.entries[path].meta, deleteTime)];
             view'.deleted == if |all| > MAX_DELETED_ENTRIES then Kept(all, trimTime) else all
    ensures Agrees(view', s')
  {
    var all := s.tombs + [Tombstone(path, s.entries[path], deleteTime)];
    assert Plain(all) == view.deleted + [Tombstone(path, view.entries[path].meta, deleteTime)];
    PlainKept(all, trimTime);
  }

  method DeleteFileAgrees(service: Service, path: Name, deleteTime: nat, trimTime: nat, ghost s: State)
      returns (status: Status, ghost steps: seq<Step>, ghost s': State)
    requires service.Valid() && Agrees(ViewOf(service), s) && EntriesOk(s) && TombsOk(s)
    requires s.clock <= deleteTime <= trimTime
    modifies service.store
    ensures service.Valid() && Path(s, steps, s') && Agrees(ViewOf(service), s')
    ensures if status == Ok then path in s.entries && path !in s'.entries else s' == s
  {
    ghost var view := ViewOf(service);
    status := service.DeleteFile(path, deleteTime, trimTime);
    steps, s' := [], s;
    if status == Ok {
      s' := DeletionIsPath(s, path, deleteTime, trimTime);
      steps := [Tick(deleteTime), DeletePath(path, trimTime)];
      BuriedAgrees(view, s, path, deleteTime, trimTime, s', ViewOf(service));
    }
  }
}
