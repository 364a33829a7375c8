# Verification of ToyDFS

A Dafny 4.11 model of ToyDFS, a replicated chunk store, with proofs of what the store promises its
users. `dafny verify dfyconfig.toml` checks the whole project.

A coordinator cuts every file into chunks of one mebibyte, gives each chunk a fresh id, picks
three data nodes for it in rotation, writes all replicas at once, waits for all of them, and only
then makes the file visible. Reads try the replicas in order. A deleted file becomes a tombstone; a
background worker deletes its chunks when the tombstone is more than five minutes old.

## How the model is laid out

| file | what it holds |
|---|---|
| `Types.dfy`, `Chunking.dfy` | values; cutting an upload into chunks, with the 32-bit product that limits its size |
| `Framing.dfy` | the stream loops of client, coordinator, stub and data node, and their composition |
| `Placement.dfy`, `Rounds.dfy` | round-robin selection, its fairness, its behaviour at the counter's wrap; fairness over whole runs |
| `Tombstones.dfy`, `MetadataStore.dfy` | the two clean-up loops as functions on queues; the metadata store as a class |
| `Cluster.dfy`, `Coordinator.dfy` | data nodes, the chunk deleter, the coordinator service, clients and data node servers as classes, one call at a time |
| `ReplicaWrites.dfy` | several writers truncating and writing one file |
| `NodeIds.dfy`, `ChunkPath.dfy`, `Directories.dfy` | 32-bit node ids; chunk names, paths and leaf directories; recursive mkdir |
| `Protocol.dfy` | the whole system as a state machine: 29 kinds of steps that interleave freely |
| `Invariant.dfy`, `Preservation.dfy`, `DiskPreservation.dfy` | the inductive invariant and the proof that every step keeps it |
| `Safety.dfy`, `Refinement.dfy`, `Lifetimes.dfy`, `Reclamation.dfy`, `Progress.dfy`, `LateReads.dfy`, `GraceTime.dfy`, `Outages.dfy`, `Interleavings.dfy` | what follows for all runs |
| `Paths.dfy`, `LateRun.dfy` | sequences of steps; one run in full: a file stored, looked up, deleted and swept before it is read |
| `Views.dfy`, `Agreement.dfy`, `PassView.dfy` | every call of the service class is a sequence of steps of the state machine |

There are two views of the coordinator. `Coordinator.Service` is the source's code, call by call and
loop by loop, on a cluster that does not change during the call; its methods state the exact new
state and status. `Protocol` cuts the same calls where other threads get in: each critical
section of the metadata store, each selection of nodes, each open, write and close of a replica, and
each call to a node, together with the registry lookup before it, is one step. Critical sections that
change nothing and start nothing (a refused upload's check, a deletion's lookup, a deletion that finds
its name gone) are no steps. A run is any sequence of steps from a fresh coordinator, with data nodes
holding arbitrary files; the results about the protocol hold of every state of every run.

The two views agree: from every state of the machine that holds what the service and its nodes hold,
whatever a call of the service does, a sequence of steps does too, and ends in a state that agrees
again (`Agreement`, `PassView`).

The invariant ties together the chunk id counter and the owner of each id, running uploads and
their writers, active entries, tombstones, the cleanup worker, running downloads, the registry and
all disks. Two things make it work: a chunk file of an unfinished upload is described by the
convergence argument of `ReplicaWrites` until the join, and by equality with the chunk's bytes from
then on; and nodes are tracked by the address their id was first given to, so that a chunk stays
where it was written while nodes leave and others come.

### Where code and documentation differ, or an expected property is false

- An upload checks that its name is free and commits in two separate critical sections, so a put can
  overwrite (`Lifetimes.RacingUploadsBothCommit`). It overwrites a file exactly when that file was
  committed under the name between the put's own check and commit, and is still there
  (`Lifetimes.CommitOverwritesExactly`); puts of one name that do not overlap never overwrite
  (`Lifetimes.PutsInTurnKeepFiles`). Downloads still return one whole upload, never a mix.
- Fairness of the placement is lost when the 32-bit selection counter wraps: every n selections in a
  row are fair from every counter value exactly when n divides 2^32 or the number of replicas
  (`Placement.AlwaysFairExactly`); with five nodes and three replicas, the round from counter value
  2^32 - 1 gives one node four replicas and another two (`Placement.FiveNodesUnfairAtWrap`).
- The front-popping trim of tombstones equals the full scan exactly when no expired tombstone stands
  behind a fresh one (`Tombstones.PopIsScanExactly`); the store keeps the queue sorted, so it does.
- Node ids repeat exactly at distances that are multiples of 2^32, and from the 2^31st registration on
  a server no longer unregisters when it stops (`NodeIds.IdsRepeatExactly`, `NodeIds.PositiveIdsExactly`).
- The start of a chunk is a product of two 32-bit integers; it fits exactly for uploads of at most 2^31
  bytes (`Chunking.StartsFitExactly`).
- The data node parses chunk numbers with a 32-bit conversion, so chunks from number 2^31 on cannot be
  stored; uploads then fail, and every result here includes that case.
- The repository's README.md calls the replication level configurable; the code always uses three.
- The comment at coordinator/src/coordinator_service_impl.cpp:169-170 says that tombstones protect running
  reads. A download can break although its node is registered and up all the time: look a file up,
  delete it, let a pass take up the over-age tombstone, then read (`LateRun.LateDownloadBreaks`, a whole
  run on one node with a file of one byte). With all its nodes staying registered and up, a download
  that has ended is broken exactly if at some time since its lookup all copies of a chunk were gone that
  it had not got past (`LateReads.BreaksExactly`), which takes a pass that took up the file as an
  over-age tombstone (`LateReads.BreaksOnlyWhenTakenUp`). What a caller can rely on is a time: a budget
  protects every download that has working nodes exactly if it is at most the five minutes of the
  tombstones' lifetime (`GraceTime.GraceTimeExactly`). Once a pass has dropped the tombstone, a download
  that has still to read a chunk whose nodes were all alive never ends well
  (`LateReads.TooLateNeverEndsWell`). All this is about a download that keeps the metadata it looked up;
  see "Left out" on the pointer the source keeps instead.
- A deletion checks that its name exists and deletes it in two separate critical sections, and answers OK
  whatever the second finds. It finds nothing exactly when another deletion removed the name in between
  and nothing committed it again (`Lifetimes.DeleteFindsNothingExactly`), and finds the very file it
  looked up exactly when nothing deleted or committed the name in between
  (`Lifetimes.DeletesSameFileExactly`).

## Model

| member | source | states |
|---|---|---|
| Chunking.ChunksCover | coordinator/src/coordinator_service_impl.cpp:80-109 | the chunks of an upload are non-empty, at most one mebibyte, all but the last exactly that, and give the upload back in order |
| Chunking.StartsFitExactly | coordinator/src/coordinator_service_impl.cpp:80-107 | every chunk start fits a signed 32-bit integer if and only if the upload has at most 2^31 bytes |
| Framing.InputFile.Read | client/src/dfs_client.cpp:55-62 | one read of a 4096-byte buffer: the bytes it delivers, the bytes of the buffer it leaves, and when it counts as full |
| Framing.SendFile | client/src/dfs_client.cpp:47-67 | the client's loop with its reused buffer and request sends the name and then the file in blocks |
| Framing.FramesFlatten | client/src/dfs_client.cpp:54-67 | the blocks put together are the file |
| Framing.FramesShape | client/src/dfs_client.cpp:54-67 | no block is empty or too long, all but the last are full, and their number is the size over 4096 rounded up |
| Framing.SendChunk | datanode/src/datanode_service_impl.cpp:61-73 | a node's reply loop sends exactly the blocks of the chunk file |
| Framing.StoreChunk | datanode/src/datanode_service_impl.cpp:31-46 | the first message truncates the file, all messages are appended; an empty stream leaves the file alone |
| Framing.Append | client/src/dfs_client.cpp:106-110 | appending all replies gives their concatenation |
| Framing.ReadReply | datanode/src/datanode_stub_wrapper.cpp:44-59 | the stub's status rule, and that the caller's vector is untouched unless the call ended well with at least one message |
| Framing.UploadCarries | coordinator/src/coordinator_service_impl.cpp:65-74 | what the coordinator accumulates from a client's stream is the file |
| Framing.UploadStreamShape | client/src/dfs_client.cpp:47-67 | every message of an upload carries the name, the first no bytes, all others a block of at most 4096 bytes, and only the last a shorter one |
| Framing.CarriedNext | coordinator/src/coordinator_service_impl.cpp:65-74 | each message of a stream, the first included, adds its bytes to what the coordinator has |
| Framing.EndToEnd | coordinator/src/coordinator_service_impl.cpp:65-157 | upload framing, chunking, node framing and download framing compose to the identity on every file |
| Placement.SelectShape | coordinator/src/coordinator_service_impl.cpp:328-338 | a selection has as many entries as replicas, all registered; they are distinct when there are enough nodes, and otherwise each node gets the floor or the ceiling of its share |
| Placement.SelectDistinct | coordinator/src/coordinator_service_impl.cpp:328-338 | a selection uses as many different nodes as there are, up to the number of replicas |
| Placement.SelectStarts | coordinator/src/coordinator_service_impl.cpp:333-338 | a selection starts with the node at the counter modulo the number of nodes |
| Placement.SelectWalks | coordinator/src/coordinator_service_impl.cpp:335-338 | after each node it takes the next one in the registry's order, and after the last the first |
| Placement.StartOfCounter | coordinator/include/coordinator_service_impl.h:88 | the selection counter counts modulo 2^32 |
| Placement.OrderExists | coordinator/src/coordinator_service_impl.cpp:318-321 | every registry has an iteration order, with one entry for each node |
| Placement.RoundIsFair | coordinator/src/coordinator_service_impl.cpp:328-338 | n selections in a row give each of n nodes exactly the replication factor, without a wrap of the counter |
| Placement.LoadsStayClose | coordinator/src/coordinator_service_impl.cpp:328-338 | over any number of selections two loads differ by at most the replication factor |
| Placement.AlwaysFairExactly | coordinator/include/coordinator_service_impl.h:88 | with the 32-bit counter's wrap included, every round is fair if and only if n divides 2^32 or the replication factor |
| Placement.FiveNodesUnfairAtWrap | coordinator/include/coordinator_service_impl.h:88 | five nodes and three replicas: the five selections from counter value 2^32 - 1 give the third node four replicas and the fifth two |
| Rounds.AllocationsAreSelections | coordinator/src/coordinator_service_impl.cpp:89-104 | in any run, chunks of any number of interleaving uploads are placed as successive selections while the node order stays the same |
| Rounds.CounterCounts | coordinator/src/coordinator_service_impl.cpp:333 | in any run the selection counter has advanced by the number of allocations, modulo 2^32 |
| Rounds.RunIsFair | coordinator/src/coordinator_service_impl.cpp:328-338 | fairness of placement over any stretch of any run with one node order and no wrap |
| Tombstones.PopIsScanExactly | coordinator/include/metadata_store.h:119-153 | popping expired tombstones from the front leaves what the full scan leaves if and only if no expired one stands behind a fresh one |
| Tombstones.SortedExpiresFirst | coordinator/include/metadata_store.h:119-132 | a queue sorted by deletion time meets that condition at every time |
| Tombstones.PopNeedsOrder | coordinator/include/metadata_store.h:119-132 | a queue out of order on which popping is not scanning |
| Tombstones.ScanSplits | coordinator/include/metadata_store.h:134-153 | a scan loses and invents no tombstone: kept and removed ones make up the queue |
| Tombstones.KeptStaysSorted | coordinator/include/metadata_store.h:134-153 | a scan keeps the queue sorted |
| Tombstones.KeptShape | coordinator/include/metadata_store.h:139-147 | what a scan keeps is not expired, and was there |
| Tombstones.KeptAppend | coordinator/include/metadata_store.h:139-152 | a scan keeps the queue's order, and keeps a tombstone of at most five minutes |
| Tombstones.CondemnedAppend | coordinator/include/metadata_store.h:139-152 | it hands the others to the deleter in the queue's order |
| MetadataStore.Store.PutFile | coordinator/include/metadata_store.h:50-54 | the entry under the name is replaced, nothing else, and the write counter counts |
| MetadataStore.Store.GetFile | coordinator/include/metadata_store.h:57-64 | the metadata of an active file, none otherwise |
| MetadataStore.Store.Exists | coordinator/include/metadata_store.h:88-92 | whether a name is active |
| MetadataStore.Store.DeletePath | coordinator/include/metadata_store.h:67-85 | the file becomes a tombstone at the back, an overfull queue is trimmed as a full scan would, and the tombstone counter is the queue's length again when the lock is released |
| MetadataStore.Store.CleanupOldTombstones | coordinator/include/metadata_store.h:119-132 | the early-breaking pop loop leaves what a full scan leaves, and keeps the counter one behind, as its caller needs |
| MetadataStore.Store.CleanupTombstones | coordinator/include/metadata_store.h:95-98 | under the lock: one deleter call for each expired tombstone in order, which then go |
| MetadataStore.Store.CleanupOldTombstonesInternal | coordinator/include/metadata_store.h:134-153 | the erasing scan against its specification, and the counter's equality with the queue's length |
| Cluster.ReadChunkFirstUsable | coordinator/src/coordinator_service_impl.cpp:465-500 | the fallback finds a chunk if and only if some listed node is registered, reachable and holds it, and the first such node serves it |
| Cluster.DownloadOutcome | coordinator/src/coordinator_service_impl.cpp:136-158 | on a fixed state a download is whole if and only if every chunk is readable; otherwise it has sent exactly the chunks before the first unreadable one |
| Cluster.Nodes.PutChunk | datanode/src/datanode_service_impl.cpp:27-50 | one file written whole, through the node's write loop, or a failed call |
| Cluster.Nodes.GetChunk | datanode/src/datanode_service_impl.cpp:53-74 | the chunk's bytes through blocks and stub, exactly when the node answers and holds it |
| Cluster.Nodes.DeleteChunk | datanode/src/datanode_service_impl.cpp:76-96 | deletion succeeds for a missing chunk too |
| Cluster.ChunkDeleter.Delete | coordinator/src/coordinator_service_impl.cpp:515-555 | all copies on registered, answering nodes go, repeated node ids are harmless, no other file changes |
| Cluster.CleanedStep | coordinator/src/coordinator_service_impl.cpp:515-555 | cleaning up one tombstone after others is cleaning up all of them |
| Cluster.CleanedExactly | coordinator/src/coordinator_service_impl.cpp:515-555 | a chunk file goes if and only if its chunk is listed in an expired tombstone for a node that is registered at the file's address and up |
| Coordinator.Service.RegisterDataNode | coordinator/src/coordinator_service_impl.cpp:191-237 | refused exactly when the address is taken; otherwise the next 32-bit id is bound to it |
| Coordinator.Service.UnregisterDataNode | coordinator/src/coordinator_service_impl.cpp:240-273 | the id leaves the registry, not found if it was not there |
| Coordinator.Service.SelectNodesForReplication | coordinator/src/coordinator_service_impl.cpp:295-348 | the loop selects the window that the placement results are about, and when it selects nothing |
| Coordinator.Service.DistributeChunkToSingleNode | coordinator/src/coordinator_service_impl.cpp:371-401 | succeeds exactly when the node is registered and answers, and then the chunk is there |
| Coordinator.Service.DistributeChunkToNodes | coordinator/src/coordinator_service_impl.cpp:404-454 | succeeds exactly when there are nodes and all answer; every answering node gets the chunk even if another fails; nothing else changes |
| Coordinator.Service.PutFile | coordinator/src/coordinator_service_impl.cpp:57-125 | the status in the caller's terms: refused exactly for an active or a missing name, otherwise Ok if and only if nothing was carried or all selected nodes of all chunks take their copy, so always if nodes are registered, all are up and the ids last; Ok means every chunk is on all its nodes and only then the name is visible; a failure leaves all names as they were; in every case the exact counters, and the disks changed by the chunks up to the first failing one and by nothing else |
| Coordinator.StoresExactly | coordinator/src/coordinator_service_impl.cpp:89-119 | the chunk loop succeeds if and only if every node that is selected for a chunk is registered and up and can parse its id |
| Coordinator.PlanIs | coordinator/src/coordinator_service_impl.cpp:89-104 | chunk k of an upload gets the k-th next id, and the nodes of the k-th next selection, three of them |
| Coordinator.Service.StoreChunks | coordinator/src/coordinator_service_impl.cpp:79-120 | the chunk loop with its 32-bit arithmetic: how many turns it takes, the counters after them, the copies written and the frame, on success and on failure |
| Coordinator.Service.StoreNextChunk | coordinator/src/coordinator_service_impl.cpp:89-119 | one turn of that loop; an id is used up even without nodes |
| Coordinator.Service.ReadChunkWithFallback | coordinator/src/coordinator_service_impl.cpp:457-501 | the fallback loop reads what the first usable node holds |
| Coordinator.Service.GetFile | coordinator/src/coordinator_service_impl.cpp:127-159 | status and replies of a download: the readable chunks in order, cut off where a write to the client fails, and Ok exactly when all chunks were sent |
| Coordinator.Service.DeleteFile | coordinator/src/coordinator_service_impl.cpp:161-188 | the name goes at once, its tombstone comes, no chunk is touched |
| Coordinator.Service.CleanupPass | coordinator/src/coordinator_service_impl.cpp:504-557 | which tombstones go, and the exact disks after the pass |
| Coordinator.CleanupEffect | coordinator/src/coordinator_service_impl.cpp:515-555 | after a pass no listed node can hand out a chunk of an expired tombstone, and files of other chunks are as before |
| Coordinator.HeldFileReads | coordinator/src/coordinator_service_impl.cpp:136-158 | a file that is fully stored is read back byte for byte |
| Coordinator.PutFileSync | client/src/dfs_client.cpp:36-79 | the exact outcome of a client's upload in the caller's terms, success included, and that a successful one leaves the whole file stored under its name |
| Coordinator.GetFileSync | client/src/dfs_client.cpp:98-122 | not found exactly for names that are not active, otherwise a success exactly when every chunk has a usable node; then the concatenated chunks, and of a stored file its content |
| Coordinator.PutThenGet | README.md:233 | what was put is what is got, for every content in range, and the put succeeds whenever nodes are registered, all are up, and name and ids allow it |
| Coordinator.DataNodeServer.Start | server/src/datanode_server.cpp:27-37 | the server keeps the id of a registration that succeeded, and goes on without one otherwise |
| Coordinator.DataNodeServer.Stop | server/src/datanode_server.cpp:40-52 | only a positive id is unregistered |
| Views.PutIsPath | coordinator/src/coordinator_service_impl.cpp:57-125 | from any state, an upload of any size on answering nodes is a sequence of steps that ends with the counters, disks and metadata that the service class promises |
| Views.FailedPutIsPath | coordinator/src/coordinator_service_impl.cpp:89-119 | so is an upload some chunk of which has no nodes or one that does not answer, up to the failing chunk |
| Agreement.GetIsPath | coordinator/src/coordinator_service_impl.cpp:127-159 | a download by itself is a sequence of steps that sends the readable chunks and ends well exactly when all are readable |
| Agreement.NewServiceAgrees | coordinator/include/coordinator_service_impl.h:79-90 | a fresh service agrees with every initial state that has its nodes |
| Agreement.PutFileAgrees | coordinator/src/coordinator_service_impl.cpp:57-125 | every upload of the service, accepted or not, is a sequence of steps to a state that agrees with the service's again |
| Agreement.GetFileAgrees | coordinator/src/coordinator_service_impl.cpp:127-159 | so is every download, with the same bytes sent and the same outcome |
| Agreement.DeleteFileAgrees | coordinator/src/coordinator_service_impl.cpp:161-188 | so is every deletion, its trimming of an overfull queue included |
| Agreement.RegisterAgrees | coordinator/src/coordinator_service_impl.cpp:191-237 | so is every registration |
| Agreement.UnregisterAgrees | coordinator/src/coordinator_service_impl.cpp:240-273 | so is every unregistration |
| PassView.PassIsPath | coordinator/include/metadata_store.h:134-153 | a cleanup pass by itself is a sequence of steps that leaves the tombstones that are kept and the disks without what the deleter takes |
| PassView.CleanupAgrees | coordinator/src/coordinator_service_impl.cpp:504-557 | so is every cleanup pass of the service |
| NodeIds.IdsRepeatExactly | coordinator/include/coordinator_service_impl.h:85 | two registrations share an id if and only if they are a multiple of 2^32 apart |
| NodeIds.PositiveIdsExactly | server/src/datanode_server.cpp:42 | exactly the first 2^31 - 1 registrations get an id that Stop will unregister |
| ReplicaWrites.WritersConverge | datanode/src/datanode_service_impl.cpp:34-46 | any number of writers of one file, any interleaving of truncating opens and piecewise writes: when all have closed, the file is exactly the data |
| ReplicaWrites.OneClosedIsNotEnough | coordinator/src/coordinator_service_impl.cpp:425-431 | why the join must wait for all: after one writer has closed the file can still be wrong |
| ReplicaWrites.WriteCovers | datanode/src/datanode_service_impl.cpp:44 | a piecewise write keeps some writer's whole progress in the file, holes and leftovers included |
| ReplicaWrites.WriteAtShape | datanode/src/datanode_service_impl.cpp:44 | a write changes its own range alone, and a gap before it reads as zeros |
| ReplicaWrites.HoleInBetween | datanode/src/datanode_service_impl.cpp:38-44 | while two writers are at work the file can have a hole |
| DiskPreservation.StepKeepsInv | coordinator/src/coordinator_service_impl.cpp:57-557 | each of the 29 steps keeps the invariant of ids, uploads, entries, tombstones, cleanup, downloads, registry and disks |
| DiskPreservation.JoinedChunk | coordinator/src/coordinator_service_impl.cpp:425-453 | when all writers of a chunk have been joined, every listed node holds exactly the chunk |
| Safety.RunKeepsInv | coordinator/src/coordinator_service_impl.cpp:57-557 | the invariant in every state of every run |
| Safety.ChunkIdsDisjoint | coordinator/src/coordinator_service_impl.cpp:86-92 | no two uploads, whatever has become of them, share a chunk id, and all ids are below the counter |
| Safety.CleanupSparesLiveChunks | coordinator/src/coordinator_service_impl.cpp:515-555 | whenever the worker asks for a deletion, the chunk is of no active file, no running upload and no other tombstone, and its tombstone is over age |
| Safety.ActiveFilesStored | README.md:233 | in every reachable state every chunk of every active file is on each of its nodes' addresses, byte for byte |
| Safety.ReadableExactly | coordinator/src/coordinator_service_impl.cpp:136-158 | a file nothing has deleted chunks of can be read whole if and only if each chunk has a node still registered and up, and then gives the uploaded bytes |
| Safety.ReplicasOnDistinctNodes | coordinator/src/coordinator_service_impl.cpp:198-210 | each chunk is on as many different nodes and addresses as were registered when it was placed, up to three |
| Safety.SurvivesLosses | coordinator/src/coordinator_service_impl.cpp:465-496 | an active file stays readable after the loss of any min(3, n) - 1 nodes, by unregistration or outage (Outages.DownExactly, Outages.RegisteredExactly) |
| Outages.DownExactly | coordinator/src/coordinator_service_impl.cpp:482-496 | over runs: a node is out if and only if the last step about it took it down, or none was about it and it was out at first |
| Outages.OutageLasts | coordinator/src/coordinator_service_impl.cpp:477-496 | from an outage until the comeback, the node hands out no chunk and the download goes on to the next replica, it takes no chunk, and it deletes none |
| Outages.ComebackLasts | coordinator/src/coordinator_service_impl.cpp:477-489 | from the comeback until the next outage, it hands out exactly the chunks it holds, and takes new ones |
| Outages.RegisteredExactly | coordinator/src/coordinator_service_impl.cpp:212-258 | over runs: a node id is registered if and only if some registration gave it and no unregistration has taken it out, with the address of that registration |
| Outages.FileSince | datanode/src/datanode_service_impl.cpp:34-89 | over runs: a chunk file is what the last open, write, late write or deletion at its place made of it |
| Outages.OutagesAnytime | coordinator/src/coordinator_service_impl.cpp:480-496 | nothing in the system holds up outages, comebacks, time and failing calls |
| Outages.LateBytesAnytime | datanode/src/datanode_service_impl.cpp:34-45 | bytes of failed calls of a failed upload can still arrive anywhere, at any time |
| Interleavings.StepsAreIndependent | coordinator/src/coordinator_service_impl.cpp:412-431 | whether a step can be taken depends on its own object alone: uploads, downloads, registrations and outages do not wait for each other, and only the store's critical sections wait for its lock |
| Interleavings.RunGoesOn | coordinator/src/coordinator_service_impl.cpp:57-557 | a run can go on with every step that can be taken |
| Interleavings.AnyStart | coordinator/include/coordinator_service_impl.h:79-90 | runs start from any disks, outages and time |
| Interleavings.MoveIsStep | datanode/src/datanode_service_impl.cpp:34-46 | writers of one shared file can move exactly as ReplicaWrites says, and each move is a step of the system |
| Interleavings.MovesArePath | coordinator/src/coordinator_service_impl.cpp:330-338 | every interleaving of the writers of one chunk on one node happens in the system |
| Interleavings.UploadsAreBegun | coordinator/src/coordinator_service_impl.cpp:57-76 | every upload has the name and the bytes that it began with |
| Interleavings.DownloadedDataWasPut | coordinator/src/coordinator_service_impl.cpp:57-159 | what a download has sent is a chunk prefix of the bytes of one put of this very name, and all of them when it ends well |
| Refinement.StepRefines | coordinator/src/coordinator_service_impl.cpp:122-171 | every step is one step of a map from names to bytes: a store, a removal or nothing |
| Refinement.RunRefines | coordinator/src/coordinator_service_impl.cpp:57-188 | every state of every run stands for the map that the events before it made |
| Refinement.EntryOrigin | coordinator/include/metadata_store.h:50-85 | every visible file was stored by one commit, and not replaced or removed since |
| Refinement.ReaderOrigin | coordinator/src/coordinator_service_impl.cpp:131 | every download holds the metadata that its own lookup found |
| Refinement.DownloadIsOneUpload | coordinator/src/coordinator_service_impl.cpp:127-159 | what a download has sent is always a chunk prefix of one single upload, the one its name stood for at the lookup, and all of it when it ends well, under every interleaving |
| Lifetimes.FatesAdvance | coordinator/include/metadata_store.h:50-85 | a committed file stays accounted for, becomes a tombstone at most once, and its end is final |
| Lifetimes.FatesAccounted | coordinator/include/metadata_store.h:67-85 | active files are exactly those the entries refer to, pending ones exactly those with a tombstone, one each |
| Lifetimes.CommitOverwritesExactly | coordinator/src/coordinator_service_impl.cpp:69-122 | over runs: the commit of a put that began at some step overwrites another upload if and only if that upload was committed under the name between the two, and not deleted or overwritten since |
| Refinement.HoldsExactly | coordinator/include/metadata_store.h:50-85 | over runs: a name stands for an upload if and only if that upload's commit is the last step that touched the name |
| Lifetimes.PutsInTurnKeepFiles | coordinator/src/coordinator_service_impl.cpp:69-122 | of two puts of one name of which one begins after the other has ended, the later never overwrites the earlier |
| Lifetimes.RacingUploadsBothCommit | coordinator/src/coordinator_service_impl.cpp:69-122 | a run in which two uploads of one free name both succeed |
| Lifetimes.DeleteFindsNothingExactly | coordinator/src/coordinator_service_impl.cpp:164-171 | a deletion whose lookup found the name finds nothing to delete if and only if another deletion removed the name in between and nothing committed it again |
| Lifetimes.DeletesSameFileExactly | coordinator/src/coordinator_service_impl.cpp:164-171 | it finds the file it looked up if and only if no step deleted or committed the name in between |
| Lifetimes.GraceWindow | coordinator/src/coordinator_service_impl.cpp:169-171 | a download does not fail because its file is deleted while the tombstone is young and some node of each chunk stays, whatever else happens |
| Lifetimes.IdsBoundForever | coordinator/src/coordinator_service_impl.cpp:212-221 | a node id has one address for the rest of the run |
| Lifetimes.UnregisteredForever | coordinator/src/coordinator_service_impl.cpp:240-258 | an id that has left the registry never comes back |
| Lifetimes.LostForever | coordinator/src/coordinator_service_impl.cpp:465-472 | a file with a chunk whose nodes have all unregistered is unreadable for the rest of the run |
| Lifetimes.StaleStopHitsOwner | server/src/datanode_server.cpp:40-48 | a stop, however late, removes the server's own registration and no other server's |
| Reclamation.GoneForever | datanode/src/datanode_service_impl.cpp:79-89 | a copy of a committed file that is gone never comes back |
| Reclamation.ReclaimedCopiesGone | coordinator/src/coordinator_service_impl.cpp:515-555 | when a pass drops a tombstone, every copy on a node that stayed registered and up during its turn is gone, for the rest of the run |
| Reclamation.PassSweeps | coordinator/include/metadata_store.h:134-153 | a whole pass, with everything else interleaving, leaves exactly the tombstones not expired at its start, and has reclaimed the files of all others |
| Reclamation.ForgottenStayStored | coordinator/include/metadata_store.h:119-132 | a file whose tombstone an overflow trimmed stays stored on all its nodes for the rest of the run |
| LateReads.BreaksOnlyWhenTakenUp | coordinator/src/coordinator_service_impl.cpp:169-171 | a download that breaks although a node of each chunk stays alive breaks because a pass took up its file as an over-age tombstone since the lookup |
| LateReads.BreaksExactly | coordinator/src/coordinator_service_impl.cpp:136-158 | a download whose nodes all stay alive, once ended, is broken if and only if at some time since its lookup all copies of a chunk were gone that it had not got past |
| GraceTime.GraceTimeExactly | coordinator/include/metadata_store.h:41 | a time budget protects every download with working nodes, whatever else happens, if and only if it is at most the tombstones' lifetime |
| LateReads.TooLateNeverEndsWell | coordinator/src/coordinator_service_impl.cpp:515-555 | once a pass has dropped the tombstone, a download not past a chunk whose nodes were all alive never ends well |
| LateRun.LateDownloadBreaks | coordinator/src/coordinator_service_impl.cpp:169-171 | a run of 24 steps on one working node that stores a file of one byte and breaks its download |
| Progress.ReaderHasNextStep | coordinator/src/coordinator_service_impl.cpp:465-500 | a running download can always take exactly one step, and which |
| Progress.DownloadEnds | coordinator/src/coordinator_service_impl.cpp:136-158 | each of its steps brings a download nearer to its end, and no other step interferes |
| Progress.PassHasNextStep | coordinator/include/metadata_store.h:139-152 | a cleanup pass can always take exactly one step, and which |
| Progress.PassEnds | coordinator/include/metadata_store.h:95-98 | each of its steps brings a pass nearer to giving the lock back, and no other step adds to its work |
| Progress.UploadHasNextStep | coordinator/src/coordinator_service_impl.cpp:89-122 | an upload of which no call has failed can allocate, open, write at least one byte, close, join or commit if and only if it does not wait for a pass to release the lock, does not lack registered nodes, and does not wait for nodes that do not answer |
| Progress.UploadEnds | coordinator/src/coordinator_service_impl.cpp:89-122 | each step of an upload, but a write of nothing, brings it nearer to its end, and no other step touches it |
| ChunkPath.StoiOfString | datanode/src/datanode_utils.cpp:29 | parsing a printed number gives it back if and only if it fits 32 bits |
| ChunkPath.StoiReads | datanode/src/datanode_utils.cpp:29 | blanks, a sign and whatever follows the digits are read as the library reads them |
| ChunkPath.StoiNeedsDigits | datanode/src/datanode_utils.cpp:29 | without a digit there is no number |
| ChunkPath.DigitsAre | datanode/src/datanode_utils.cpp:43-49 | the printed form of the ten digits, of longer numbers digit by digit, and of negative ones |
| ChunkPath.ChunkTextPath | datanode/src/datanode_utils.cpp:26-49 | the path of a name is that of the number its text reads as, and there is none if it reads as none |
| ChunkPath.ChunkNamePath | datanode/src/datanode_utils.cpp:24-50 | the file of every chunk name, and the failure beyond 2^31 |
| ChunkPath.ChunkPathLevels | datanode/src/datanode_utils.cpp:31-49 | root, node directory, a level of the number's millions, one of its thousands modulo a thousand, and a file of the number, each of which reads back |
| ChunkPath.BasePathIs | datanode/src/datanode_utils.cpp:32-35 | the root comes first, then the node's directory if it has a name |
| ChunkPath.NegativeLevels | datanode/src/datanode_utils.cpp:38-43 | the levels of a number below zero |
| ChunkPath.OtherNamesArePaths | datanode/src/datanode_utils.cpp:26-28 | a name that does not begin with "chunk_" is a path itself |
| ChunkPath.UpperDirsExactly | datanode/src/datanode_utils.cpp:39-43 | two chunks share the directory above the leaf if and only if they are in the same million |
| ChunkPath.ChunkFilesDistinct | datanode/src/datanode_utils.cpp:24-50 | under one configuration two chunks share a file if and only if they are the same |
| ChunkPath.LeafDirsExactly | datanode/src/datanode_utils.cpp:38-43 | the leaf directory of chunk n is that of chunk m if and only if m is one of the thousand numbers of n's block, so it holds at most a thousand files |
| Directories.FileSystem.Mkdir | datanode/src/datanode_utils.cpp:13-14 | one mkdir: found there, or made exactly if the place is missing, its parent is a directory and nothing refuses it |
| Directories.CreateDirectoriesRecursively | datanode/src/datanode_utils.cpp:8-22 | ends, succeeds exactly when nothing stands in the way, then every ancestor is there and nothing else has been made; when it fails, exactly the places before the first that stands in the way have been made |
| Directories.SecondCallMakesNothing | datanode/src/datanode_utils.cpp:8-22 | a second call succeeds and changes nothing |
| Directories.SegmentNames | datanode/src/datanode_utils.cpp:11-12 | the names of a path are what stands between its slashes |
| Directories.SamePlaceExactly | datanode/src/datanode_utils.cpp:8-22 | paths of equal names lead to the same place if and only if both or neither start with a slash |

## Left out

- Uploads of more than 2^31 bytes: the chunk arithmetic overflows a signed integer there, which C++ leaves undefined.
- Runs with 2^64 or more chunk allocations, and runs with more than 2^32 registrations (`NodeIds` proves what the node id counter does beyond).
- The pointer into the entries map that `getFile` returns after releasing its lock: a download works on the metadata as it was at the lookup, which is the behaviour the comments intend.
- The missing lock around the registry and the C++ memory model: each registry access is one atomic step, and the id and the nodes of a chunk are taken in one step.
- Disk write errors and short writes: the source never checks them, and the model assumes that writes succeed.
- Broken client streams: the source takes a broken stream for its end; uploads are stated for the bytes that arrived, and the end-to-end results assume whole delivery.
- A restart of the coordinator: neither the metadata nor the counters are durable.
- Random node suffixes and chunk root configuration: a node's disk belongs to its address and outlives outages; a restart under a new directory is not modelled.
- Stored chunks that no file refers to: they are possible after failed uploads, racing overwrites, nodes absent at cleanup and overflow trimming, so only the direction "every referenced chunk is stored" is claimed.
- A cap on the number of tombstones: the limit of 10000 only triggers trimming by age.
- Coordinator.Service.PutFile: the class view is one thread on a fixed set of reachable nodes, with replicas written one after the other; interleavings, failing nodes and the concurrent writers are in `Protocol`.
- A write to the downloading client that fails, in `Protocol`: it ends the call with an error and changes nothing else; `Coordinator.Service.GetFile` has the case, and `Agreement.GetFileAgrees` is about clients that take all replies.
- A DeleteChunk call that takes effect after the coordinator has seen it fail: a delete happens at its step or not at all.
- Cluster.Nodes.PutChunk: a chunk file that cannot be opened has no case of its own; in `Protocol` it is one of the ways a writer fails.
- Cluster.Nodes.DeleteChunk: a removal that fails for another reason than a missing file, after which the source still reports OK and the file stays, has no case, here and in `Protocol`.
- A delete call that never returns: the cleanup pass would keep the lock for good; every step of a pass is assumed to come about in the end.
- An unregistration between a registry lookup and the call that follows it: the steps that write, read or delete a copy take both at once, so a call to a node that has just left is not a behaviour of the model.
- The iteration order of the registry's hash table: a parameter of the methods and steps that depend on it.
- Directories.FileSystem.Mkdir: knows no symbolic links and no special meaning of "." and "..".
- gRPC plumbing, server start and stop, command lines, the client's threads, futures and exceptions, `resolveNodeAddresses`, `extractClientAddress`, error texts and logging: no state worth a proof.
- The cleanup thread's lazy start and its sleep between passes: a pass can begin at any time the lock is free.
