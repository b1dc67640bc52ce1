# PandoraDB, modelled and proved in Dafny

PandoraDB keeps objects in containers. A container is a column family of the same name on each of
K RocksDB partitions, a record in one more partition that holds the metadata, and an object in an
in-memory index. This project models how containers live and die under crashes, failing engine
calls and concurrent threads, and beside that the cache, the sharded map with the two-level index
above it, and the write path.

## How it is laid out

* `Types`, `Lifecycle`: the values, and the whole store as a state machine. A world is a disk
  (families of every partition, records) and a mode: down, booting, or up with a session in memory
  (index, container objects, approved references of each engine, open handles, requests holding
  containers, the serializer's and the collector's program counters, the counter, validated creates).
  Every atomic action of the boot sequence, the serializer thread, the garbage collector thread, the
  object requests and the container destructors is one constructor of `Action`; engine calls succeed or fail
  as a boolean says; `Crash` may come anywhere.
* `Invariant`, `BootPreservation`, `SerializerPreservation`, `CollectorPreservation`,
  `HolderPreservation`, `Runs`: one inductive invariant over disk, index, handles and both program
  counters, kept by every action, and hence true at every point of every run over any number of sessions.
* `Recovery`, `Durability`, `Fencing`, `Answers`, `Destructors`, `Threads`: what follows for clients: boot never
  refuses, what was acknowledged stays, no handle is used after it was closed, every answer is the right one, no
  handle gets lost, the two threads do not disturb each other.
* `FirstBoot`, `Leftovers`, `FailedCreations`, `Limits`, `Restarts`: where the store keeps less than its
  comments say: exactly when the container "default" is kept, exactly when the families of an unrecorded
  container can still be freed, in its session or at all, what requests to remove the store's own two
  containers do, and what a restart does to the limit on containers.
* `SingleThread`: the bodies of the serializer's and the scavenger's functions, with their loops and
  early returns, on a store object; each is a path of the state machine.
* `ContainerRegistry`, `ContainerLoader`, `Bootstrap`: the boot code, with its loops, over the real
  registry and the real index; it is a path of the state machine too.
* `ConcurrentMap`, `Snapshots`, `Progress`, `ContainerIndex`: the sharded map, its lock-by-lock snapshot under
  concurrent writers, why nobody waits for a lock for good, and buckets and counter above it.
* `CacheSpec`, `CacheShard`, `FrontlineCache`: a cache shard on values and the runs of it; the same shard
  with list nodes, iterator map and byte counter; the guarded routing to shards.
* `WritePath`, `WriteAnswers`, `WriteDispatcher`: K dispatchers with unordered queues as a state machine, what they
  answer, and the code of one.

## Assumptions

* Names and ids contain no NUL, and the serialized name of a record reads back as it was.
* An engine call that answers with success is durable, one that fails changes nothing. Opening a database
  that does not exist creates it with the family "default" in one step.
* An engine never hands out a handle twice. It refuses to create a family that exists, to drop one that is
  gone, and to drop "default"; it refuses writes to a family that was dropped.
* Destroying a handle and taking back its approval is one step; so are validating a create and queueing it.
  A lookup that keeps a container only for the length of one call is a part of the step that makes it.
* A container's destructor may run at any time after its last holder is gone. The counter of containers is
  an unbounded integer. K is any positive number; the program has 8.
* Nobody asks for the removal of "metadata_containers": nothing in the program prevents it, and
  `Limits.RemovingRecordsLosesContainers` shows what it does.

## What the proofs found

* The loss of "default": a first boot that stops after it created the family of the records and before it
  recorded "default" leaves a store whose "default" container is soft-deleted in every later session; short of
  its removal nothing else loses it (`FirstBoot.DefaultLiveIff`).
* Families that stay: a collection that is broken off after the first partition and before the last never
  continues, in this session or a later one, although the comments leave all cleaning to the collector; the
  name cannot be created again either. The families of an unrecorded container can be freed exactly if none is
  missing before one that is there (`Leftovers.CollectableIff`, `Leftovers.FreeableIff`).
* What a failed creation leaves behind is freed only after the next boot: the collector goes by the index, which
  does not have the name, and until the store goes down no creation of the name succeeds
  (`FailedCreations.BlockedUntilRestart`, `FailedCreations.FreeableInSessionIff`).
* The acknowledged removal of "metadata_default" is undone by the next boot, that of no other container is
  (`Durability.RemoveUndoneIff`, `Limits.DefaultRemovalUndone`).
* The limit on the number of containers is exceeded within a session by as many creates as are validated together,
  less one (`Threads.ContainerBound`), and across a restart by any number, since boot counts what failed creations
  left behind (`Restarts.RestartPassesLimit`).
* The byte counter of a cache shard is wrong after an overwrite of the front entry by a value of another
  length, and stays wrong until such overwrites cancel out; meanwhile a shard can hold twice its size, or
  no more than one object with content.
* The comments promise that reads after an acknowledged insert see it. That holds while all requests are inserts
  the cache takes; a remove, an oversize insert and a read served by the engine can each leave a stale answer in
  the cache. The exact conditions are `WritePath.TaskCoherentIff`, `WritePath.TaskInRunCoherentIff` and
  `WritePath.ReadCoherentIff`.

## Model

| member | source | states |
|---|---|---|
| Runs.StepKeeps | src/core/storage/management/container_operation_serializer.cc:109-308 | the invariant of disk, index, approved sets, handles and both threads is kept by every action, failures and crashes included, other than the start of the removal of the metadata container |
| Runs.InvariantAt | src/core/startup/pandora_db.cc:65-157 | it holds at every point of every run from a store that has never run, through any number of sessions |
| Runs.CrashSafety | src/core/storage/management/container_operation_serializer.cc:134-195 | at every point of every run each name with a metadata record has its column family on all K data partitions |
| BootPreservation.OpenPartitionKeeps | src/core/startup/pandora_db.cc:226-267 | opening a database, which may create it, or failing to, keeps the disk invariant and leads to the right next boot phase |
| BootPreservation.FirstSessionKeeps | src/core/storage/index/container_loader.cc:37-176 | the session boot builds from an invariant disk satisfies the whole session invariant |
| BootPreservation.ReachableIsLoadable | src/core/storage/index/container_loader.cc:41-173 | the loader accepts every disk on which boot can come to load |
| Runs.SerializerStepKeeps | src/core/storage/management/container_operation_serializer.cc:109-308 | every step of a creation and of a removal keeps disk, index, records and handles in agreement: the record is written only when all families exist, the container indexed only when its handles are approved, and the one marked deleted is the one whose record went |
| SerializerPreservation.InsertKeepsHandles | src/core/storage/management/container_operation_serializer.cc:193-195 | handing the approved handles to the new index entry keeps every engine's approved set exact |
| Runs.CollectorStepKeeps | src/core/storage/gc/orphaned_container_scavenger.cc:29-178 | every step of a sweep keeps them too: a drop concerns only a soft-deleted container without a record, and what is taken out by name is the container that was dropped |
| CollectorPreservation.DropKeepsCore | src/core/storage/gc/orphaned_container_scavenger.cc:157-178 | a drop that succeeds keeps crash safety and the order of disk, index and both threads |
| CollectorPreservation.EraseKeeps | src/core/storage/gc/orphaned_container_scavenger.cc:105-106 | taking an entry out by name takes out the container that was dropped, and leaves no family of the name behind |
| Runs.HolderStepKeeps | src/core/storage/management/object_management_service.cc:168-207 | requests on their way through lookup, fence and engine, and destructors of objects nobody holds, keep the invariant |
| HolderPreservation.CloseKeepsHandles | src/core/storage/models/container.cc:34-65 | closing the next handle of an object nobody holds, or failing to, keeps the approved sets exact |
| Recovery.RecoveryNeverRefuses | src/core/startup/pandora_db.cc:100-223 | from the disk of any point of any run a boot whose engine calls succeed comes up; records are those of the disk, and at most "default" more |
| Recovery.LoadingRestores | src/core/storage/index/container_loader.cc:296-445 | then live are exactly the recorded and the reserved names, all slots filled, and soft-deleted exactly the other names found on a data partition; all of them are counted |
| Recovery.BootReachesUp | src/core/startup/pandora_db.cc:100-157 | a boot from wherever it stands comes up, keeps every family as the one it was and every record, and adds at most the record of "default" |
| Durability.AcknowledgedCreateSurvives | src/core/storage/management/container_operation_serializer.cc:158-216 | after a create was answered with success and until a remove of the name starts, the record is on disk and every session has the name live |
| Durability.DataSurvives | src/core/storage/gc/orphaned_container_scavenger.cc:63-178 | and on every data partition the family is still the very one that was made for it: neither dropped nor made anew |
| Durability.AcknowledgedRemoveSurvives | src/core/storage/management/container_operation_serializer.cc:245-307 | after a remove of a name that is not reserved was answered with success and until a create of it starts, no record exists and no session has the name live |
| Durability.RemoveUndoneIff | src/core/storage/index/container_loader.cc:235-294 | a container whose removal was acknowledged can come back without a create if and only if its name is reserved; of the two reserved names this is about "metadata_default", since no run under the assumptions acknowledges a removal of "metadata_containers" |
| Limits.DefaultRemovalUndone | src/core/storage/index/container_loader.cc:235-294 | from a store that has never run there is a run to the acknowledged removal of "metadata_default" and on to a session that has it live |
| Durability.RecordsMove | src/core/storage/management/container_operation_serializer.cc:160-180 | only the serializer, and only for the name it works on, adds or deletes a record; a first boot adds "default" |
| Fencing.ApprovedExactly | src/core/storage/io/storage_engine.cc:428-446 | in every session the approved set of each engine is exactly the handles of its partition that objects have, that are about to be indexed, or whose closing failed |
| Fencing.LiveIsFenced | src/core/storage/io/data_partition.cc:111-117 | slot i of a live data container has the handle of its family on partition i, approved by engine i and by no other |
| Fencing.HeldHandlesAreOpen | src/core/storage/models/container.cc:34-65 | whatever the index, a snapshot, the serializer or a request holds has only open, approved handles |
| Fencing.NoUseAfterClose | src/core/storage/io/write_io_dispatcher.cc:89-119 | a queued or running object operation reaches the engine of its partition with an open handle of its own container, whatever was dropped and un-indexed meanwhile |
| Fencing.ReservedNeverEnters | src/core/storage/management/object_management_service.cc:168-207 | no object operation on a reserved container passes a fence |
| Fencing.ClosedOnlyUnheld | src/core/storage/io/storage_engine.cc:263-317 | a handle is given back only by the destructor of an object nobody holds, from the slot that has it |
| Answers.RequestIsRouted | src/core/network/server/request-handlers/object/object_request_handler.cc:55-83 | a request is queued on the partition it is routed to if its container is live by then, and refused if it is waiting for deletion |
| Answers.TaskIsAdmitted | src/core/storage/io/write_io_dispatcher.cc:89-119 | a queued task always gets into the engine of its partition, whatever became of its container since, unless that is a reserved one, which the fence turns away |
| Answers.TaskIsAnswered | src/core/storage/io/write_io_dispatcher.cc:102-158 | and its client is told what the engine answered |
| Answers.AcknowledgedWasExecuted | src/core/storage/io/write_io_dispatcher.cc:89-158 | a client told of success has had its container looked up by its name, been queued while it was live, come past the fence and been executed by the engine of that partition, in this order and by these four steps alone |
| Answers.RefusedForAReason | src/core/storage/io/write_io_dispatcher.cc:89-158 | a client told of failure was refused by one of: the mark of deletion, the fence for a reserved container, its engine |
| Answers.CreationGoesOn | src/core/storage/management/container_operation_serializer.cc:109-217 | what each step of a create leads to, and which of the five answers: live, waiting for deletion, a family not made, the record not written, success; the other failures of the code never happen |
| Answers.RemovalGoesOn | src/core/storage/management/container_operation_serializer.cc:219-307 | likewise of a remove: not live, the record not deleted, success |
| Answers.AnswerComesFrom | src/core/storage/management/container_operation_serializer.cc:109-307 | in every run whatever a client is told about its create or remove, one step of that very request is the reason, and the answer is the one for it |
| Destructors.CloseGivesBack | src/core/storage/io/storage_engine.cc:263-317 | the next handle of a destroyed container is open no longer and accepted by no engine; one the engine fails to destroy stays both |
| Destructors.ClosedForGood | src/core/storage/io/storage_engine.cc:263-317 | a handle once closed is open or accepted at no later point of the session |
| Destructors.HandlesAreGivenBack | src/core/storage/models/container.cc:34-65 | every handle an object had is closed once its destructor has come past it, or the object is freed, unless the engine failed to close it |
| Destructors.CanBeFreed | src/core/storage/models/container.cc:34-65 | from any point of a session an object that left the index can come to be freed, whoever holds it, with none of its handles open |
| Threads.RemovesWhatItSaw | src/core/storage/gc/orphaned_container_scavenger.cc:63-106 | from a snapshot that sees a soft-deleted container until its entry is taken out, the entry of the name is that container, without a record |
| Threads.LeavesOnlyDropped | src/core/storage/gc/orphaned_container_scavenger.cc:101-106 | a name leaves the index of a session only through the collector and only after its families are gone from all data partitions |
| Threads.CheckThenAct | src/core/storage/index/container_bucket.cc:44-103 | between check and insert the name stays absent, between check and erase the entry stays; a create never answers with a collision |
| Threads.CounterAgrees | src/core/storage/index/container_index.cc:52-140 | the counter is the number of entries, less an insert and more a removal not yet counted, and at least two |
| Threads.ContainerBound | src/core/storage/management/container_management_service.cc:139-158 | within a session: with at most p validated creates on their way, counted ones and those together stay within max - 1 + p |
| Restarts.RestartCounts | src/core/storage/index/container_loader.cc:389-445 | after a restart the counter is the names found on data partitions and two more, whatever the limit is |
| Restarts.RestartPassesLimit | src/core/storage/management/container_management_service.cc:139-158 | from a session as boot begins it, with room for one container more, any number of creates, each validated and failing before the next is asked for, leave the next session that many containers more than the session had |
| FirstBoot.DefaultLiveIff | src/core/storage/index/container_loader.cc:179-232 | in every session before any removal of it starts, "default" is live if and only if no boot went down between making the metadata container and recording "default" |
| FirstBoot.DefaultCanBeLost | src/core/storage/index/container_loader.cc:190-231 | from a store that has never run such a run exists: a crash in that window and one boot that succeeds give a session with "default" waiting for deletion |
| FirstBoot.DefaultNeverReturns | src/core/storage/index/container_loader.cc:63-71 | after that no later session has "default" live, whatever clients ask |
| Leftovers.InterruptedDropStrands | src/core/storage/gc/orphaned_container_scavenger.cc:160-175 | a failed drop, or a crash, after any slot and before any later one with its family leaves that family stranded |
| Leftovers.StrandedForever | src/core/storage/gc/orphaned_container_scavenger.cc:160-175 | nothing that happens later in any run frees it, and every session has the name waiting for deletion |
| Leftovers.CollectableIff | src/core/storage/gc/orphaned_container_scavenger.cc:157-178 | an idle collector can free all families of a soft-deleted container if and only if they are those of the first partitions; if they are not, nothing else can either |
| Leftovers.FreeableIff | src/core/storage/gc/orphaned_container_scavenger.cc:63-178 | from any point, in a session or between two, indexed or left by a failed creation, collector at work or not: some actions, restarts among them, free a client's unrecorded name if and only if it is not stranded |
| FailedCreations.FailureBlocks | src/core/storage/management/container_operation_serializer.cc:142-180 | a creation that fails on a partition or at the record leaves its name blocked, that is without an entry but with a family on partition 0, or leaves and has found no family of it |
| FailedCreations.BlockedUntilRestart | src/core/storage/management/container_operation_serializer.cc:313-348 | a blocked name stays so until the store goes down, whatever happens, and no creation of it is answered with success before |
| FailedCreations.FreeableInSessionIff | src/core/storage/gc/garbage_collector.cc:94-122 | what an unindexed, unrecorded name has on disk can be freed in the session if and only if it has no family on partition 0, that is, nothing to free |
| Limits.RemovingRecordsLosesContainers | src/core/storage/management/container_operation_serializer.cc:227-243 | from any idle session, one removal of "metadata_containers" and one sweep lose every record: a crash and a boot later each recorded container but "default" is left to the collector |
| SingleThread.CreateContainerInstances | src/core/storage/management/container_operation_serializer.cc:313-348 | the loop stops at the first partition that cannot make its family; those before it have theirs, other names are untouched |
| SingleThread.ApproveAndIndex | src/core/storage/management/container_operation_serializer.cc:182-216 | the handles are approved and the container is indexed, live and counted; disk unchanged |
| SingleThread.RecordAndIndex | src/core/storage/management/container_operation_serializer.cc:157-216 | with all families made, the record decides: written, the container is recorded, indexed and counted; not written, nothing changes |
| SingleThread.ValidateContainerCreateRequest | src/core/storage/management/container_management_service.cc:109-160 | which of four answers before a create is queued: an entry, live or waiting for deletion, the limit reached, or accepted; a create is queued exactly if accepted |
| SingleThread.HandleContainerCreation | src/core/storage/management/container_operation_serializer.cc:109-217 | which of the five statuses it answers, each exactly when, success if the name is free, every engine makes its family and the record is written; just which families a failed one leaves on disk, and what each outcome leaves in records, index and counter |
| SingleThread.ExceedLimit | src/core/storage/management/container_management_service.cc:139-158 | any number of new names validated while one more container is allowed are all created: the bound is attained |
| SingleThread.SoftDelete | src/core/storage/management/container_operation_serializer.cc:274-307 | the container found is marked and nothing else changes; in a valid state it is found |
| SingleThread.HandleContainerRemoval | src/core/storage/management/container_operation_serializer.cc:220-308 | for every name: succeeds exactly if the container is live and its record can be deleted; not live and record not deleted each have their status, and the whole new state is given; the invariant is kept unless the name is "metadata_containers" |
| SingleThread.DeleteContainerInstances | src/core/storage/gc/orphaned_container_scavenger.cc:157-178 | frees the families of the first partitions up to the first slot that cannot be dropped and no others; succeeds exactly if there is no such slot, and then no data partition has one of the name |
| SingleThread.CleanupContainer | src/core/storage/gc/orphaned_container_scavenger.cc:63-133 | one container: passed over, dropped in part, or dropped and un-indexed, with the exact condition and the exact families gone |
| SingleThread.CleanupOrphanedContainers | src/core/storage/gc/orphaned_container_scavenger.cc:29-154 | a sweep takes out of the index exactly the soft-deleted containers all of whose slots can be dropped, and counts them down; on disk exactly the families before each container's first such slot are gone |
| ContainerRegistry.Registry.RegisterContainerReference | src/core/storage/index/container_registry.cc:29-69 | a reference is refused exactly if it was accepted before; accepted, it is its slot's, and every other slot has what it had |
| ContainerRegistry.Registry.ExecuteIntegrityValidation | src/core/storage/index/container_registry.cc:72-122 | which of three answers: unknown name, a null slot, or every slot filled |
| ContainerRegistry.Registry.GetReferences | src/core/storage/index/container_registry.cc:125-135 | the slots of a known name as the registrations left them |
| ContainerRegistry.SlotsDistinct | src/core/storage/index/container_registry.cc:34-52 | after any registrations no handle is in two slots |
| ContainerRegistry.IntactMeansAccepted | src/core/storage/index/container_registry.cc:102-121 | with handles that are not null, a name is intact if and only if each of its slots was accepted |
| ContainerLoader.ValidateContainerEngineReferences | src/core/storage/index/container_loader.cc:498-591 | the loops find the first fault in the order of slots and partitions |
| ContainerLoader.ContainerFaultIff | src/core/storage/index/container_loader.cc:504-590 | there is none if and only if each null slot belongs to a soft-deleted container and each reference is approved by the engine of its own partition, which is its engine, and by no other |
| ContainerLoader.ContainerFaultIs | src/core/storage/index/container_loader.cc:504-590 | and if there is one, which of the four statuses the first slot and the first engine at fault give |
| ContainerLoader.IndexContainersFromMetadataPartition | src/core/storage/index/container_loader.cc:235-294 | fails exactly if two families would get one name; else the index has just these containers, "default" renamed |
| ContainerLoader.IndexContainersFromStructuredDataPartitions | src/core/storage/index/container_loader.cc:297-386 | succeeds exactly if every recorded name is known, intact and free; then they are indexed live; otherwise the status is that of a record that is not |
| ContainerLoader.ScanAndIndexOrphanedContainers | src/core/storage/index/container_loader.cc:389-445 | indexes exactly the names found without a record, marked deleted; fails exactly if one is taken |
| ContainerLoader.ValidateLoadedEngineReferences | src/core/storage/index/container_loader.cc:465-495 | the bucket by bucket walk succeeds exactly if every container of the index is sound; otherwise the status is that of one that is not; nothing changes |
| ContainerLoader.FillContainerIndex | src/core/storage/index/container_loader.cc:111-175 | the four passes succeed exactly if the loader's conditions hold together, what the index then holds, and else the status of the first pass that fails |
| Bootstrap.AcceptsIffLoadable | src/core/storage/index/container_loader.cc:77-175 | for every disk, arbitrary or not, these conditions are the state machine's |
| Bootstrap.FilledAsLoaded | src/core/storage/index/container_loader.cc:111-158 | and the index is what the machine's boot loads |
| Bootstrap.PandoraDb.FetchContainersFromDisk | src/core/storage/io/data_partition.cc:140-175 | the names on disk, "default" for a database that does not exist, or the failure to list them |
| Bootstrap.PandoraDb.BootDataPartition | src/core/startup/pandora_db.cc:226-267 | every family's handle is approved and goes to its own name; which of two failures otherwise |
| Bootstrap.PandoraDb.BootStructuredDataPartitions | src/core/startup/pandora_db.cc:162-223 | all databases opened, or the status of the first that fails; no registration is ever refused; the registry shows the disk |
| Bootstrap.PandoraDb.CreateContainerMetadataColumnFamily | src/core/storage/index/container_loader.cc:179-232 | the family, its approval and the record of "default", or which of two failures, and what it leaves |
| Bootstrap.PandoraDb.LoadContainerIndex | src/core/storage/index/container_loader.cc:37-176 | on any disk whose databases have their "default": succeeds exactly if the engine calls do and the machine can load what they leave, which on a disk of any run it can; and which status each failure has |
| Bootstrap.PandoraDb.BootstrapStorageState | src/core/startup/pandora_db.cc:100-157 | boot succeeds if and only if the engine calls it makes do and the disk can be loaded, on a disk of any run if and only if the calls do, and then the status is given for every outcome of the calls; index and approvals are those of the machine's first session, and the program's actions are a path of the machine |
| ConcurrentMap.FlatLookup | src/core/common/concurrent_flat_map.hh:163-179 | a key is in the one flat map exactly if it is in the shard its hash leads to, with that value |
| ConcurrentMap.FlatSize | src/core/common/concurrent_flat_map.hh:185-196 | the sizes of the shards add up to the size of the flat map |
| ConcurrentMap.ConcurrentFlatMap.Insert | src/core/common/concurrent_flat_map.hh:46-53 | assigns the key in the flat map and nothing else |
| ConcurrentMap.ConcurrentFlatMap.Get | src/core/common/concurrent_flat_map.hh:59-72 | the flat map's value of the key, if it has one |
| ConcurrentMap.ConcurrentFlatMap.Exists | src/core/common/concurrent_flat_map.hh:78-84 | whether the flat map has the key |
| ConcurrentMap.ConcurrentFlatMap.Erase | src/core/common/concurrent_flat_map.hh:90-96 | takes the key out of the flat map and says whether it was there |
| ConcurrentMap.ConcurrentFlatMap.GetAll | src/core/common/concurrent_flat_map.hh:102-129 | every entry of the flat map exactly once |
| ConcurrentMap.ConcurrentFlatMap.GetSize | src/core/common/concurrent_flat_map.hh:135-146 | the size of the flat map |
| Snapshots.WritesAreAtomic | src/core/common/concurrent_flat_map.hh:46-96 | under concurrency the flat map changes only in the step in which a writer that holds its shard writes: then its key has the value assigned, or is gone, and every other key has what it had |
| Snapshots.WritesTakeEffect | src/core/common/concurrent_flat_map.hh:46-96 | in every run what a writer writes is what it came with, and it does so once |
| Snapshots.SnapshotsLinearize | src/core/common/concurrent_flat_map.hh:102-146 | whatever writers do in between, entries and size returned are those of the flat map right after the call took its last lock |
| Progress.ReaderCanReturn | src/core/common/concurrent_flat_map.hh:102-146 | from every state of every run there is a way on in which a given reader of the whole map returns: writers hold one lock each, readers take theirs in order |
| Progress.WriterCanWrite | src/core/common/concurrent_flat_map.hh:46-96 | and one in which a given writer that waits gets its shard and writes |
| ContainerIndex.ContainerBucket.InsertContainer | src/core/storage/index/container_bucket.cc:32-70 | collision exactly if the name is there; else a new live container under it and no other change |
| ContainerIndex.ContainerBucket.GetAllContainers | src/core/storage/index/container_bucket.cc:81-92 | every container of the bucket exactly once |
| ContainerIndex.ContainerBucket.RemoveContainer | src/core/storage/index/container_bucket.cc:95-112 | takes the name out, or says it is not there |
| ContainerIndex.Index.InsertContainer | src/core/storage/index/container_index.cc:41-61 | over buckets and shards, an insert into one map with an exact counter |
| ContainerIndex.Index.GetContainer | src/core/storage/index/container_index.cc:108-115 | a lookup in that one map |
| ContainerIndex.Index.GetContainerExistenceStatus | src/core/storage/index/container_index.cc:85-105 | absent, live or waiting for deletion, each exactly then |
| ContainerIndex.Index.RemoveContainer | src/core/storage/index/container_index.cc:125-143 | a removal from that one map with an exact counter that never underflows |
| ContainerIndex.Index.Sweep | src/core/storage/gc/garbage_collector.cc:94-122 | the bucket by bucket sweep of a quiet index visits each container exactly once, as many as the counter says |
| Types.NamesOfStrings | src/core/storage/index/container_loader.cc:235-294 | two strings name one container only if they are equal, and the three names the program uses itself are its own |
| CacheSpec.HitIsLastPut | src/core/storage/cache/cache_shard.cc:121-136 | after any run of puts and gets a hit returns the key's last accepted put |
| CacheSpec.OrderedByTouch | src/core/storage/cache/cache_shard.cc:82-136 | after any run the list has distinct keys in strict order of their last touch |
| CacheSpec.CounterAfter | src/core/storage/cache/cache_shard.cc:60-102 | after any run the counter is, modulo 2^64, the bytes stored less what front overwrites changed |
| CacheSpec.CounterExactIff | src/core/storage/cache/cache_shard.cc:60-102 | it is the bytes stored if and only if these changes cancel out modulo 2^64 |
| CacheSpec.ExactIff | src/core/storage/cache/cache_shard.cc:32-105 | an operation keeps an exact counter if and only if it is not a front overwrite by another length |
| CacheSpec.SteadyIsExact | src/core/storage/cache/cache_shard.cc:60-102 | in runs without such overwrites the counter is exact, never wraps, and stays within the larger of the two limits |
| CacheSpec.WithinSizeIff | src/core/storage/cache/cache_shard.cc:32-105 | in all such runs the shard stays within its size if and only if the limit of an object is no larger |
| CacheSpec.PutEvictsMinimally | src/core/storage/cache/cache_shard.cc:82-102 | a put leaves its entry and the longest prefix of the others that fits, and exceeds the shard only if the entry alone does |
| CacheSpec.PutEvictsExactly | src/core/storage/cache/cache_shard.cc:60-102 | in every run, whatever front overwrites have done to the counter: a put leaves its entry and the longest prefix of the others that is empty or whose bytes, less the drift and with the new ones, are within the size modulo 2^64 |
| CacheSpec.ShrinkingLosesCapacity | src/core/storage/cache/cache_shard.cc:60-95 | bytes that front overwrites took away count against the shard in every later put |
| CacheSpec.ShrunkToOne | src/core/storage/cache/cache_shard.cc:60-95 | once they and the new object together amount to more than its size, a put leaves only its own object; so does any object with content when the size is lost |
| CacheSpec.OneStaysOneIff | src/core/storage/cache/cache_shard.cc:60-95 | from one entry a put of another key leads to one entry if and only if both and the bytes lost exceed the size: two empty objects may fit |
| CacheSpec.LossLasts | src/core/storage/cache/cache_shard.cc:60-95 | with the size lost and in every run on, until a front overwrite by another length: empty puts included, the shard keeps at most one entry, or only empty ones; it never gets beyond one if all that is put is longer than what is left of the size |
| CacheSpec.ShrinkAndRestore | src/core/storage/cache/cache_shard.cc:60-69 | two puts of one key that lose the whole shard so, and a third that makes the counter exact again |
| CacheSpec.OverwriteOverflows | src/core/storage/cache/cache_shard.cc:60-69 | three puts that store twice the size of the shard |
| CacheShard.LruShard.Put | src/core/storage/cache/cache_shard.cc:32-105 | on nodes, iterator map and counter: well-formedness kept, contents and status those of the value model |
| CacheShard.LruShard.Get | src/core/storage/cache/cache_shard.cc:108-137 | likewise: the hit's data, the node moved to the front, nothing else |
| CacheShard.LruShard.EvictFor | src/core/storage/cache/cache_shard.cc:82-95 | the loop ends and evicts from the back as the value model does |
| FrontlineCache.Frontline.Put | src/core/storage/cache/frontline_cache.cc:38-69 | only for live containers, else with the status of the index, into the shard of the id, and no other shard changes |
| FrontlineCache.Frontline.Get | src/core/storage/cache/frontline_cache.cc:72-101 | nothing for a container that is not live, else the lookup in the shard of the id |
| WritePath.WritesKeepOrder | src/core/storage/io/write_io_dispatcher.cc:90-159 | in every run all writes of an object succeed on the partition its id hashes to and are handed to the cache in the order in which they reached the engine; its shard is given, in that order, just those of them that found the container live |
| WritePath.HitIsStored | src/core/storage/io/write_io_dispatcher.cc:141-151 | whatever is done with other objects: while an object gets only inserts the cache takes, outside the moment between engine and cache, its cached value is the engine's |
| WritePath.AcknowledgedIsSeen | src/core/storage/io/write_io_dispatcher.cc:141-158 | after an acknowledged insert a hit is that object or a newer one in the engine's order |
| WritePath.TaskCoherentIff | src/core/storage/io/write_io_dispatcher.cc:102-151 | exactly when a request run to its end leaves cache and engine in agreement on its object |
| WritePath.TaskInRunCoherentIff | src/core/storage/io/write_io_dispatcher.cc:90-159 | in every run, from any point where cache and engine agree on the object of a task that comes to the engine, with anything but reads and other tasks of that object in between: they agree when it is answered if and only if that condition held when it came to the cache, or the cache lost the object since |
| WritePath.TaskKeepsOthers | src/core/storage/io/write_io_dispatcher.cc:102-151 | it never harms the agreement on another object |
| WritePath.ReadCoherentIff | src/core/storage/io/read_io_dispatcher.cc:98-104 | exactly when a read served by the engine does, caching the payload of its own request |
| WritePath.ReadInRunCoherentIff | src/core/storage/io/read_io_dispatcher.cc:60-104 | in every run the point after such a read has the agreement if and only if that condition holds |
| WriteAnswers.AnswersAreTheEngines | src/core/storage/io/write_io_dispatcher.cc:90-159 | whenever a dispatcher answers it answers the task it has had in the engine and then in the cache, with what the engine said |
| WriteAnswers.AnsweredIff | src/core/storage/io/write_io_dispatcher.cc:90-159 | a task is answered with success if and only if an engine took it, the cache was given it and the dispatcher answered; with failure if and only if the engine refused it |
| WriteAnswers.RequestsAreConserved | src/core/storage/io/write_io_dispatcher.cc:46-87 | at every point of every run a request has been asked for as often as it is queued, in a dispatcher's hands or answered: none is lost, none answered twice |
| WriteAnswers.ReadTouches | src/core/storage/cache/cache_shard.cc:108-137 | a client's hit makes its object the most recently touched of its shard and loses nobody's |
| WriteAnswers.LiveAsMarked | src/core/storage/cache/frontline_cache.cc:38-69 | what the cache takes for live is what was there when the session began or came back, and has not gone since |
| WriteDispatcher.WriteIoDispatcher.ExecuteWriteIoTask | src/core/storage/io/write_io_dispatcher.cc:90-159 | over the real cache and index, what engine, cache and client get; the engine has the object when the cache is given it, and both have it when the client is answered |
| WriteDispatcher.WriteIoDispatcher.InsertObjectIntoCache | src/core/storage/cache/cache_accessor.cc:30-66 | the object goes into its shard if its container is live |
| WriteDispatcher.WriteIoDispatcher.EnqueueIoTask | src/core/storage/io/write_io_dispatcher.cc:46-56 | one task more in the queue, at any time, with cache and index as they were |
| WriteDispatcher.WriteIoDispatcher.DispatchWriteIoTasks | src/core/storage/io/write_io_dispatcher.cc:69-87 | from an unordered queue each request is executed and answered once; engine and cache end up as after running them one after the other in the order of the answers |

## Left out

- Runs.StepKeeps: does not cover the start of the removal of "metadata_containers", which breaks it; see Limits.RemovingRecordsLosesContainers.
- Threads.ContainerBound: is about one session; across a restart there is no bound, see Restarts.RestartPassesLimit.
- Durability.AcknowledgedRemoveSurvives: excludes the reserved names, whose removal the next boot undoes; see Durability.RemoveUndoneIff.
- Fencing.ApprovedExactly: counts a handle as in use until the destructor of its container has come to it, and admits those whose destruction failed, because the program keeps their approval.
- Fencing.ReservedNeverEnters: parks a task on a reserved container whose partition is not 0; in the program its one slot is asked for by an index out of range, which throws in the dispatcher's thread and is caught by nothing, so that the process ends: what follows is what follows a crash, which may come anywhere.
- ContainerIndex.Index.Sweep: is about an index that does not change; for a changing one see Threads.RemovesWhatItSaw.
- CacheSpec.PutEvictsMinimally: asks that the larger of the two sizes and an object together fit 64 bits; CacheSpec.PutEvictsExactly has the wrap-around.
- CacheSpec.SteadyIsExact: asks the same.
- WritePath.HitIsStored: excludes, for the object in question, removes, oversize inserts, the loss of its container and reads served by the engine, each of which breaks it; see WritePath.TaskCoherentIff and WritePath.ReadCoherentIff.
- Bootstrap.PandoraDb.LoadContainerIndex: takes it that a database has its family "default", which RocksDB sees to.
- SingleThread.HandleContainerRemoval: does not promise the invariant for the name "metadata_containers"; see Limits.RemovingRecordsLosesContainers.
- SingleThread.HandleContainerCreation: is about a serializer whose other threads stand still; the interleavings are those of the state machine.
- The storage engine object and the container's destructor are modelled on values inside the state machine (approved sets, open handles, families), not as classes; update in place of one engine by several threads is therefore a matter of whole steps.
- The contents of objects in the lifecycle model: a request there only passes the fence and uses the handle.
- The metadata partition's own objects other than the keys of the records, and the encoding of records.
- Liveness of the collector: a failed or interrupted collection is shown not to continue; that others are eventually collected depends on scheduling.
- The counter's 32-bit width, and names or ids with embedded NUL.
- HTTP server, request parsing and size validation, Python client, configuration, logging, signals, thread start and stop.
- RocksDB, protobuf, XXH3 and the lock-free queue: abstract maps, deterministic functions and an unordered bag.
