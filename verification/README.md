# A verified model of SharedObject

SharedObject is an R package that puts vectors into named shared memory of the operating system
and lets several R processes alias them. This project models its four cores in Dafny and proves
what they keep, over every input, every run and every interleaving. Line numbers below are those
of the package's own files.

`dafny verify dfyconfig.toml` checks everything.

## How it is laid out

- **One process's registry.** `OperatingSystem` holds names, segments and their bytes; removing a
  name leaves the segment to those who hold it (the POSIX branch). `SharedObject` is the state
  machine of one entry, `Registry` (module `SharedMemoryRegistry`) the list of entries and the map
  counters. Both are classes whose methods are proved equal to functions on values (`Allocated`,
  `Mapped`, `Allocate`, `Map`, `Unmap`, `Free`, ...); the theorems are about those functions.
  `RegistryClient` runs them against the multiset of mappings a client has yet to give back, with
  other processes changing the system between any two calls. `IdSearch` is the search for a free
  id with 64-bit wrap-around.
- **Many processes.** `Lifecycle` is a transition system over any number of processes, one
  registry each (the same functions), one system, one id counter: spawn, increment the counter,
  check the name, create, map, fill byte by byte, finish, write, export, import, duplicate,
  finalize, exit. Each of these is a step of its own, so other processes act between them (they
  may write to the source of a copy that is under way), and finalizers run in the middle of a
  creation. `LifecycleInvariant` proves the invariant for every step and every run;
  `LifecycleTheorems` (names, bytes, serialization, ids), `LifecycleCopies` (new vectors and
  copies), `LifecycleSharing` (sharing from the request to the end) and `LifecycleQuiescence` (what is left in the end) draw the conclusions, and
  `LifecycleWitnesses` exhibits runs in which things go wrong. The conclusions are stated for
  worlds that satisfy the invariant `Inv`; every reachable world does (`ReachableInv`).
- **Start-up.** `Startup` is the protocol that creates and zeroes the shared counter under a named
  semaphore that is never posted and whose name is removed by everyone who leaves.
- **Character vectors.** `CodeWidth`, `StringCodec`, `SharedString` and `StringWrite`: dictionary
  codes, unit size, byte packing (`Layout`), decoding, the lazily filled decoded copy, and writing
  an element. `StringTransfer` puts the index into the machine of many processes and follows it
  from one process to another.
- **Bulk reads and trees.** `Buffers` holds the gather loop and the batched copy; `RValues`,
  `ShareTree`, `ShareLoops` and `IsSharedReport` (file `IsShared.dfy`) hold `share`, `unshare` and
  `is.shared` over nested values with attributes and slots.

## What turned out not to hold

The model follows the code. Where the code falls short of what it is for, a concrete run or input
shows it, and the exact condition is proved.

- **Counters.** `mapCounter` equals the number of outstanding mappings after a call if and only if
  the call unmaps only what is mapped (or not listed) and does not free what is mapped
  (`CallTracksIff`). Otherwise a residue stays behind that takes a later mapping away
  (`ResidueIsLeftBehind`, `ResidueTakesMappingAway`).
- **Leaks.** When the system refuses to map a segment that was just created, ownership was not yet
  set, and the name stays for good (`RefusedMappingOrphans`, `OrphansAreForever`). When it refuses
  the mapping of a received object after its name was opened, the entry keeps the segment
  (`RefusedImportHolds`) until a later mapping succeeds or the process exits. Both are reached
  (`RefusedMappingLeaks`, `RefusedImportLeaks`). Nothing else is ever left: at quiescence nothing
  is left if and only if neither has happened and remains (`NothingIsLeftIff`), and what is left
  otherwise is exactly that (`WhatIsLeftAtQuiescence`).
- **Copies.** A shared copy, and the private copy that is sent when a name is gone, are made byte by
  byte, and any holder of the source may write to it meanwhile. A step keeps the copy in step with
  its source if and only if it is no write to a place the copy has passed (`StepStaysInStepIff`).
  Over runs in which all writes are ahead of the copy, it ends up equal to its source
  (`FinishedVectorIsItsSource`, `ExportedCopyIsItsSource`); otherwise it may be torn
  (`CopyMayBeTorn`).
- **Start-up.** That the counter is created and zeroed at most once holds over every run. That no
  increment is lost holds if and only if the counter still reads zero when it is zeroed, and that it
  is zeroed at all if and only if its creator does not fail before (`CounterIsInitialisedOnce`).
  When nobody gives up waiting before the counter is settled, none is lost (`TimelyRunCounts`);
  otherwise an id may be given twice (`EarlyTimeoutGivesAnIdTwice`), and should both processes find
  it unused, the second allocation fails (`SecondAllocationFails`). A counter whose creator failed is
  never constructed, but its bytes are zero and no count is lost (`AbandonedCounterStillCounts`).
  The semaphore excludes exactly as long as nobody gives up waiting: without a timeout at most one
  process is ever inside, whoever fails (`NoTimeoutExcludes`), and wherever a timeout is possible
  two more steps put a second process inside (`TimeoutLetsTwoIn`), because the count is never given
  back and a removed name makes room for a new instance.
- **Subsets.** An integer subscript is multiplied by the element size as a 32-bit number
  (src/numericAltrepOperations.cpp:133-142); as compiled code does, the model lets it wrap around.
  Every element of every vector arrives if and only if the subscripts are real or no product
  reaches 2^31 (`SubsetIsGatherIff`). Otherwise the loop reads outside the vector
  (`LastDoubleIsReadOutside`) or another element (`LaterComplexIsTheFirst`).
- **Writing a string.** man/share.Rd:65-68 promises that an element can be set to any value the
  vector already has. The code stores one byte at byte offset `i` for every unit size and leaves
  the decoded copy alone. `SetEltLandsIff` says exactly when that is right: among other things the
  decoded copy must be absent (or agree already), and beyond one-byte codes only position 0 within
  the same block of 256 codes can change. Written at the width of the encoder it would be right
  for every unit size (`WriteAtEncoderWidthLands`).
- **Batched copy.** Only integers are written where their batch starts; the other types go to
  `ind * nbatch`. The copy is right for every source if and only if the type is integer or every
  batch after the first has one element (`CopyIsRightIff`): with batches of the usual kind, when
  the vector fits one batch or exceeds it by a single element (`DeliveredIsHandledIff`).
- **unshare after share.** `unshare` reaches the attributes of a list only when its
  `sharedAttributes` option is on. It restores the tree if and only if that is so or nothing was
  shared there (`UnshareUndoesShareIff`; `UnshareMissesListAttribute` is a tree it does not restore).

## Model

| member | source | states |
|---|---|---|
| SharedObject.SharedObjectClass.OpenSharedMemoryHandle | src/sharedObjectClass.cpp:105-122 | Opening is an error when a handle is held; otherwise it succeeds exactly when the name exists, and takes the segment behind it and its real size; a failure changes nothing. |
| SharedObject.SharedObjectClass.AllocateSharedMemory | src/sharedObjectClass.cpp:197-229 | The entry, the system and the outcome are those of `Allocated`: idempotent when a handle is held, create-only otherwise, name removed again when there is no room, size zero becomes one. |
| SharedObject.SharedObjectClass.MapSharedMemory | src/sharedObjectClass.cpp:231-265 | The entry and the outcome are those of `Mapped`: the pointer held, else the region held, else the handle held or opened by name, then mapped; a refusal clears region and pointer but keeps the handle. |
| SharedObject.SharedObjectClass.UnmapSharedMemory | src/sharedObjectClass.cpp:267-273 | Region and pointer go, handle, size and ownership stay. |
| SharedObject.SharedObjectClass.SetOwnership | src/sharedObjectClass.cpp:291-294 | Only the ownership changes. |
| SharedObject.SharedObjectClass.FreeSharedMemory | src/sharedObjectClass.cpp:275-284 | The destructor closes region and handle, and removes the name exactly when the entry owns the data. |
| SharedObject.AllocatedConsistent | src/sharedObjectClass.cpp:197-229 | Allocation keeps pointer-implies-region-implies-handle and handle-size-equals-segment-size, touches no other name and no byte of an existing segment, and succeeds exactly when a handle is held or the name is free and granted. |
| SharedObject.MappedConsistent | src/sharedObjectClass.cpp:231-265 | Mapping keeps the same entry invariant, changes nothing in the system, never changes a handle or region once held, and succeeds exactly when a region is held or a segment can be found and the system grants it. |
| SharedMemoryRegistry.ProcessRegistry.AllocateSharedMemoryInternal | src/sharedMemory.cpp:111-128 | Refines `Allocate`: registry, system and outcome, including the refusal when the key is listed with a smaller size. |
| SharedMemoryRegistry.ProcessRegistry.MapSharedMemoryInternal | src/sharedMemory.cpp:132-143 | Refines `Map`: a new entry resets the counter, and the counter rises only when the mapping succeeds; a failed call leaves its entry listed. |
| SharedMemoryRegistry.ProcessRegistry.UnmapSharedMemoryInternal | src/sharedMemory.cpp:147-158 | Refines `Unmap`: the counter falls, and at zero or below the entry is destroyed while its counter stays. |
| SharedMemoryRegistry.ProcessRegistry.FreeSharedMemoryInternal | src/sharedMemory.cpp:165-173 | Refines `Free`, of which `FreeForgets` says what it does: entry and counter go if listed, and the name goes in any case. |
| SharedMemoryRegistry.ProcessRegistry.AutoReleaseAfterUse | src/sharedMemory.cpp:282-292 | Refines `AutoRelease`: an error for a key that is not listed, else only the ownership changes. |
| SharedMemoryRegistry.AllocateHealthy | src/sharedMemory.cpp:111-128 | Every entry of the registry stays consistent over an allocation, and every segment survives at its size. |
| SharedMemoryRegistry.MapHealthy | src/sharedMemory.cpp:132-143 | Every entry stays consistent over a mapping, failed ones included, and the system is unchanged. |
| SharedMemoryRegistry.AllocateGivesRoom | src/sharedMemory.cpp:111-128 | After any successful allocation of n bytes, repeated or after failed calls, the key holds a segment whose size is the recorded one and at least n. |
| SharedMemoryRegistry.AllocateMakesSegment | src/sharedMemory.cpp:111-128 | Exactly when an allocation succeeds and exactly when it makes a new segment; a key that still holds a segment hands out the old one, even when its name is gone. |
| SharedMemoryRegistry.SecondAllocationFails | src/sharedMemory.cpp:111-128 | Should two processes be given one id and both find it unused, the first allocation takes the name and the second fails; they never share the segment. |
| SharedMemoryRegistry.FailedMapBlocksAllocate | src/sharedMemory.cpp:118-140 | After a failed map of a missing name, an allocation under that key succeeds if and only if it asks for zero bytes. |
| SharedMemoryRegistry.FreeForgets | src/sharedMemory.cpp:165-173 | After a free the key has no name, no entry and no counter, no segment is touched, and an allocation of any size under it succeeds exactly if the system grants it. |
| SharedMemoryRegistry.OwnershipDecidesOnTheName | src/sharedObjectClass.cpp:275-294 | Setting the ownership fails exactly for a key that is not listed; otherwise the last unmap removes the name if and only if the process was made the owner. |
| SharedMemoryRegistry.MapFailsWith | src/sharedMemory.cpp:132-143 | A mapping fails with a mapping error only. |
| SharedMemoryRegistry.AllocateFrame | src/sharedMemory.cpp:111-128 | An allocation leaves every other key's entry, counter and name alone. |
| SharedMemoryRegistry.MapFrame | src/sharedMemory.cpp:132-143 | So does a mapping. |
| SharedMemoryRegistry.UnmapFrame | src/sharedMemory.cpp:147-158 | So does an unmap, its destructor included. |
| SharedMemoryRegistry.FreeFrame | src/sharedMemory.cpp:165-173 | So does a free. |
| SharedMemoryRegistry.AutoReleaseFrame | src/sharedMemory.cpp:282-292 | So does a change of ownership. |
| RegistryClient.RunKeepsHealthy | src/sharedObjectClass.cpp:197-284 | Over every run of calls, disciplined or not, with other processes acting in between: pointer implies region implies handle, and a held segment has the recorded size. |
| RegistryClient.CallFrame | src/sharedMemory.cpp:111-173 | Every call leaves the entry, counter, name and outstanding mappings of every other key as they were. |
| RegistryClient.FreedKeyStartsAfresh | src/sharedMemory.cpp:111-173 | For everybody a freed key starts afresh: its name is gone, the next allocation makes a segment that did not exist, of the size asked for or more, and what others hold keeps its bytes. |
| RegistryClient.CallTracksIff | src/sharedMemory.cpp:111-173 | From exact counters, a call leaves all counters equal to the outstanding mappings, and regions mapped exactly where these are positive, if and only if it is disciplined. |
| RegistryClient.RunTracks | src/sharedMemory.cpp:111-173 | Over every disciplined run the registry refines the multiset of outstanding mappings. |
| RegistryClient.PointerIsStable | src/sharedMemory.cpp:132-158 | While a key stays mapped its region does not move, and every map call succeeds with the same pointer, whatever the system would answer. |
| RegistryClient.OwnedUnmappedIsReached | src/sharedMemory.cpp:111-128 | A key that was allocated and is owned but never mapped: the state the two lemmas below start from is reached by two calls. |
| RegistryClient.ResidueIsLeftBehind | src/sharedMemory.cpp:147-158 | Unmapping a key that was never mapped leaves its counter at -1, and a later allocation does not reset it. |
| RegistryClient.ResidueTakesMappingAway | src/sharedMemory.cpp:132-158 | With that residue, the first of two unmaps takes the region away from the second mapping. |
| IdSearch.IdCounter.GetNextId | src/sharedMemory.cpp:87-102 | Run alone, the search terminates, returns the first unused id in cyclic order after the last one, leaves the counter on it, and fails exactly when all 2^64 ids are in use; wrap-around included. |
| IdSearch.FirstUnusedIsUnique | src/sharedMemory.cpp:87-102 | There is only one first unused id, so the search has only one answer. |
| IdSearch.AheadIsModulo | src/sharedMemory.cpp:92-94 | The search goes upwards by one and around after the last id, modulo 2^64. |
| LifecycleInvariant.IncrementKeepsInv | src/sharedMemory.cpp:92-94 | Incrementing the shared counter, with other processes anywhere in their own creation, keeps the invariant. |
| LifecycleInvariant.CreateKeepsInv | src/altrep.cpp:88-88 | Creating the segment, granted or refused, keeps the invariant. |
| LifecycleInvariant.MapNewParts | src/altrep.cpp:92-102 | The new segment is mapped exactly when that is granted: then the creator owns the entry and holds one more wrapper, and the source has as many bytes as the vector; otherwise the name is orphaned. |
| LifecycleInvariant.FillingParts | src/altrep.cpp:113-124 | While a vector is filled, it and the source of a copy are mapped and wrapped, of equal length, and different. |
| LifecycleInvariant.FillKeepsInv | src/altrep.cpp:119-122 | Copying a byte, of a new vector or of a private copy, with other processes anywhere, keeps the invariant. |
| LifecycleInvariant.ExportKeepsInv | src/numericAltrepOperations.cpp:73-88 | Serializing keeps the invariant, whether the id is sent or a private copy is begun. |
| LifecycleInvariant.AttachKeepsInv | src/altrep.cpp:191-204 | Reading a shared object by id, whether it succeeds, finds no name or is refused, keeps the invariant. |
| LifecycleInvariant.OwnsWhatItCreated | src/altrep.cpp:92-94 | In every reachable state a process owns exactly the ids it created and still maps. |
| LifecycleInvariant.FinalizeKeepsInv | src/altrep.cpp:63-68 | A finalizer keeps the invariant, also in the middle of a creation. |
| LifecycleInvariant.ExitKeepsInv | src/sharedObjectClass.cpp:192-195 | Process exit keeps the invariant. |
| LifecycleInvariant.StepKeepsInv | src/sharedMemory.cpp:87-158 | Every step of every process keeps the invariant. |
| LifecycleInvariant.RunKeepsInv | src/sharedMemory.cpp:87-158 | So does every run of any number of processes. |
| LifecycleTheorems.ReachableInv | src/sharedMemory.cpp:87-158 | Every reachable world satisfies what the theorems below require. |
| LifecycleTheorems.NameExistsIff | src/altrep.cpp:63-102 | A segment has its name exactly while its creator is creating it or holds a wrapper of it (or it was orphaned), and the name means that segment. |
| LifecycleTheorems.OnlyTheCreatorRemovesAName | src/sharedObjectClass.cpp:275-284 | A name disappears only when its creator finalizes its last wrapper or exits; a process that only received the object never removes it. |
| LifecycleTheorems.FinalizeGivesBack | src/altrep.cpp:63-68 | A finalizer gives back one wrapper; with the last one of its id in the process the mapping and the entry, and if the process created the id, the name too; and nothing else. |
| LifecycleTheorems.StepKeepsBirth | src/sharedMemory.cpp:211-220 | No step changes who created an id, its segment or its length, and what is finished stays so. |
| LifecycleTheorems.StepKeepsBytes | src/altrep.cpp:63-125 | Once a vector is filled, no step but a write to its id changes its bytes. |
| LifecycleTheorems.QuietRunKeepsBytes | src/altrep.cpp:63-125 | Over every run without a write to a filled id its bytes are unchanged, whatever is created, copied, exported, received, duplicated or finalized. |
| LifecycleTheorems.QuietRunKeepsView | src/numericAltrepOperations.cpp:28-31 | Whoever holds a wrapper of the id at the end reads what was read at the start, in any process. |
| LifecycleTheorems.RunKeepsBirth | src/sharedMemory.cpp:211-220 | The creator and the segment of an id never change over a run. |
| LifecycleTheorems.WrappersAreAliases | src/altrep.cpp:191-204 | Every wrapper in every process points to a live mapping; equal ids mean equal contents, different ids mean different segments. |
| LifecycleTheorems.WriteIsSeenByAliasesOnly | src/numericAltrepOperations.cpp:28-31 | A write is read through every wrapper of the same id, in any process, and through no other. |
| LifecycleTheorems.AttachGains | src/altrep.cpp:191-204 | Reading a shared object gains exactly one wrapper of that id, or nothing; it gains one exactly when it was mapped already or can be found and is granted. |
| LifecycleTheorems.SerializedNeverResolvesElsewhere | src/numericAltrepOperations.cpp:85-110 | A vector that has its name, serialized now and received in any process after any run, is an alias of the very segment or NULL, never another segment; and it is gained when the name is still there and the mapping granted. |
| LifecycleTheorems.LastIdCountsIncrements | src/sharedMemory.cpp:92-94 | Over every run the shared counter counts the increments of all processes, and each gives its process the number it has reached. |
| LifecycleTheorems.PickedIdsAreFresh | src/sharedMemory.cpp:87-102 | An id a process has picked is picked by no other, listed in no registry, named by no segment and never used before. |
| LifecycleTheorems.CheckNeverFindsAName | src/sharedMemory.cpp:95-99 | Before wrap-around the existence check never sends a process back. |
| LifecycleTheorems.CreationMakesANewSegment | src/sharedMemory.cpp:211-220 | A granted automatic allocation makes a segment that did not exist, apart from every other id's; a refused one changes no name and no record. |
| LifecycleCopies.FillGoesOn | src/altrep.cpp:119-122 | A process that copies can always copy the next byte, or has come to the end. |
| LifecycleCopies.UnfinishedIsPrivate | src/altrep.cpp:113-124 | While a vector is filled nobody but its creator has a wrapper of it. |
| LifecycleCopies.OthersKeepNewBytes | src/altrep.cpp:113-124 | No other process's step, and no finalizer, touches the bytes of a vector that is being filled. |
| LifecycleCopies.WriteDuringCopyIsCopiedIff | src/numericAltrepOperations.cpp:46-62 | A write to the source during a copy reaches the copy if and only if the copy has not come to that place or the write changes nothing. |
| LifecycleCopies.StepStaysInStepIff | src/numericAltrepOperations.cpp:46-88 | A step of any process keeps a copy in agreement with its source, as far as it has come, if and only if it is no write behind it. |
| LifecycleCopies.RunStaysInStep | src/altrep.cpp:119-122 | So over every run in which all writes to the source are ahead of the copy, the copy stays in step. |
| LifecycleCopies.RunKeepsSource | src/altrep.cpp:119-122 | A run that does not write to the source is such a run, and the source reads the same in the end. |
| LifecycleCopies.FinishedVectorIsItsSource | src/altrep.cpp:106-125 | A finished vector equals its source as it then reads, if all writes to the source meanwhile were ahead of the copy; a copy has another id and another segment than its source. |
| LifecycleCopies.FinishedVectorHoldsItsSource | src/altrep.cpp:106-125 | If nobody wrote to the source, that is what it held when the new vector was mapped. |
| LifecycleCopies.SharedCopyStaysApart | src/numericAltrepOperations.cpp:46-56 | Over every run after a shared copy, no write through either is seen through the other, in any process. |
| LifecycleCopies.ExportedCopyIsItsSource | src/numericAltrepOperations.cpp:78-84 | When the name is gone, what is sent is what the vector holds when the private copy is done, if all writes to it meanwhile were ahead of the copy. |
| LifecycleCopies.ExportedCopyHoldsItsSource | src/numericAltrepOperations.cpp:78-84 | If nobody wrote to it, that is what it held when it was serialized. |
| LifecycleCopies.DuplicateAliasIsTheSamePointer | src/numericAltrepOperations.cpp:65-70 | With copy-on-write off a duplicate is the same pointer once more, and cannot fail. |
| LifecycleSharing.RunOnItsWay | src/altrep.cpp:73-125 | From the request for a vector to its end, whatever anybody does meanwhile, the source that was asked for is the one that is used. |
| LifecycleSharing.SharedVectorIsItsSource | src/altrep.cpp:106-125 | From the request to the finished vector: it holds the bytes that were given, in order, or what the source of a copy holds then if all writes to it meanwhile were ahead of the copy; under an id of its own, and apart from its source. |
| LifecycleSharing.SharedCopyHoldsItsSource | src/numericAltrepOperations.cpp:46-56 | If nobody wrote to the source, a shared copy holds what the source held at the request. |
| LifecycleSharing.SharedBytesAreRead | src/altrep.cpp:106-125 | Whoever holds a vector shared for its bytes, after any later run, reads these bytes, unless somebody wrote to it. |
| LifecycleQuiescence.WhatIsLeftAtQuiescence | src/altrep.cpp:63-102 | Once all wrappers are finalized no region is mapped, the names left are exactly the orphans', and an entry holds a segment if and only if its process created an orphan under that id or was refused its mapping with no success since. |
| LifecycleQuiescence.NothingIsLeftIff | src/sharedMemory.cpp:147-158 | Then no name, region or held segment is left in any process if and only if there is no orphan and no outstanding refusal. |
| LifecycleQuiescence.RefusedMappingOrphans | src/altrep.cpp:88-94 | Whenever the system refuses the mapping of a new segment, its name is orphaned. |
| LifecycleQuiescence.OrphansAreForever | src/altrep.cpp:88-94 | An orphan's name outlives every run, the exit of its creator included. |
| LifecycleWitnesses.RefusedMappingLeaks | src/altrep.cpp:88-94 | A world with no process and a name left behind is reached. |
| LifecycleWitnesses.RefusedImportHolds | src/sharedObjectClass.cpp:251-263 | A received vector whose mapping is refused after it was opened gives no wrapper and leaves the entry holding the segment. |
| LifecycleWitnesses.RefusedImportLeaks | src/sharedObjectClass.cpp:251-263 | A world is reached in which no wrapper is left, the name is gone, and a process holds the segment. |
| LifecycleWitnesses.CopyMayBeTorn | src/altrep.cpp:119-120 | A world is reached in which a shared copy is finished and differs from its source, which another process wrote to. |
| Startup.StepKeepsAlways | src/sharedMemory.cpp:304-334 | Every step, timeouts and failures included, keeps that one process at most creates the counter, once, and only that one zeroes it, once. |
| Startup.CounterIsInitialisedOnce | src/sharedMemory.cpp:304-334 | Over every run of any number of processes the counter is created and zeroed at most once; no increment is lost if and only if it still reads zero when it is zeroed; and it stays unzeroed if and only if its creator fails before. |
| Startup.GivenIdsAreDistinct | src/sharedMemory.cpp:92-94 | Under that condition the protocol gives no id twice in up to 2^64 increments. |
| Startup.LostStaysLost | src/sharedMemory.cpp:320-322 | A count that is lost by zeroing is never made good. |
| Startup.AcquireIsAlone | src/sharedMemory.cpp:52-61 | As long as nobody gave up, who takes a count of the semaphore enters alone. |
| Startup.NoTimeoutExcludes | src/sharedMemory.cpp:40-69 | Over every run without a timeout, failures included, at most one process is inside, although names are removed and instances made again. |
| Startup.TimeoutLetsTwoIn | src/sharedMemory.cpp:52-68 | From every reachable state in which a process can give up waiting, it and another process can be inside together two steps later. |
| Startup.LeavingMakesRoom | src/sharedMemory.cpp:62-68 | Whoever leaves or fails removes the name, and who arrives next gets a count at once. |
| Startup.FirstNeedNotWait | src/sharedMemory.cpp:46-61 | The first to arrive gets a count at once, and the next only waits or gives up. |
| Startup.SettledStaysSettled | src/sharedMemory.cpp:312-321 | Once the counter exists and nobody is about to create or zero it, every further run, with any timeouts and failures, leaves it so and loses no count. |
| Startup.StepKeepsTimely | src/sharedMemory.cpp:304-334 | A timely step keeps that until the counter is settled the semaphore excludes, nobody has seen the counter, and it reads zero. |
| Startup.TimelyRunCounts | src/sharedMemory.cpp:304-334 | If nobody gives up waiting before the counter is settled, no increment is lost, at most one process is inside until then, and whoever sees the counter sees it settled, and zeroed unless its creator failed. |
| Startup.HalfwayIsReachable | src/sharedMemory.cpp:318-322 | A timely run leads to a state where the counter is created, not yet zeroed, and another process waits. |
| Startup.EarlyTimeoutGivesAnIdTwice | src/sharedMemory.cpp:55-60 | A run from the start in which a waiter gives up there: its increment is lost when the counter is zeroed after it, and two processes are given id 1. |
| Startup.AbandonedCounterIsUsed | src/sharedMemory.cpp:318-328 | If the creator fails there, a later process uses a counter nobody constructed. |
| Startup.AbandonedCounterStillCounts | src/sharedObjectClass.cpp:80-87 | That counter starts from the zero bytes of the new segment, is never zeroed again, and loses no count over any run. |
| Startup.MutualExclusionIsNotKept | src/sharedMemory.cpp:40-69 | Even a timely run from the start leads to two processes inside at once. |
| CodeWidth.UnitSizeIsLeast | src/altrep.cpp:141-147 | For every number of distinct strings up to 2^64 the unit size is the least of 1, 2, 4, 8 bytes that tells them apart; the error branch is taken exactly beyond 2^64. |
| StringCodec.CodesFollowFirstOccurrence | src/altrep.cpp:130-140 | The string with the smaller code occurs first. |
| StringCodec.DistinctHasAll | src/altrep.cpp:172-174 | The character set has every string of the vector, and each once. |
| StringCodec.CodesInLonger | src/altrep.cpp:136-139 | A new string gets the next code, and the others keep theirs. |
| StringCodec.StoredKeepsOthers | src/altrep.cpp:153-171 | Storing a code leaves the bytes of every other unit alone. |
| StringCodec.StoredReadsBack | src/altrep.cpp:156-170 | A code that fits its unit reads back. |
| StringCodec.DecodeUndoesEncode | src/altrep.cpp:128-190 | For every vector with at most 2^64 distinct strings, the packed codes read back through the character set give the vector. |
| StringCodec.DecodesTheSameIff | src/altrep.cpp:223-245 | Another buffer of the same length decodes to the same vector if and only if it is the same buffer. |
| SharedString.StoreUnit | src/altrep.cpp:156-170 | Stores the bytes of a code at its unit and changes no other byte. |
| SharedString.ReadUnit | src/altrep.cpp:226-243 | Reads the code of a unit back from its bytes. |
| SharedString.Intern | src/altrep.cpp:130-140 | After the first loop the map holds exactly the strings of the vector, each with its place in order of first occurrence. |
| SharedString.InternedSlot | src/altrep.cpp:172-174 | Every code below the number of distinct strings belongs to the string in that place, so the codes are a bijection. |
| SharedString.FillCharSet | src/altrep.cpp:172-174 | Whatever the order in which the map is walked, every slot of the character set is filled with its string. |
| SharedString.EncodeInto | src/altrep.cpp:153-171 | After the second loop the buffer is the code of every element, one unit after the other. |
| StringCodec.EncodedReads | src/altrep.cpp:128-190 | What is made of a vector is well-formed, reads as that vector, and its decoded copy agrees. |
| SharedString.CreateSharedStringFromSource | src/altrep.cpp:128-190 | The shared vector decodes to the source, its decoded copy is the source, and its codes and unit size are the chosen ones; there is none exactly beyond 2^64 distinct strings. |
| SharedString.SharedStringClass.UnshareString | src/altrep.cpp:215-249 | The decoding loop gives what index and character set say. |
| SharedString.SharedStringClass.Elt | src/stringAltrepOperations.cpp:51-74 | An element read through the decoded copy or through the index is the same. |
| SharedString.SharedStringClass.DataPtr | src/stringAltrepOperations.cpp:25-37 | The decoded copy is filled with what the index says, once, and the contents do not change. |
| SharedString.SharedStringClass.DataPtrOrNull | src/stringAltrepOperations.cpp:38-49 | What is returned without filling the decoded copy is absent or the contents. |
| SharedString.SharedStringClass.Duplicate | src/stringAltrepOperations.cpp:113-128 | With copy-on-write a plain vector with the contents, without it the same data. |
| SharedString.SharedStringClass.SerializedState | src/stringAltrepOperations.cpp:130-138 | Whoever receives the state gets a string with the exporter's contents; the decoded copy is not sent, and the exporter keeps its own. |
| SharedString.Unserialize | src/stringAltrepOperations.cpp:140-157 | For every state: there is a vector if and only if the index is there, and it reads whatever the state carries. |
| SharedString.SendAndReceive | src/stringAltrepOperations.cpp:130-157 | The round trip: whether the index arrives as an alias or as an equal private vector, the received string has the contents of the sent one and an empty decoded copy; with no index there is no vector. |
| StringTransfer.ReceivedStringReads | src/stringAltrepOperations.cpp:130-157 | A string whose index has its name, exported by one process and received by any after any run that does not write its index, is an alias that decodes to the same vector, or NULL; an alias when the name is there and the mapping granted. |
| StringTransfer.ExportedStringReads | src/numericAltrepOperations.cpp:78-84 | When the name of its index is gone, the private copy that is sent decodes to the same vector, unless somebody writes to the index while it is copied. |
| StringTransfer.SharedIndexReads | src/altrep.cpp:128-190 | Whoever holds the index of a shared vector of strings at any later time reads that vector, unless somebody wrote to the index. |
| StringTransfer.SharedStringArrives | src/altrep.cpp:128-190 | From end to end: a vector shared by one process, from the request on, its index handed on by any run, exported anywhere and received anywhere later, decodes to that vector unless somebody writes to the index. |
| StringTransfer.SharedStringArrivesAsCopy | src/altrep.cpp:128-190 | The same when the name is gone by then, for the private copy that is sent. |
| StringTransfer.DecodedCopyAgreesIff | src/stringAltrepOperations.cpp:54-57 | After any run with any writes by anybody, a holder's decoded copy agrees with the index if and only if the bytes of the index are the same. |
| StringTransfer.WriteKeepsDecodedCopyIff | src/stringAltrepOperations.cpp:89-103 | A write to the index in any process leaves every holder's decoded copy in agreement if and only if it writes the byte that was there. |
| SharedString.SharedStringClass.SetElt | src/stringAltrepOperations.cpp:76-111 | A string outside the character set is rejected and nothing changes; otherwise one byte at byte offset i becomes its code and the decoded copy is left alone, which is what the write is meant to do if and only if it was safe. |
| StringWrite.ByteTouchesOneUnit | src/stringAltrepOperations.cpp:89-103 | A byte written at some place of a unit changes that unit's code by so much at that place and no other unit. |
| StringWrite.SetEltTouches | src/stringAltrepOperations.cpp:86-103 | What the write does to the codes, right or wrong: it replaces one byte of the code at position i / unit, at place i % unit, by the low byte of the new code, and changes no other code. |
| StringWrite.SetEltLandsIff | src/stringAltrepOperations.cpp:76-111 | The write makes position i read v, leaves the other positions and keeps the decoded copy in agreement if and only if `Safe` holds before it. |
| StringWrite.WriteAtEncoderWidthLands | src/altrep.cpp:156-170 | A write at the encoder's width is right for every unit size, exactly when there is no decoded copy that disagrees. |
| StringWrite.ForeignWriteKeepsWellIff | src/stringAltrepOperations.cpp:51-74 | When another holder has changed the index, a string with a decoded copy is well-formed if and only if the bytes are the same, and one without if and only if the codes are in range. |
| StringWrite.WideWriteGoesWrong | src/stringAltrepOperations.cpp:94-96 | A vector of 257 strings in which setting the second to the third goes wrong. |
| Buffers.GatheredElement | src/numericAltrepOperations.cpp:137-148 | Element i of the destination are the bytes iteration i read, for every element size. |
| Buffers.FitsDelivers | src/numericAltrepOperations.cpp:112-151 | When no 32-bit product wraps, what the loop gathers are, element by element, the elements at the one-based positions. |
| Buffers.TooLargeFails | src/numericAltrepOperations.cpp:133-142 | When some product wraps, there is a vector for which they are not. |
| Buffers.SubsetIsGatherIff | src/numericAltrepOperations.cpp:112-151 | For in-range subscripts and all five element sizes, every element of every vector arrives if and only if the subscripts are real or none of them times the element size reaches 2^31. |
| Buffers.SubsetByIntegersIff | src/utils.cpp:64-90 | In numbers: every element of every vector arrives at its place by integer subscripts if and only if they are below 2^29 for logicals and integers, 2^28 for doubles, 2^27 for complex numbers, and always for raw vectors. |
| Buffers.SubsetByReals | src/numericAltrepOperations.cpp:144-146 | By real subscripts, truncated, every element of every vector arrives. |
| Buffers.LastDoubleIsReadOutside | src/numericAltrepOperations.cpp:135-142 | The last of 2^28 doubles, asked for by an integer, is read before the vector begins. |
| Buffers.LaterComplexIsTheFirst | src/numericAltrepOperations.cpp:135-142 | Asking a complex vector for element 2^28 + 1 by an integer gives the first. |
| Buffers.SubsetBytes | src/numericAltrepOperations.cpp:137-148 | The loop over the destination buffer writes what `Gathered` says, leaves the source alone, and says whether every read stayed inside it. |
| Buffers.Subset | src/numericAltrepOperations.cpp:112-151 | The new vector is the gather function of the source when the products fit, and in any case what the loop gathered. |
| Buffers.SubsetOfSubset | src/numericAltrepOperations.cpp:112-151 | The bytes of a subset of a subset are those of the subset by the composed index, when all three fit. |
| Buffers.CopyData | src/utils.cpp:114-163 | The batched copy leaves the target of `Copied`, and says whether every write stayed inside it. |
| Buffers.BatchGoes | src/utils.cpp:117-162 | Where a batch goes, right or wrong: integers to place `ind`, other types to `ind * nbatch`, and nothing else in the target changes. |
| Buffers.HandledCopyIsRight | src/utils.cpp:135-143 | Integers in any batches, and other types in a single batch followed at most by batches of one, arrive as the source, after every number of batches. |
| Buffers.CopyIsRightIff | src/utils.cpp:114-163 | For non-empty batches, the copy gives the source for every source and target if and only if they are handled. |
| Buffers.DeliveredTotal | src/utils.cpp:119-138 | Full batches and a shorter last one deliver the whole vector. |
| Buffers.DeliveredIsHandledIff | src/utils.cpp:126-161 | So a vector of a type other than integer is copied correctly if and only if it fits one batch or exceeds it by one element. |
| ShareTree.DoKeepsValue | R/share.R:10-82 | share, tryShare and unshare change nothing but what is shared. |
| ShareTree.SharedExactly | R/share.R:40-73 | At every place of every tree: share shares exactly the atomics it reaches that are long enough, unshare unshares exactly those it reaches, and no other place changes. |
| ShareTree.AttributeOfShared | R/share-commonFuncs.R:67-77 | share takes every attribute of an atomic or a list when its option is on, without mustWork, except "class", "names" and "levels", which stay as they are. |
| ShareTree.AttributeOfUnshared | R/unshare.R:15-37 | unshare does the same with the attributes of a list, and takes all attributes of an atomic. |
| ShareTree.ElementsAndSlots | R/share-commonFuncs.R:1-53 | Both take every element of a list and every slot of an S4 object, which forgives what cannot be shared. |
| ShareTree.BelowNamesUnchanged | R/share-commonFuncs.R:67-77 | share changes nothing anywhere below an attribute of one of these three names. |
| ShareTree.SameReach | R/share.R:110-114 | mustWork does not change where share goes. |
| ShareTree.MustWorkFailsIff | R/share.R:87-102 | With mustWork, share fails if and only if something other than NULL that cannot be shared is reached through list elements alone. |
| ShareTree.UnshareFollowsShare | R/unshare.R:15-41 | Where share went unshare goes too, except through attributes of lists when its option is off. |
| ShareTree.StillSharedIff | R/share-commonFuncs.R:11-28 | Exactly which places of an unshared tree are still shared after share and unshare. |
| ShareTree.UnshareMissesListAttribute | R/share-commonFuncs.R:11-28 | A list whose attribute is shared with the option on and not unshared with it off. |
| ShareTree.UnshareUndoesShareIff | R/unshare.R:1-41 | unshare restores the tree that was shared if and only if its option is on or share had shared nothing inside an attribute of a list. |
| ShareLoops.Run | R/share.R:26-35 | The dispatch and the loops below it compute the function that the theorems speak of. |
| ShareLoops.RunAtomic | R/share.R:40-73 | An atomic is shared by length, its attributes by option; unsharing takes all its attributes. |
| ShareLoops.RunList | R/share-commonFuncs.R:1-30 | The element loop and the attribute step on a local copy; the first failure ends the call. |
| ShareLoops.RunAttributes | R/share-commonFuncs.R:67-77 | The attribute loop computes the attributes that `AttributeOfShared` and `AttributeOfUnshared` describe. |
| ShareLoops.RunSlots | R/share-commonFuncs.R:43-48 | The slot loop replaces every slot. |
| IsSharedReport.AnyIsContained | R/is.shared.R:4-68 | At every depth some leaf of the report is true exactly when a shared atomic is reached through list elements or slots. |
| IsSharedReport.IsSharedIsConsistent | R/is.shared.R:4-82 | The reports of all depths agree: OR-ing the leaves of any gives the single logical of depth zero, which says whether a shared atomic is contained. |
| IsSharedReport.ListReport | R/is.shared.R:27-32 | At a positive depth the report of a list has one entry for each element, in order, each one level less deep, which says whether a shared atomic is contained there. |
| IsSharedReport.DataPartReport | R/is.shared.R:47-61 | The report of an S4 object with a data part begins with that part, and has one entry for each further slot. |
| IsSharedReport.SlotReportAt | R/is.shared.R:48-53 | Every slot has its report, in order, in its own place. |
| IsSharedReport.ReportAlongPath | R/is.shared.R:27-68 | For every path through elements and slots no longer than the depth the report has an entry in its own place: the report of the value there at the remaining depth, saying whether a shared atomic is contained there, and a single logical where the depth is used up. |
| IsSharedReport.Check | R/is.shared.R:74-82 | The dispatch and its loops compute that report, whose shape `ReportAlongPath` and whose meaning `IsSharedIsConsistent` state. |
| IsSharedReport.CheckElements | R/is.shared.R:27-29 | The element loop computes the reports of the elements, in order. |
| IsSharedReport.CheckSlots | R/is.shared.R:47-61 | The slot loop computes the reports of the slots, the data part apart. |

## Left out

- LifecycleInvariant.RunKeepsInv: assumes fewer than 2^64 increments of the counter and no user-chosen numeric names; after a wrap-around an id could be reused while a process still lists it, and `AllocateMakesSegment` shows that the old segment would then be handed out.
- LifecycleInvariant.FillKeepsInv: a new segment is filled with the bytes of its source, as memcpy does, in order; a source without a data pointer is filled by the batched copy, and `CopyIsRightIff` says when that gives the same bytes.
- LifecycleQuiescence.NothingIsLeftIff: segments whose names and handles are gone are not deleted from the model.
- LifecycleCopies.SharedCopyStaysApart: a private copy made by duplicating (copy-on-write without a shared copy) is R memory of its process and is not part of the machine.
- RegistryClient.RunTracks: the counter of a key does not overflow its 32 bits, which takes 2^31 mappings of one key.
- IdSearch.IdCounter.GetNextId: run by one process; under interference the increment and the check are separate steps of `Lifecycle`.
- Startup.CounterIsInitialisedOnce: releasing the package data is not part of the protocol, and each call inside the protocol's steps is atomic.
- CodeWidth.UnitSizeIsLeast: logarithms are exact; the rounding of floating-point log2 is not modelled.
- Buffers.Subset: subscripts are in range, as the loop assumes; missing and out-of-range subscripts are not modelled. The model stops at the first read that leaves the source and says so; the product of a real subscript and the element size is taken as a 64-bit size that no vector exceeds.
- Buffers.CopyData: the writes are not checked in the code; the model stops at the first one that leaves the target and says so. R's own buffer size comes from its headers, so the batch size is a parameter.
- SharedString.SharedStringClass.SetElt: writes by other processes are in `StringTransfer` and `ForeignWriteKeepsWellIff`; writes through the data pointer of the decoded copy are not modelled.
- SharedString.StoreUnit: bytes are stored lowest first (little-endian), one at a time, where the code stores a machine word.
- ShareTree.SharedExactly: environments, data-frame row names, validity of S4 objects, user-defined share methods, and what R itself copies when attributes of an already shared vector are replaced are not modelled; identity tests that only save a copy are left out.
- IsSharedReport.IsSharedIsConsistent: for reports without attributes (`showAttributes` off) and without environments.
- Windows shared memory, where a name dies with its last handle.
- boost.interprocess, memory mapping, the probe for a bus error and the free-space check: a step of the system that is granted or not; creating, sizing and zeroing a segment is one atomic step.
- Which step duplicating takes (an alias, a shared copy or a private one) is decided by the flags of the object; the machine has a step for each and leaves the choice open.
- The garbage collector, protection of R objects, registration of ALTREP classes, Rcpp, printing: a finalizer is a step that may happen at any time, and when R duplicates before a write is up to R.
- Explicit free, changes of ownership and names chosen by the user in the many-process machine: they are in `RegistryClient`, where one process's registry meets arbitrary others.
- A process that is killed: `Exit` runs the destructors of all its entries.
- The registry entry of the id counter itself in the many-process machine, and releasing it.
- The spelling of ids in decimal and the prefix of keys: distinct ids have distinct keys.
- The size query, property and option getters and setters, argument parsing, and listing of shared objects: plumbing.
