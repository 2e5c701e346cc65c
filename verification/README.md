# A verified model of the Nachos kernel

This project models the kernel of a Nachos teaching operating system in Dafny
4.11 and proves what its protocols and data structures promise.
`dafny verify dfyconfig.toml` checks everything.

Nachos runs on a uniprocessor and gets atomicity by turning interrupts off. A
stretch of kernel code that runs with interrupts off is one transition of a
state machine, and a preemption may fall between any two transitions. A run is
any sequence of transitions from boot, so a statement about every run is a lemma
over every sequence. What the threads called for is read off the statements
executed (`Steps`, a trace of threads and statements) and not off what the
transitions do with them; the laws tie the two together. Code that runs by itself is
modelled as it is written: classes with fields that are updated in place, loops with
invariants.

Four parts:

- **Threads and synchronisation.** `Kernel` is the scheduler with semaphores and
  condition queues; `KernelSafety`, `KernelRuns` and `KernelTraces` prove its invariant
  and what holds in every run; `KernelObjects` is the same kernel as an object,
  statement by statement, on the linked lists of `LinkedLists`. `Locks`, `SynchLists`,
  `ReadersWriters` and `DiskRequests` are protocols on top of the kernel machine, with
  its real scheduling; their other threads may do anything unrelated. `SectorCaches` is
  the cache of the synchronous disk.
- **The file system, from bits to bytes.** `BitMaps`, `Codec`, `Storage`,
  `FileHeaders`, `OpenFiles`, `StaleSlots` (writes that a file cannot grow for),
  `IndexedWrites` (writes through an index block), `Directories`, and on top of them
  `FileSystems` (who owns every sector, and why that survives each change),
  `FileStores` (the file system as a map from names to bytes) and `FileSystemOps` (the
  operations).
- **Simulated time.** `LinkedLists`, `Interrupts`, `DiskTiming`.
- **The machine.** `Multiply`, `Paging`.

An ASSERT that fails stops the machine. Where an operation can run into one, the model
says exactly when (a `Stopped`, `Halted`, `aborted`, `stopped` or `None` result); where
it cannot, that is proved. Some are preconditions of the method that holds them: the
range of the bit in `BitMap.Mark`, `Clear` and `Test`, the range of the sector in
`SectorDisk.ReadSector` and `WriteSector`, and interrupts being off in
`Interrupt.CheckIfDue`, and so in `Idle`, which is called with interrupts off. Their
callers are proved to meet them, or test the condition first and report the stop. The
kernel's own ASSERTs about the running thread and about interrupts being off hold by the
construction of its transitions.

Where the code falls short of its intent the model follows the code, and the exact
condition under which the intent is met is proved:

- Files of exactly 26 sectors are direct for `Allocate` and indirect for
  `ByteToSector` (`MappingAgreesIff`, `LastDirectIff`); writes that end before the last
  sector are not affected (`WritesFound`).
- Index entries are read back as one signed char, so the indirect sectors must lie
  below 128 (`EntryReadBack`, `MappingAgreesIff`, `GivenBackIff`, `LandsIff`); a caller
  sees from the free map whether they will (`FileHeader.Allocate`, `TakeAndGiveBack`).
- The free-space check does not count the index block (`FileHeader.Allocate`).
- `ExtendFile` takes one sector whatever is needed (`GrownOwnsIff`), and `WriteAt`
  ignores its answer; either way it goes on to write through slots that were never
  filled (`UnharmedIff`, `RefusedOverwrites`, `GrowthByTwoOverwrites`).
- `FirstFind` runs into an ASSERT instead of returning -1 (`BitMap.FirstFind`); so
  `Allocate`'s search sector by sector is never reached.
- `WriteSector` does not update the cache (`KeepsCoherentIff`, `StaleRead`,
  `ReadBackAsFilled`, `FindReadsOldDirectory`).

Conventions. C ints are unbounded unless a type says otherwise (`Int32`, `UInt32`,
bit-vector words in `BitMaps`). Garbage from `new` is an arbitrary value. Some states
carry history (counts of completed operations, logs, owners) that no transition
reads.

## Model

| member | source | states |
|---|---|---|
| `KernelSafety.PKeeps` | code/threads/synch.cc:64-78 | a turn of P's loop (consume a unit, or queue up and sleep) keeps the kernel invariant: every thread in the one place its point says, units accounted for, threads deleted at most once |
| `KernelSafety.VKeeps` | code/threads/synch.cc:88-100 | V, by a thread or by an interrupt handler at any moment, keeps the kernel invariant |
| `KernelSafety.YieldKeeps` | code/threads/thread.cc:195-230 | Yield keeps the kernel invariant |
| `KernelSafety.PollKeeps` | code/threads/thread.cc:262-268 | a turn of the idle loop in Sleep keeps the kernel invariant, also when the idle thread itself is the one dispatched |
| `KernelSafety.FinishKeeps` | code/threads/thread.cc:164-175 | Finish keeps the kernel invariant |
| `KernelSafety.WaitKeeps` | code/threads/synch.cc:163-164 | joining a condition's queue and sleeping keeps the kernel invariant |
| `KernelSafety.SignalKeeps` | code/threads/synch.cc:171-181 | Signal keeps the kernel invariant |
| `KernelSafety.BroadcastWakesAll` | code/threads/synch.cc:184-194 | Broadcast makes every waiter ready in queue order, empties the queue and changes nothing else |
| `KernelSafety.ForkKeeps` | code/threads/thread.cc:100-120 | Fork of a thread not forked yet keeps the kernel invariant |
| `KernelSafety.StepKeeps` | code/threads/thread.cc:100-269 | every kernel transition keeps the invariant |
| `KernelRuns.Reachable` | code/threads/scheduler.cc:54-143 | the invariant holds after every sequence of transitions from boot, for any number of threads, semaphores and conditions |
| `KernelRuns.NoLostWakeup` | code/threads/synch.cc:64-100 | in every run value = initial + completed Vs - completed Ps, and with a sleeper left value is at most the number of woken threads that have not looked again; so a unit beside a sleeper always has a claimant that is ready or running |
| `KernelRuns.IdleMeansExhausted` | code/threads/thread.cc:251-269 | when the processor idles with nobody ready, every semaphore with a sleeper is at zero |
| `KernelRuns.OnePlace` | code/threads/scheduler.cc:54-143 | in every run each thread is in exactly one place, once (unforked, processor, ready list, one wait queue, finished), and its status is that of the place |
| `KernelRuns.FinishedForever` | code/threads/thread.cc:164-175 | a finished thread stays finished, is never ready, and is never dispatched in any continuation |
| `KernelRuns.TakeShape` | code/threads/scheduler.cc:75-80 | one step takes at most the head off the ready list, makes it the running thread, and otherwise only appends |
| `KernelRuns.DispatchOrder` | code/threads/scheduler.cc:54-80 | from every reachable state, the thread at index k of the ready list is returned by exactly the (k+1)-th successful FindNextToRun |
| `KernelRuns.WakeOrder` | code/threads/synch.cc:70-98 | sleepers on a semaphore are woken in the order in which they went to sleep, over every run |
| `KernelRuns.SignalOrder` | code/threads/synch.cc:163-178 | waiters of a condition are signalled in the order in which they began to wait, over every run |
| `KernelTraces.UnitsCounted` | code/threads/synch.cc:64-100 | in every run the value of a semaphore is its initial value, plus the calls of V on it that were executed, minus the calls of P on it that came back |
| `KernelTraces.QueuedWhereCalled` | code/threads/thread.cc:100-269 | in every run a thread is queued on the semaphore, or the condition, that its own last call names; it is finished exactly when that call was Finish, and not begun exactly when nobody forked it |
| `KernelTraces.FinishedIsDeleted` | code/threads/scheduler.cc:129-133 | in every run the thread that finished last is deleted as soon as a thread that has run before gets the processor |
| `KernelObjects.Queues.Append` | code/threads/list.cc:76-88 | appending to one of the kernel's linked lists appends to its contents, keeps all lists well formed and apart, and changes no other |
| `KernelObjects.Queues.Remove` | code/threads/list.cc:124-128 | takes the head off one list, NULL exactly when it is empty, and changes no other |
| `KernelObjects.NachosKernel.ReadyToRun` | code/threads/scheduler.cc:54-65 | appending to the linked ready list is the machine's ReadyToRun, and touches no wait queue |
| `KernelObjects.NachosKernel.FindNextToRun` | code/threads/scheduler.cc:75-80 | takes the head off the linked ready list, or nothing when it is empty |
| `KernelObjects.NachosKernel.Sleep` | code/threads/thread.cc:251-269 | blocks the thread and dispatches the head of the linked ready list, or leaves the processor idle |
| `KernelObjects.NachosKernel.Yield` | code/threads/thread.cc:195-230 | is the machine's Yield and keeps its invariant |
| `KernelObjects.NachosKernel.Fork` | code/threads/thread.cc:100-120 | is the machine's Fork and keeps its invariant |
| `KernelObjects.NachosKernel.Finish` | code/threads/thread.cc:164-175 | is the machine's Finish and keeps its invariant |
| `KernelObjects.NachosKernel.P` | code/threads/synch.cc:64-78 | a turn of P, with its linked queue, is the machine's and keeps its invariant, and reports whether a unit was consumed |
| `KernelObjects.NachosKernel.V` | code/threads/synch.cc:88-100 | V moves the head of the linked queue to the linked ready list before it increments the value, and is the machine's |
| `KernelObjects.NachosKernel.WaitOn` | code/threads/synch.cc:163-164 | the tail of Wait is the machine's |
| `KernelObjects.NachosKernel.Signal` | code/threads/synch.cc:171-181 | Signal is the machine's |
| `KernelObjects.NachosKernel.Broadcast` | code/threads/synch.cc:184-194 | the loop of Signals ends and is the machine's Broadcast |
| `Locks.TurnPKeeps` | code/threads/synch.cc:119-123 | taking the lock's semaphore keeps the lock invariant, with a preemption possible before the holder is recorded |
| `Locks.AssignKeeps` | code/threads/synch.cc:123-123 | recording the holder keeps the lock invariant |
| `Locks.ReleaseKeeps` | code/threads/synch.cc:128-142 | a Release by anybody, holder or not, keeps the lock invariant |
| `Locks.PostKeeps` | code/threads/synch.cc:133-134 | giving the unit back after clearing the holder keeps the lock invariant |
| `Locks.MutualExclusion` | code/threads/synch.cc:119-142 | in every interleaving the semaphore of a lock plus the threads that hold its unit is 1; these are, read off the statements executed, the threads that have returned from Acquire of that lock, or are about to, and have not done their Release; heldthread is NULL or that one thread |
| `Locks.HolderAlone` | code/threads/synch.cc:119-142 | while a thread is the recorded holder nobody else is between decrement and increment, and only its own Release can change the record |
| `Locks.AcquireTakes` | code/threads/synch.cc:119-123 | in every run, Acquire of a free lock takes the unit at once and leaves the caller as the holder |
| `Locks.ReleaseGives` | code/threads/synch.cc:128-142 | in every run, the Release of the holder leaves the semaphore at 1, no owner and no holder; that of anybody else changes nothing |
| `Locks.GoesForward` | code/threads/synch.cc:119-142 | in every run, whoever runs inside Acquire or Release can execute its next statement, and is closer to the end after it or asleep on the lock at 0 |
| `SynchLists.WaitGood` | code/threads/synch.cc:157-168 | Wait's release, queueing and sleep in one piece keep the monitor invariant |
| `SynchLists.SignalGood` | code/threads/synch.cc:171-181 | the Signal of Append turns one sleeper into one thread on its way and keeps the monitor invariant |
| `SynchLists.AppendGood` | code/threads/synchlist.cc:53-60 | appending under the lock keeps the monitor invariant |
| `SynchLists.TakeGood` | code/threads/synchlist.cc:76-80 | taking under the lock finds an item and keeps the monitor invariant |
| `SynchLists.StepKeeps` | code/threads/synchlist.cc:53-82 | every statement of Append and Remove, preemption and all other kernel activity keep the monitor invariant |
| `SynchLists.ExactlyOnceInOrder` | code/threads/synchlist.cc:53-82 | in every interleaving the items that the Remove calls returned are, in order, a prefix of the items that the Append calls were given; one at most is on its way to its caller, the rest is the list; ASSERT(item != NULL) never fires |
| `SynchLists.CallsCarriedOut` | code/threads/synchlist.cc:53-82 | in every interleaving the calls of a thread are carried out once each, in order: an Append puts the item it was given on the list, a Remove returns one; all of them when the thread is outside, all but the last otherwise |
| `SynchLists.GoesForward` | code/threads/synchlist.cc:53-82 | in every run, whoever runs inside a call can execute its next statement, and is closer to the end after it, or asleep on the lock at 0, or waiting for an item with the list empty |
| `SynchLists.NoItemForgotten` | code/threads/synchlist.cc:53-82 | whenever the lock is free and a thread waits, there are at least as many signalled threads as items, each ready, running or queued for the lock |
| `ReadersWriters.JoinOthers` | code/filesys/synchdisk.cc:148-156 | a reader that is not the first finds the sector's unit held by readers already inside |
| `ReadersWriters.LeaveOthers` | code/filesys/synchdisk.cc:161-169 | a leaving reader sees count 0 exactly when it is the only reader covered by the unit |
| `ReadersWriters.StepKeeps` | code/filesys/synchdisk.cc:147-187 | every statement of the four operations keeps the readers/writers invariant |
| `ReadersWriters.AsAsked` | code/filesys/synchdisk.cc:147-187 | in every run a thread in an operation, or inside, is there for the sector and the kind of access it called for last, read off the statements executed |
| `ReadersWriters.WritersExclude` | code/filesys/synchdisk.cc:147-187 | in every run and for every sector, semaphore + writers inside + (1 if readers inside) = 1, readerNum counts the readers, and while a thread that asked to write the sector is inside, no other thread that asked for that sector is |
| `ReadersWriters.BlockedByWriter` | code/filesys/synchdisk.cc:148-156 | a reader asleep while holding readerLock waits for a writer of that sector, inside or woken to enter, never for a reader |
| `ReadersWriters.WriterLeavesFreely` | code/filesys/synchdisk.cc:181-187 | a writer leaves in one step without readerLock, whoever holds it, and wakes the longest sleeper of the sector |
| `ReadersWriters.ReaderGetsIn` | code/filesys/synchdisk.cc:147-156 | in every run, a reader that finds readerLock free and no writer inside its sector gets in without waiting, however many readers are there; the first one takes the unit |
| `ReadersWriters.ReaderGetsOut` | code/filesys/synchdisk.cc:160-169 | a reader that finds readerLock free gets out without waiting; the last one gives the unit back |
| `ReadersWriters.WriterGetsIn` | code/filesys/synchdisk.cc:172-177 | a writer gets in at once exactly when nobody has the unit of the sector, and waits otherwise |
| `ReadersWriters.GoesForward` | code/filesys/synchdisk.cc:147-187 | in every run, whoever runs inside an operation can execute its next statement, and is closer to the end after it, or asleep on a semaphore at 0 |
| `SectorCaches.CachedDisk.ReadSector` | code/filesys/synchdisk.cc:80-112 | the search loop and the fill or copy, in place, are the cache's specification of a read |
| `SectorCaches.CachedDisk.WriteSector` | code/filesys/synchdisk.cc:123-130 | a write changes the disk and leaves the cache alone |
| `SectorCaches.DoKeepsOrder` | code/filesys/synchdisk.cc:86-107 | an access keeps the entries the last four fills, each in its slot, with no sector twice |
| `SectorCaches.EvictionOrder` | code/filesys/synchdisk.cc:80-130 | the same after every run of accesses |
| `SectorCaches.EvictsOldest` | code/filesys/synchdisk.cc:98-101 | a miss evicts exactly the sector filled four fills earlier |
| `SectorCaches.CoherentIffReadsCurrent` | code/filesys/synchdisk.cc:86-107 | the cache agrees with the disk exactly when every read returns the current contents |
| `SectorCaches.KeepsCoherentIff` | code/filesys/synchdisk.cc:123-130 | an access keeps reads current exactly when it is not a write that changes a cached sector |
| `SectorCaches.ReadsCurrent` | code/filesys/synchdisk.cc:80-130 | on every run in which no write hits a cached sector, any read returns the current contents |
| `SectorCaches.StaleRead` | code/filesys/synchdisk.cc:80-130 | the run read, overwrite, read returns the old contents, for every sector and every change |
| `SectorCaches.ReadBackAsFilled` | code/filesys/synchdisk.cc:80-130 | over every run, a sector is read as it was when it was filled as long as at most three fills came after, whatever was written; and as on the disk once it is evicted |
| `SectorCaches.FindReadsOldDirectory` | code/filesys/filesys.cc:189-211 | after the disk accesses of a Create, with the directory not cached before, a Find through the cache reads the directory as it was before |
| `DiskRequests.StepKeeps` | code/filesys/synchdisk.cc:80-142 | every statement of ReadSector and WriteSector, every disk interrupt and all other activity keep the request invariant |
| `DiskRequests.OneRequestAtATime` | code/filesys/synchdisk.cc:80-142 | in every interleaving, when the lock is free the disk is inactive, its semaphore 0 and no disk interrupt pending; ASSERT(!active) never fires |
| `DiskRequests.SleeperHasInterrupt` | code/filesys/synchdisk.cc:110-142 | a thread asleep on the completion semaphore always has its interrupt still to come |
| `DiskRequests.Linearizable` | code/filesys/synchdisk.cc:80-130 | every concurrent run equals the sequential replay of its accesses, in store and in every value read |
| `DiskRequests.LogIsWhatWasAsked` | code/filesys/synchdisk.cc:80-130 | in every run the accesses of a thread in that replay are the ones it called for, in order: all of them when it is outside, and all but the last otherwise |
| `DiskRequests.LogGrows` | code/filesys/synchdisk.cc:80-130 | accesses are never taken back or reordered, so one that had returned when another was called for comes before it |
| `DiskRequests.GoesForward` | code/filesys/synchdisk.cc:80-130 | in every run, whoever runs inside an access can execute its next statement, and is closer to the end after it, or asleep on a semaphore at 0 |
| `DiskRequests.ReadsReturnCurrent` | code/filesys/synchdisk.cc:80-130 | so if no write hit a cached sector, every read in every thread returned what the disk then held |
| `LinkedLists.List.Append` | code/threads/list.cc:76-88 | the pointer updates append to the sequence the list represents |
| `LinkedLists.List.Prepend` | code/threads/list.cc:102-114 | the pointer updates put the item in front |
| `LinkedLists.List.SortedRemove` | code/threads/list.cc:217-237 | the head comes off, NULL exactly when the list is empty |
| `LinkedLists.List.SortedInsert` | code/threads/list.cc:178-202 | the insertion walk puts the item before the first larger key |
| `LinkedLists.InsertedPlace` | code/threads/list.cc:178-202 | an inserted item stands behind every item with the same key and before every larger one |
| `LinkedLists.InsertedSorted` | code/threads/list.cc:178-202 | insertion keeps a sorted list sorted |
| `LinkedLists.InsertedItems` | code/threads/list.cc:178-202 | insertion adds that item and nothing else |
| `LinkedLists.ReinsertRotates` | code/machine/interrupt.cc:313-329 | taking the head and inserting it again rotates exactly the run of equal keys at the front |
| `Interrupts.PollProgress` | code/machine/interrupt.cc:303-353 | a poll that fires leaves one interrupt fewer due whatever the handler schedules; one that does not leaves nothing due, or an idle machine with a sole timer |
| `Interrupts.RotateKeeps` | code/machine/interrupt.cc:324-329 | a poll that finds nothing due keeps the multiset, the sortedness and the order against what has fired |
| `Interrupts.Interrupt.Schedule` | code/machine/interrupt.cc:277-288 | queues the interrupt by time, or stops exactly when fromNow is not positive |
| `Interrupts.ScheduledGains` | code/machine/interrupt.cc:277-288 | the queue gains exactly one interrupt, with the handler, argument, time and kind of the request |
| `Interrupts.Interrupt.CheckIfDue` | code/machine/interrupt.cc:303-353 | exactly when a poll fires, what it fires, where the clock goes, and what is queued afterwards |
| `Interrupts.Interrupt.FireAllDue` | code/machine/interrupt.cc:173-174 | the polling loop ends; what was due has then fired, at this time (except a sole timer of an idle machine), and every interrupt is pending or fired as often as it was pending or asked for by a handler that fired |
| `Interrupts.Interrupt.OneTick` | code/machine/interrupt.cc:152-184 | one system or user tick, then the polling loop; a context switch is due exactly when one was, or a handler that fired asked for it |
| `Interrupts.Interrupt.SetLevel` | code/machine/interrupt.cc:115-129 | enabling interrupts is a tick with its polling loop, anything else takes no time and fires nothing; stopped exactly when a handler enables them |
| `Interrupts.Interrupt.Idle` | code/machine/interrupt.cc:215-239 | halts exactly when nothing but a timer is pending; otherwise skips the clock to the first interrupt and fires all that is due, losing none |
| `Interrupts.GoneHasFired` | code/machine/interrupt.cc:303-353 | so an interrupt that was pending and is not any more has fired, as often as it was pending |
| `Interrupts.Interrupt.Run` | code/machine/interrupt.cc:115-353 | over every run the clock is monotone and totalTicks = idleTicks + systemTicks + userTicks; interrupts fire in order of their scheduled time and never early; each is pending or fired as often as it was pending or asked for, by the calls or by the handlers; and nothing but a timer is overdue |
| `DiskTiming.SeekIsDistance` | code/machine/disk.cc:179-194 | the seek time is a distance between tracks that adds up along them |
| `DiskTiming.NextTrack` | code/machine/disk.cc:182-183 | tracks are the stretches of SectorsPerTrack sectors from sector 0 on |
| `DiskTiming.TimeAfterBoundary` | code/machine/disk.cc:179-194 | after the seek the head waits for the next sector boundary, less than one sector long |
| `DiskTiming.ModuloDiffFirst` | code/machine/disk.cc:202-209 | ModuloDiff is the distance to the first slot in which the sector passes |
| `DiskTiming.InBufferIff` | code/machine/disk.cc:239-247 | the buffer path is taken exactly when the sector passed completely since the buffer began to load |
| `DiskTiming.LatencyAligned` | code/machine/disk.cc:249-252 | otherwise the request ends at a sector boundary just after the requested sector, at its first passing |
| `DiskTiming.Disk.Request` | code/machine/disk.cc:115-153 | over every run of requests: a buffered read is of a sector that passed under the head, on its track, since bufferInit; any other request ends as the sector has first passed; the ASSERTs fire exactly on overlap or a bad sector |
| `DiskTiming.Disk.HandleInterrupt` | code/machine/disk.cc:161-166 | completion clears the flag and leaves head and buffer alone |
| `Multiply.MultiplyUnsigned` | code/machine/mipssim.cc:655-676 | the shift-and-add loop with its early break, arithmetic shift and split carry yields the exact product of the unsigned readings |
| `Multiply.Mult` | code/machine/mipssim.cc:633-690 | hi:lo is the exact 64-bit product for all words, signed and unsigned |
| `BitMaps.BitMap.Mark` | code/userprog/bitmap.cc:51-56 | sets exactly that bit of the set |
| `BitMaps.BitMap.Clear` | code/userprog/bitmap.cc:65-70 | clears exactly that bit of the set |
| `BitMaps.BitMap.Test` | code/userprog/bitmap.cc:79-88 | membership in the set |
| `BitMaps.BitMap.Find` | code/userprog/bitmap.cc:99-129 | takes the least clear bit, -1 exactly when there is none |
| `BitMaps.BitMap.FirstFind` | code/userprog/bitmap.cc:131-148 | takes the least free run and marks exactly it; when there is none it stops in Test's ASSERT exactly for sizes of two and more |
| `BitMaps.BitMap.NumClear` | code/userprog/bitmap.cc:157-165 | counts the bits that are not in the set |
| `BitMaps.RunTakesExactly` | code/userprog/bitmap.cc:131-148 | taking a free run lowers the number of clear bits by exactly its size |
| `Codec.IntsRoundTrip` | code/filesys/filehdr.cc:123-143 | ints survive the layout in bytes |
| `Codec.WordsRoundTrip` | code/userprog/bitmap.cc:194-211 | bitmap words survive the layout in bytes |
| `FileHeaders.HeaderRoundTrip` | code/filesys/filehdr.cc:122-143 | a header survives WriteBack and FetchFrom |
| `FileHeaders.HeaderLayout` | code/filesys/filehdr.h:65-74 | where the fields of a header lie in its sector |
| `FileHeaders.FewestSectors` | code/threads/utility.h:40-40 | a file has as many sectors as its bytes need, and no more |
| `FileHeaders.FileHeader.ByteToSector` | code/filesys/filehdr.cc:155-169 | is the mapping of block numbers to sectors, direct or through the index block; -1 where the index block is not on the disk |
| `FileHeaders.MappingAgreesIff` | code/filesys/filehdr.cc:155-169 | for every size but 26 sectors, ByteToSector sends each block to the sector allocated for it exactly when the indirect sectors lie below 128 |
| `FileHeaders.LastDirectIff` | code/filesys/filehdr.cc:158-165 | with 26 sectors the last block is found exactly when its own first byte, as a signed char, is its sector number |
| `FileHeaders.EntryReadBack` | code/filesys/filehdr.cc:164-165 | an index entry is read back as written exactly when it fits a signed char |
| `FileHeaders.FileHeader.Allocate` | code/filesys/filehdr.cc:41-85 | no space, stopped, overrun or allocated, each exactly when; an allocated file has fresh distinct sectors laid out in order (the first free run if direct); an indirect one comes out readable exactly when it is smaller than the number of free sectors below 128, and loses its last block when it uses up the last sector |
| `FileHeaders.GivenBackIff` | code/filesys/filehdr.cc:94-113 | what Deallocate gives back is what Allocate took exactly when the index entries are readable |
| `FileHeaders.AllocatedGivesBack` | code/filesys/filehdr.cc:41-113 | then Deallocate after Allocate restores every mark |
| `FileHeaders.FileHeader.Deallocate` | code/filesys/filehdr.cc:94-113 | which headers an ASSERT stops, exactly (direct: a sector not marked, twice or not on the disk; indirect: one not on the disk); otherwise clears exactly the sectors the header owns |
| `FileHeaders.FileHeader.ExtendFile` | code/filesys/filehdr.cc:282-306 | grows within the last sector, or takes one sector however many are needed; no room, running past the table and falling off the end exactly when |
| `FileHeaders.GrownOwnsIff` | code/filesys/filehdr.cc:297-305 | a grown direct file owns its old sectors and the new one, once each, exactly when it grew by one sector |
| `OpenFiles.AllocatedWellMapped` | code/filesys/filehdr.cc:41-169 | for 1..25 or 27..57 sectors (indirect ones below 128), the blocks of an allocated file are mapped to the sectors taken for them, one to one, and never to the index block |
| `OpenFiles.SliceIff` | code/filesys/openfile.cc:133-136 | a byte of the file is among those returned exactly when it was asked for, in its place |
| `OpenFiles.OpenFile.ReadAt` | code/filesys/openfile.cc:126-155 | returns exactly the slice of the file's bytes clipped to its length, for all alignments and whatever the table holds; stopped exactly when a slot it reads through is not a sector |
| `OpenFiles.PreparedAt` | code/filesys/openfile.cc:188-201 | the prepared buffer holds new bytes where the write reaches and old bytes of the file elsewhere, whatever garbage it started with |
| `OpenFiles.OpenFile.WriteSectors` | code/filesys/openfile.cc:184-207 | the end of WriteAt, for every table: reads in the sectors kept in part and writes each block to where the table says at that moment |
| `OpenFiles.TailSplices` | code/filesys/openfile.cc:184-207 | on a well-mapped file it splices the bytes in, leaves all other bytes of the file and all other sectors alone, and is never stopped |
| `OpenFiles.OpenFile.Extend` | code/filesys/openfile.cc:168-178 | header and free map on the disk after every answer of ExtendFile; the nested write of the free map never extends |
| `OpenFiles.OpenFile.WriteAt` | code/filesys/openfile.cc:157-210 | every call within the bounds of the tables, whatever ExtendFile answers, is the extension it made followed by the write through the table it left; the recursion through the free map ends |
| `OpenFiles.WritesWithin` | code/filesys/openfile.cc:157-210 | within the length of a well-mapped file that is a splice |
| `OpenFiles.WritesBeyond` | code/filesys/openfile.cc:157-210 | beyond it, where the file can grow, it is growth by at most one sector and a splice; neither is stopped |
| `OpenFiles.WritesFound` | code/filesys/openfile.cc:157-210 | in a file of exactly 26 sectors, a write that ends before the last one is a splice of the part that ByteToSector finds |
| `OpenFiles.SplicedContent` | code/filesys/openfile.cc:157-210 | a write within the file replaces that stretch of the byte sequence |
| `OpenFiles.GrownContent` | code/filesys/openfile.cc:157-210 | a write past the end keeps the bytes before the position and ends with the new ones; a gap holds what the sectors held |
| `OpenFiles.ReadNext` | code/filesys/openfile.cc:78-87 | Read returns the next slice and moves the position by its length; stopped exactly when a slot it reads through is not a sector |
| `OpenFiles.ReadsAddUp` | code/filesys/openfile.cc:78-87 | reading in pieces gives the bytes of one read |
| `OpenFiles.FetchMap` | code/userprog/bitmap.cc:194-198 | the bitmap in memory becomes the one on the disk |
| `OpenFiles.WriteBackMap` | code/userprog/bitmap.cc:207-211 | the bitmap on the disk becomes the one in memory, and only its sector changes |
| `StaleSlots.UnharmedIff` | code/filesys/openfile.cc:168-206 | for a direct file and a write that ends within the direct slots: all sectors but those of the file, its header, the free map and the sector taken stay as they are, for all contents of the unused slots and all buffers, exactly when the file has the sectors, or lacks one and a sector is free |
| `StaleSlots.RefusedOverwrites` | code/filesys/openfile.cc:173-206 | a full free map and 0 in the second slot of a file of one sector: one byte written at 128 replaces sector 0, the header of the free map |
| `StaleSlots.GrowthByTwoOverwrites` | code/filesys/filehdr.cc:297-305 | room for two sectors and 0 in the third slot: one byte written at 256 takes one sector, gives the file three and replaces sector 0 |
| `IndexedWrites.LandsIff` | code/filesys/openfile.cc:184-206 | a write within a file with an index block puts its bytes into the blocks allocated for them and changes no other sector, for all bytes and garbage, exactly when the blocks it reaches through the index block lie below 128 |
| `Directories.SameKeyIff` | code/filesys/directory.cc:95-95 | two names are the same exactly when strncmp finds no difference in the first 9 characters |
| `Directories.CopiedSameKey` | code/filesys/directory.cc:95-139 | a name stored by strncpy is the same name for strncmp |
| `Directories.Directory.FindIndex` | code/filesys/directory.cc:91-98 | finds the first entry in use under the name, none exactly when there is none |
| `Directories.Directory.Find` | code/filesys/directory.cc:109-117 | the header sector of the name, -1 when it is not there |
| `Directories.Directory.Add` | code/filesys/directory.cc:130-147 | refuses exactly when the name is there or the table full, otherwise fills the first free entry; unique names stay unique |
| `Directories.Directory.Remove` | code/filesys/directory.cc:157-166 | frees the first entry under the name, which is then not found any more if names were unique |
| `Directories.AddedFound` | code/filesys/directory.cc:91-147 | after Add the name is found in its entry and every other name where it was |
| `Directories.TableRoundTrip` | code/filesys/directory.cc:63-81 | a directory survives WriteBack and FetchFrom |
| `Directories.EntryLayout` | code/filesys/directory.h:32-43 | where the fields of an entry lie in the directory file |
| `FileSystems.OneFileChanged` | code/filesys/filesys.cc:178-340 | when one file changes and takes only its own or free sectors, every sector still has one owner and is marked exactly when owned |
| `FileSystems.CreatedOk` | code/filesys/filesys.cc:197-211 | a created file leaves every sector with one owner, marked exactly when owned |
| `FileSystems.RemovedOk` | code/filesys/filesys.cc:330-335 | so does a removed one |
| `FileSystems.WrittenOk` | code/filesys/openfile.cc:168-206 | so does one that was written to and perhaps extended |
| `FileSystems.OtherContentKept` | code/filesys/filesys.cc:178-340 | creating and removing files leaves the bytes of the others alone |
| `FileSystems.OtherContentWritten` | code/filesys/openfile.cc:157-210 | so does writing to a file |
| `FileSystemOps.FileSystem.Format` | code/filesys/filesys.cc:80-141 | formatting gives a disk with no files on which exactly sectors 0 to 4 are marked and owned; the ASSERTs hold |
| `FileSystemOps.TakeAndGiveBack` | code/filesys/filesys.cc:197-331 | the calls of Create and then Remove on the free map restore every mark, with no ASSERT, exactly for direct files and for indirect ones with enough free sectors below 128 |
| `FileStores.CreatedFiles` | code/filesys/filesys.cc:178-219 | a creation adds one name, with a file of that length, to the map from names to bytes |
| `FileStores.RemovedFiles` | code/filesys/filesys.cc:309-340 | a removal takes one name out of the map |
| `FileStores.WrittenFiles` | code/filesys/openfile.cc:157-210 | a write changes the bytes of one file of the map, as it says |
| `FileStores.UnnamedKept` | code/filesys/filesys.cc:178-340 | over every stretch of a run, a file that no command names stays as it is |
| `FileStores.WrittenStays` | code/filesys/openfile.cc:157-210 | so in every run a file holds, where it was last written, the bytes written |
| `FileStores.RanConsistent` | code/filesys/filesys.cc:80-340 | in every state of every run each sector has at most one owner and is marked exactly when it has one |
| `FileSystems.SmallNeverHalts` | code/filesys/filesys.cc:204-204 | the ASSERT in FirstFind never stops the creation of a file of at most one sector |
| `FileSystemOps.FileSystem.Create` | code/filesys/filesys.cc:178-219 | keeps the ownership invariant; refused exactly when the name is there, no header sector, table full or too little space; stopped by FirstFind's ASSERT exactly when a direct file finds no run after its header; the disk is unchanged unless the file was created |
| `FileSystemOps.FileSystem.Remove` | code/filesys/filesys.cc:309-340 | keeps the ownership invariant and frees exactly the file's header and data sectors; no ASSERT fires |
| `FileSystemOps.FileSystem.Open` | code/filesys/filesys.cc:278-293 | opens the header of the listed file, NULL exactly when the name is not there |
| `FileSystemOps.FileSystem.WriteTo` | code/filesys/openfile.cc:157-210 | a write through an up-to-date handle keeps the ownership invariant, has its meaning on the bytes, and leaves the sectors of other files alone |
| `FileSystemOps.WritableIffCovered` | code/filesys/openfile.cc:168-206 | for direct files and writes within the direct slots, the writes that are let through are exactly the covered ones |
| `FileSystemOps.FileSystem.ReadFrom` | code/filesys/filesys.cc:278-293 | opening by name and reading returns the bytes of the map |
| `FileSystemOps.FileSystem.Execute` | code/filesys/filesys.cc:80-340 | every run of creations (direct and indirect), removals and writes is a run of updates of the map from names to bytes, each with exactly the outcome it must have, up to the first stop |
| `Paging.Machine.Translate` | code/machine/translate.cc:191-293 | which exception exactly when; a translation is the frame of the page of that thread, within memory, so the bounds ASSERT never fires; it sets the use bit of that entry, and the dirty bit for a write, and nothing else changes the table |
| `Paging.Machine.HandlePageFault` | code/userprog/exception.cc:93-120 | takes a frame for the page, invisibly to every thread; stops exactly when no frame is left |
| `Paging.FaultKeepsByte` | code/userprog/exception.cc:93-120 | bringing a page in changes no byte of any thread's memory |
| `Paging.StoreByte` | code/machine/translate.cc:155-171 | a store changes exactly its bytes of that thread's memory |
| `Paging.Machine.ReadMem` | code/machine/translate.cc:87-125 | returns the bytes of flat memory; the retried translation succeeds |
| `Paging.Machine.WriteMem` | code/machine/translate.cc:140-174 | adds one store to flat memory |
| `Paging.LoadStored` | code/machine/translate.cc:103-171 | loading what was stored gives the value back, cut to its size |
| `Paging.LowEndFirst` | code/machine/translate.cc:103-171 | a word in memory is its two halves, the low one first, and its four bytes, the lowest first; a shorter store is the beginning of a longer one |
| `Paging.Machine.Run` | code/machine/translate.cc:87-293 | every run of loads and stores of any threads returns what flat memory returns, and stops early only when misaligned or out of frames |

## Left out

- Context switching in assembly, stacks and their overflow check, thread priorities and time slices, and the table of thread numbers: a switch is a change of the current thread. A thread is forked once.
- Locks, Condition::Wait, SynchList, the readers/writers operations and SynchDisk's waiting are transitions on values and not methods of classes, because what is proved about them is how their statements interleave. Update in place is modelled for the scheduler, the semaphores and the condition queues in KernelObjects and for the cache in CachedDisk.
- Fairness: the lemmas named GoesForward say that nobody on the processor is stuck inside an operation, not that a thread gets the processor, or a lock, in the end.
- Interrupts.Interrupt.OneTick: ends where the source calls Yield, whose effect is Kernel's; the queue of pending interrupts is held as the sequence that LinkedLists.List represents.
- Interrupt handlers are arbitrary: what each firing schedules and whether it asks for a yield is a parameter. One that schedules with a delay of zero or less is stopped by the ASSERT in Schedule.
- The cache starts with every entry invalid; the source leaves that to what the allocator returns.
- The file system works on a disk without the cache in front of it, because a write does not update the cache; SectorCaches and DiskRequests treat the cache, and FindReadsOldDirectory shows what it does to a Create.
- FileHeaders.FileHeader.ByteToSector: requires an offset within 57 sectors; beyond that the source reads outside its buffer. Where the disk stops the read of the index block, the model goes on with -1 and is stopped at the next access.
- FileHeaders.FileHeader.Deallocate: requires 0 to 57 sectors and, beyond 26, an index block on the disk; it does not say which marks are left when an ASSERT has stopped the machine.
- FileHeaders.FileHeader.ExtendFile: requires a length and a number of sectors that are not negative; a negative number of sectors makes the source store in front of the table.
- OpenFiles.OpenFile.ReadAt: requires a length of 0 to 57 sectors; positions are not negative.
- OpenFiles.ReadNext: requires the same.
- OpenFiles.OpenFile.WriteAt: requires a write that ends within 57 sectors, does not make ExtendFile store past the end of the table (a file of 26 sectors or more that needs another one), and, to extend, a header sector that is not the free map's; it does not say what the sectors of the file hold beyond its length, because the source writes garbage there.
- OpenFiles.OpenFile.Extend: requires the same of the header and of the new length.
- StaleSlots.UnharmedIff: is for direct files and writes that end within the 25 slots that ByteToSector reads directly; LandsIff is for files with an index block, which cannot be extended by a sector.
- FileSystemOps.FileSystem.Create: requires a direct file, or an indirect one of at most 57 sectors with enough free sectors below 128; TakeAndGiveBack shows that outside of this the marks are not kept, and beyond 57 sectors the source writes past its index table.
- FileSystemOps.FileSystem.WriteTo: requires a handle whose header is the one on the disk (no second handle has extended the file, and the file has not been removed), growth by at most one direct sector that is free, and in a file of 26 sectors a write that ends before the last one; what happens otherwise is the subject of UnharmedIff and LastDirectIff.
- FileSystemOps.FileSystem.Execute: reports a command outside of these two conditions as skipped and does not run it; what bytes a new file starts with, what a gap before a write holds, and the last sector of a file of 26 sectors are left open.
- The second overload of Create, which is the same code, and Directory::List and every Print.
- Header timestamps: their place in the header is kept and holds zero.
- Paging.Machine.ReadMem: requires a size of 1, 2 or 4, as at every call in the source, and an address that is not negative, because the handler computes a negative file position for the others; thread numbers are not reused, and the backing file does not change during a run.
- Paging.Machine.WriteMem: requires the same.
- Paging.Machine.Translate: requires the same.
- Paging.Machine.HandlePageFault: requires an address that is not negative.
- Paging.Machine.Run: is over accesses that meet these conditions.
- DiskTiming.Disk.Request: does not model 32-bit overflow of the clock; the data of the sectors are Storage's.
- The TLB and its replacement, the instruction interpreter around Mult, loading of programs, the network, the console and the host interface.
- List::GetListLength, whose loop does not advance.
