# Verified model of the AMD debugger API library

This project models the parts of the library in which a debugger holds, edits and releases the
waves of a GPU, and proves what the library relies on across whole runs. Six connected parts are
covered: a queue is suspended, its saved state is decoded, registers and private memory are edited
through a cache, instructions are simulated, and the queue resumes.

| module | what it models |
|---|---|
| `Wrappers`, `FlatMemory`, `Bits` | optional values, the flat address space and integer arithmetic, machine words bit by bit |
| `CacheSpec`, `MemoryCaches` | the write-back memory cache: its meaning, and the class that updates its lines in place |
| `QueueNumbers`, `QueueSpec`, `QueueProtocol`, `QueueRuns`, `QueueOutcomes`, `Queues` | suspending and resuming queues: the driver's numbers, one queue, the steps, every run, and the classes |
| `WaveCounts` | the waves of a queue and the count of those that run |
| `ControlStack`, `RegisterLayout`, `SavedRegisters` | the context save area: its records, the registers in a record, and editing them through the cache |
| `DivergenceStack`, `WaveHalt` | simulated forks and joins; how a wave is stopped, halted and parked |
| `PrivateMemory`, `ScatterGather`, `PrivateTransfers` | address spaces and scratch slots; bytes kept at scattered addresses; private reads and writes through the cache |
| `DisplacedInstructions`, `PacketRing` | instruction buffers of a queue; its ring of packets |
| `QueueUpdate`, `Events`, `CoreNote` | the list of queues against the driver, the events of a process, the core dump note |

State the library updates in place is a class (`MemoryCache`, `Queue`, `Process`, `WaveTable`,
two classes `Wave`, `Allocator`, `ProcessQueues`, `ProcessEvents`, `NoteReader`, `NoteBuilder`); each method states its whole new state as a
specification function of the old one, and the lemmas are about those functions. Conversions, layouts
and decoders that only compute are functions. The driver, the hardware and the client are
environments: their answers are parameters, limited by stated contracts.

## Results that say where the code does not do what is expected

These follow the code; each is an exact condition or a concrete case.

- A short prefetch shows zeros; it is safe whatever the missing bytes are if and only if their lines are all cached
  (`ShortPrefetchGuard`; `ShortPrefetchLosesByte` loses one, and `ShortPrefetch` says for which memories none is lost).
- A transfer over several lines that ends exactly at the top of the 64-bit space asks for itself again (`ChunkShrinksExactly`).
- Changing the launch mode while the runtime is not loaded keeps the protocol if and only if no queue reported running is
  all-stopped (`UnloadedModeChange`); `UnloadedModeChangeBreaks` gives a run of two steps after which one stays held.
- A queue that is gone when it is to be resumed stays reported running: the mark is looked for in a number it was just cleared
  from, so the loop finds none whatever the answer (`ResumeMarksNothing`). That differs from what the loop of a suspend does,
  and the assertion after it fails, exactly when some number is marked (`ResumeMarksExactly`, `ResumedAddsUpExactly`);
  `GoneQueueRuns` is such an answer.
- A write-back that fails has marked its lines clean already. They still agree with memory, and the next discard loses nothing,
  if and only if every byte of them has reached it (`FailureIsCoherentExactly`, `DiscardAfterFailureExactly`).
- A fork is evaluated again after it has written the stack slot and exec. The two evaluations agree exactly when
  `DecisionAgreesExactly` and `TargetAgreesExactly` say so, the lanes that keep running go where they should exactly when
  `ForkSendsLanesExactly` says so, and in `ForkGoesAstray` they do not.
- A join that is taken falls through when its counter names the new depth and otherwise continues at the address of the slot
  below the one it restores (`JoinNextPcExactly`, with the inputs `JoinFallsThrough` and `JoinContinuesElsewhere`).
- Detaching makes single-stepping waves run (src/process.cpp:230-234), which the assertion in src/wave.cpp:495 forbids. Each is
  then counted once too often until the next update, and its halt bit is cleared (`StateSetCountsExactly`,
  `DetachedWaveCountsTwice`, `DetachedWaveRuns`); the runs of `EveryRunCounts` and `EveryRunIsSimple` include it.
- Stopping a wave twice would set the client's halt bit (`CommandKeepsHaltExactly`); the check in src/wave.cpp:437 prevents it.
- The contiguous count of a conversion runs over apertures of the generic space and onto null addresses (`CountIsHonestExactly`),
  and a global address inside another aperture does not survive the generic space (`GenericRoundTripExactly`).
- A private transfer never ends if and only if it asks for bytes at the null address (`TransferPrivate`, `NoProgressExactly`; `TransferMore` is the turn of the loop that changes nothing).
- A completely full ring yields no packets, and identifiers that wrapped are rejected (`CopiedIsPackets`, `PacketIdExactly`).

## Model

Locations name a file of the library's repository and lines in it.

| member | source | states |
|---|---|---|
| `CacheSpec.WriteIsPatch` | src/memory.cpp:699-712 | a write changes the library's view of memory exactly on the bytes written and keeps clean lines equal to memory |
| `CacheSpec.WriteGoesWhere` | src/memory.cpp:694-712 | memory changes at no cached address before a write-back, and exactly the cached lines a write touches become dirty |
| `CacheSpec.PrefetchKeepsView` | src/memory.cpp:496-541 | a full prefetch never overwrites a cached line, leaves the view alone and adds only clean lines that equal memory |
| `CacheSpec.PrefetchCovers` | src/memory.cpp:521-541 | after a prefetch every byte of its range is cached, whatever arrived |
| `CacheSpec.ShortPrefetch` | src/memory.cpp:510-541 | when the transfer of a prefetch is short, whose count is ignored, the view survives if and only if the missing uncached bytes are zero |
| `CacheSpec.ShortPrefetchGuard` | src/memory.cpp:510-541 | for all memories that agree on the bytes delivered the view survives if and only if every line of the missing bytes is cached already |
| `CacheSpec.ShortPrefetchLosesByte` | src/memory.cpp:510-541 | a coherent cache and a memory with one non-zero byte that a short prefetch hides |
| `CacheSpec.WriteBackKeepsView` | src/memory.cpp:543-623 | write-back keeps the view, leaves every line of the range clean and memory equal to the view there, and changes memory nowhere else |
| `CacheSpec.WriteBackAgrees` | src/memory.cpp:543-623 | after a write-back memory equals the view at every byte of a dirty or coherent line of the range |
| `CacheSpec.DiscardKeepsView` | src/memory.cpp:625-646 | discarding clean coherent lines leaves the view alone |
| `CacheSpec.DropForgets` | src/memory.cpp:625-646 | a byte whose line is dropped is seen as memory holds it |
| `CacheSpec.StepRefines` | src/memory.cpp:496-713 | each cache operation answers and changes the view as the same operation on flat memory does |
| `CacheSpec.CacheRefinesFlatMemory` | src/memory.cpp:496-713 | over any run of reads, writes, prefetches, write-backs and unforced discards with full transfers every read returns the bytes last written and clean lines equal memory |
| `CacheSpec.FlushAfterRun` | src/memory.cpp:543-623 | writing everything back after any run leaves exactly the flat result in memory |
| `MemoryCaches.MemoryCache.ContainsAll` | src/memory.cpp:479-494 | true if and only if the line of every byte of the range is cached |
| `MemoryCaches.MemoryCache.Prefetch` | src/memory.cpp:496-541 | the new state is that of the specification for the count the transfer really delivered, and the old state when the transfer raises an access error, which drops the prefetch, or the process has exited, which is reported |
| `MemoryCaches.MemoryCache.WriteBack` | src/memory.cpp:543-623 | lines end as specified whatever transfers do, memory is as specified unless a failure is reported or the process has exited, and otherwise byte for byte old or new |
| `CacheSpec.FailureIsCoherentExactly` | src/memory.cpp:594-618 | after a write-back that failed the clean lines agree with memory if and only if every byte of the lines that were dirty has reached it |
| `CacheSpec.FailureGuard` | src/memory.cpp:594-618 | whatever part fails, that is so if and only if the dirty lines held what memory holds already |
| `CacheSpec.DiscardAfterFailureExactly` | src/memory.cpp:625-646 | the discard that follows is allowed and leaves the view alone under exactly that condition |
| `MemoryCaches.MemoryCache.WriteRun` | src/memory.cpp:573-612 | a maximal run of adjacent dirty lines goes out in one transfer and its lines are clean before it |
| `MemoryCaches.MemoryCache.Discard` | src/memory.cpp:625-646 | drops exactly the lines of the range, none of them dirty unless forced |
| `MemoryCaches.MemoryCache.Transfer` | src/memory.cpp:648-713 | over any mix of lines, and cut short at the top of the address space, exactly a prefix is read from or written to the view and nothing else changes; the count returned is its length, an exception leaves a proper prefix, and a transfer stops short only at a byte that is not cached |
| `MemoryCaches.MemoryCache.TransferLineByLine` | src/memory.cpp:670-692 | the loop over lines adds up to one transfer of a prefix and stops at the first piece that is short or fails |
| `MemoryCaches.MemoryCache.TransferWithinLine` | src/memory.cpp:694-712 | inside one cached line the whole request is served from or stored in the line, which becomes dirty |
| `MemoryCaches.MemoryCache.ChunkShrinksExactly` | src/memory.cpp:676-679 | the request for the next line is smaller than the whole if and only if the range does not end at the top of the address space |
| `QueueSpec.CacheAfterChange` | src/queue.cpp:498-577 | entering running leaves the save area clean and committed to memory, entering suspended leaves it coherent, and nothing outside it changes |
| `QueueSpec.SetStateIsLocal` | src/queue.cpp:1069-1094 | publishing a state for one queue leaves every other queue and its save area as they were |
| `QueueProtocol.PublishSuspended` | src/process.cpp:910-914 | publishing queues just suspended discards only clean lines and settles each of them |
| `QueueProtocol.PublishRunning` | src/process.cpp:940-964 | queues published as running wait for the driver with their save areas committed, all-stopped ones are settled at once |
| `QueueProtocol.SuspendKeepsInv` | src/process.cpp:820-922 | a suspend with any driver answer keeps the protocol invariant and never discards a dirty line |
| `QueueProtocol.ResumeKeepsInv` | src/process.cpp:924-1020 | a resume keeps the invariant and asks the driver only when memory holds what the library sees in every save area |
| `QueueNumbers.ResumeMarksNothing` | src/process.cpp:990-1011 | the loop of a resume finds no queue marked invalid for any answer, and so finds what the loop of a suspend finds if and only if no number is marked |
| `QueueNumbers.ResumedAddsUpExactly` | src/process.cpp:1013-1016 | the numbers of queues resumed and found marked add up to the number asked for if and only if no number is marked |
| `QueueProtocol.ResumeMissesGone` | src/process.cpp:965-1011 | a queue the driver was asked to resume ends invalid if and only if the process has exited, whatever mark its number carries |
| `QueueProtocol.ResumeMarksExactly` | src/process.cpp:887-1011 | a resume leaves the queues as it would had it looked for marks where a suspend does if and only if no number is marked |
| `QueueProtocol.ResumeCommitsView` | src/process.cpp:940-972 | at the moment the driver is asked, memory holds in a save area what the library saw there before the queues were published |
| `QueueRuns.GoneQueueRuns` | src/process.cpp:990-1011 | a legal step after which a queue the driver reported gone is reported running |
| `QueueProtocol.AskedFacts` | src/process.cpp:831-853 | the queues the driver is asked about are exactly the valid ones that are not all-stopped, once each, and the counts add up |
| `QueueProtocol.InvalidatedListFacts` | src/process.cpp:886-908 | invalidating queues one after the other is invalidating the set of them |
| `QueueRuns.LoadedModeChangeKeepsInv` | src/process.cpp:390-448 | with the runtime loaded a change of launch mode keeps the protocol invariant |
| `QueueRuns.UnloadedModeChange` | src/process.cpp:396-404 | with the runtime not loaded it does if and only if no queue reported running is all-stopped |
| `QueueRuns.UnloadedModeChangeBreaks` | src/process.cpp:396-404 | a legal run, in which a queue without running waves is suspended under launch mode halt and resumed, after which the change leaves a queue held on the hardware that is reported running |
| `QueueRuns.ModeSettingOnly` | src/process.cpp:390-448 | changing only the setting keeps the invariant if and only if no queue reported running is all-stopped |
| `QueueRuns.StepKeepsInv` | src/process.cpp:369-448 | every step, also of waves, of the host, of new and of destroyed queues and of a launch mode change with or without the runtime, keeps the invariant |
| `QueueRuns.EveryStepIsSafe` | src/process.cpp:820-1020 | inside every step discards meet clean lines only and hardware restores what the library sees |
| `QueueRuns.EveryRunIsSafe` | src/process.cpp:820-1020 | in every run a queue called suspended is suspended, one called running is held only when all-stopped under mode halt, no dirty line is discarded and hardware only restores what the library sees |
| `QueueOutcomes.SuspendOutcome` | src/process.cpp:820-922 | queue by queue: after a suspend a valid queue that was asked for is suspended and held with its waves counted, an all-stopped one with none, one found gone is invalid, and every other queue and every setting is as before |
| `QueueOutcomes.SuspendShows` | src/queue.cpp:523-577 | the library then sees in the save area of a queue just suspended what the hardware saved there, with the register writes made while decoding it |
| `QueueOutcomes.TouchCovers` | src/queue.cpp:631-639 | every byte prefetched while a record is decoded is cached afterwards |
| `QueueOutcomes.StoppedIsLeftAlone` | src/queue.cpp:1069-1094 | publishing an all-stopped queue touches neither its cached lines nor its save area |
| `QueueOutcomes.ResumeOutcome` | src/process.cpp:924-1020 | after a resume a valid queue that was asked for is reported running, runs on the hardware unless it is all-stopped, and its waves are no longer counted; every other queue and every setting is as before |
| `QueueOutcomes.HiddenOutcome` | src/process.cpp:430-438 | releasing the waves halted at launch adds their number to the count of each queue and changes nothing else of it |
| `QueueOutcomes.WaveOutcome` | src/queue.cpp:1029-1041 | stopping a wave takes one from the count of its queue and resuming one adds one; nothing else of any queue changes |
| `QueueOutcomes.ModeIsInForce` | src/process.cpp:390-448 | after every change, with or without the runtime, the mode asked for is in force and other settings stay; queues are left alone unless halt mode is left with the runtime loaded |
| `QueueOutcomes.ModeChangeOutcome` | src/process.cpp:416-447 | queue by queue: when halt mode is left one that was not suspended and is not found gone ends running and off hold if progress is needed, and otherwise suspended with its released waves counted |
| `QueueOutcomes.ProgressOutcome` | src/process.cpp:369-388 | the setting is stored; when progress becomes needed every suspended queue is published running and resumed unless it is all-stopped, and no other queue changes |
| `Queues.Queue.IsAllStopped` | src/queue.cpp:1022-1027 | true if and only if launch mode is halt and the count of running waves is known and zero |
| `Queues.Queue.WaveStateChanged` | src/queue.cpp:1029-1041 | the count goes down by one when a wave stops and up by one when it resumes |
| `WaveCounts.UpdateCounts` | src/queue.cpp:617-867 | after the save area is decoded the count is the number of the queue's waves not stopped, while waves are found, created, halted at launch and swept |
| `WaveCounts.UpdateShows` | src/queue.cpp:617-867 | after an update the queue has exactly the waves of the records: each one it names or a new one under a fresh identifier, stopped if and only if it was, is shown stopped, or is new and halted at its entry, and then hidden |
| `WaveCounts.PutCountsExactly` | src/queue.cpp:1029-1041 | telling the count of a state keeps it right if and only if the wave went from stopped to not stopped or back |
| `WaveCounts.StateSetCountsExactly` | src/wave.cpp:427-558 | a change of state, also one that ends the wave or simulates its instruction, keeps the count right if and only if it does not resume a wave that is not stopped, which adds one to it |
| `WaveCounts.StateSetOutcome` | src/wave.cpp:427-558 | the wave has the state asked for, unless it is ended, and then runs out of the client's sight, or its instruction is simulated, and then it is stopped; other waves stay |
| `WaveCounts.DetachedWaveCountsTwice` | src/process.cpp:226-235 | a queue with one single-stepping wave that is made to run: two are counted |
| `WaveCounts.EveryRunCounts` | src/queue.cpp:1022-1041 | in every run, with detaching, the count, when known, is the number of waves not stopped plus one for each time since the last update that one of them was resumed; without such a time a queue is all-stopped if and only if new waves are halted, the count is known and every wave is stopped, and with one it never is |
| `WaveCounts.WaveTable.UpdateWaves` | src/queue.cpp:617-867 | the new table of waves and the count are those of the specification |
| `WaveCounts.WaveTable.ProcessRecord` | src/queue.cpp:626-775 | one record updates or creates its wave, which counts unless it is stopped or halted at launch |
| `WaveCounts.WaveTable.SetState` | src/wave.cpp:427-558 | the new table and count are those of the specification |
| `Queues.Process.QueueStateChanged` | src/queue.cpp:498-577 | writes back or discards the save area and forgets or recounts running waves, as specified |
| `Queues.Process.SetState` | src/queue.cpp:1069-1094 | the new process state is the specified one, unchanged when the state is |
| `Queues.Process.SuspendQueues` | src/process.cpp:820-922 | the whole new process state is that of the specification and the count is that of the queues now held |
| `Queues.Process.InvalidateMarked` | src/process.cpp:887-1011 | the loop over the driver's answer marks exactly the queues whose numbers carry the mark where it looks, and counts them |
| `Queues.Process.HandleReply` | src/process.cpp:970-1018 | after the driver's answer the queues asked for are off hold and those the loop finds marked invalid, or all are invalid if the process has exited |
| `Queues.Process.ResumeQueues` | src/process.cpp:924-1020 | the whole new process state is that of the specification; the count is that of the queues the driver resumed and the all-stopped ones |
| `Queues.Process.SetForwardProgressNeeded` | src/process.cpp:369-388 | stores the setting and resumes suspended queues when progress becomes needed |
| `Queues.Process.SetWaveLaunchMode` | src/process.cpp:390-448 | suspends, releases waves halted at launch, stores the mode and resumes, as specified |
| `Queues.Process.StopWave` | src/wave.cpp:480-483 | stopping a wave writes its registers in the save area and updates the count of running waves |
| `ControlStack.Iterate` | src/architecture.cpp:3217-3265 | the records are, by position, those of the wave words under the states in force, in order downward, their number is returned, and corruption is reported if and only if they do not take all of the wave area |
| `ControlStack.WavesByPosition` | src/architecture.cpp:3217-3265 | said by position and not by walking: the waves are those of the words that name waves, in order, each under the state of the last state packet before it, or zeros; decoding fails exactly where some position cannot be decoded |
| `ControlStack.PacketBits` | src/architecture.cpp:186-196 | bit 30 of a word marks an event and bit 31 a state |
| `ControlStack.Gfx9Example` | src/architecture.cpp:3217-3265 | a stack with one wave, its record and the 64 bytes above it |
| `ControlStack.Gfx10Example` | src/architecture.cpp:5061-5090 | a stack whose state has a second word that looks like an event and is not taken for one |
| `ControlStack.Walk` | src/architecture.cpp:5061-5090 | the loop over the words carves one record per wave word and skips events and state words |
| `ControlStack.CarveDescends` | src/architecture.cpp:3244-3255 | each record is exactly as long as its registers need and ends one gap (64 bytes, none on gfx10) below the one before, the last one at the bottom |
| `ControlStack.RecordsAreDisjoint` | src/architecture.cpp:3244-3255 | records are not empty, lie inside the wave area and strictly below one another |
| `ControlStack.RecordsTile` | src/architecture.cpp:3258-3262 | every byte of the wave area belongs to a record or to the gap above one |
| `ControlStack.WavesDoNotOverlap` | src/architecture.cpp:3244-3255 | registers of different waves never overlap |
| `SavedRegisters.SavedApart` | src/architecture.cpp:3071-3265 | two registers of the waves on a control stack overlap if and only if they are aliases in one wave |
| `SavedRegisters.WriteOneRegister` | src/wave.cpp:681-792 | writing a register of a saved wave through the cache gives it the value and leaves every register of every wave that is no alias, whichever lines are cached |
| `SavedRegisters.EditsReachHardware` | src/wave.cpp:681-792 | registers edited while their queue is suspended, in any order and however often, are in memory with the value given last when the driver is asked to resume the queue |
| `SavedRegisters.OthersReachHardware` | src/queue.cpp:503-521 | registers not edited are in memory then as the library saw them |
| `ControlStack.RecordOf` | src/architecture.cpp:3246-3252 | the record made for a wave begins at its first vector register |
| `RegisterLayout.WordsGiveValidShape` | src/architecture.cpp:2694-2725 | the counts announced by any admissible state word form a shape with a layout |
| `RegisterLayout.Gfx9Fields` | src/architecture.cpp:2340-2355 | the fields of a state word put together are read back as register counts and local data |
| `RegisterLayout.Gfx90aFields` | src/architecture.cpp:3551-3632 | the same where vector registers are split at an offset |
| `RegisterLayout.Gfx10Fields` | src/architecture.cpp:4090-4104 | the same on gfx10, with the lane count |
| `RegisterLayout.FirstWaveField` | src/architecture.cpp:2376-2380 | one bit of a wave word marks the first wave of a group |
| `RegisterLayout.AddressIsPlace` | src/architecture.cpp:3071-3215 | for every family, shape and register the address computed by successive renaming is the one a table of blocks gives it, and exactly the registers in the table have one |
| `RegisterLayout.HardwareOrder` | src/architecture.cpp:3071-3215 | in words after the first hardware register, the place of each hardware register and trap temporary |
| `RegisterLayout.LocalDataOrder` | src/architecture.cpp:3071-3090 | local data follows them, in the record of a first wave only |
| `RegisterLayout.ScalarOrder` | src/architecture.cpp:3130-3204 | scalar registers end where the hardware registers begin; all but the last two or six of those saved, 108 at most, are found under their numbers |
| `RegisterLayout.AliasOrder` | src/architecture.cpp:3130-3204 | vcc is the last two of them and flat_scratch the first two of six |
| `RegisterLayout.VectorOrder` | src/architecture.cpp:3449-3487 | the places of vector, accumulation and shared registers below the scalar ones, as formulas |
| `RegisterLayout.VectorPlaced` | src/architecture.cpp:3449-3487 | the same for vector and accumulation registers |
| `RegisterLayout.Gfx10Placed` | src/architecture.cpp:4672-4735 | the same for the registers gfx10 renames or hides by lane count |
| `RegisterLayout.Gfx10VectorPlaced` | src/architecture.cpp:4736-4783 | the same for private and shared vector registers of gfx10 |
| `RegisterLayout.RegistersInside` | src/architecture.cpp:2418-2428 | every register lies inside its record, which begins at the first vector register |
| `RegisterLayout.RegistersOverlapExactly` | src/architecture.cpp:3071-3215 | two registers overlap if and only if they are aliases in the table |
| `RegisterLayout.WriteKeepsOthers` | src/wave.cpp:681-792 | writing one register leaves the bytes of every register that is not an alias |
| `DivergenceStack.ForkEffect` | src/architecture.cpp:1095-1140 | a fork that diverges pushes the waiting lanes and their address, keeps the others running and touches no other scalar register or mode bit |
| `DivergenceStack.JoinEffect` | src/architecture.cpp:1141-1160 | a taken join restores the lanes of the top slot and touches nothing else |
| `DivergenceStack.DivergenceIsBounded` | src/architecture.cpp:1095-1160 | in every run from an empty stack at most 64 / 2^depth lanes run or wait at each depth, the depth never exceeds six so its three bits are never truncated, and running, waiting and joined lanes partition the initial ones |
| `DivergenceStack.LanesAreSomewhere` | src/architecture.cpp:1095-1160 | in every run each lane the wave started with runs, waits in a slot or has joined, only one of the three, and no other lane does |
| `DivergenceStack.FreshWaveIsGood` | src/architecture.cpp:2268-2282 | a wave with an empty stack satisfies the invariant of that run |
| `DivergenceStack.ForkMovesLanes` | src/architecture.cpp:1114-1139 | a fork leaves each lane in exactly one place |
| `DivergenceStack.ForkTakenExactly` | src/architecture.cpp:755-783 | a fork is taken if and only if no running lane fails its mask, or some pass it and those that fail are no fewer |
| `DivergenceStack.SecondDecision` | src/architecture.cpp:755-783 | what the second evaluation of a fork decides, told from the registers before the fork |
| `DivergenceStack.SecondAddress` | src/architecture.cpp:1180-1183 | what target it computes, told likewise |
| `DivergenceStack.DecisionAgreesExactly` | src/architecture.cpp:1114-1139 | the two evaluations decide alike if and only if nothing is pushed, the mask is read outside the slot, it is the pushed lanes and the branch is not taken, or it is the saved address and that prefers the same outcome among the lanes kept |
| `DivergenceStack.TargetAgreesExactly` | src/architecture.cpp:1114-1139 | they compute the same target if and only if it is an offset, nothing is pushed, its register pair is not written, or what is written there is the same address |
| `DivergenceStack.ForkSplitsLanes` | src/architecture.cpp:1114-1139 | every lane is kept or waits, the address in the slot is the one its mask bit asks for, and all lanes kept ask for the same one |
| `DivergenceStack.ForkSendsLanesExactly` | src/architecture.cpp:1114-1183 | every lane kept continues where its mask bit says if and only if the second evaluation ends at the address the first meant |
| `DivergenceStack.ForkGoesAstray` | src/architecture.cpp:1114-1183 | a fork with two lanes that is taken, after which the lane kept does not continue at the target |
| `DivergenceStack.TakenFromSlot` | src/architecture.cpp:1114-1183 | a fork whose mask is the pair that receives the waiting lanes always falls through |
| `DivergenceStack.JoinUndoesFork` | src/architecture.cpp:1141-1160 | a join right after a fork restores the depth and gives back exactly the waiting lanes |
| `DivergenceStack.JoinNextPcExactly` | src/architecture.cpp:1180-1183 | when a taken join continues at the address saved with the lanes it restores, exactly, at every depth and for every counter register |
| `DivergenceStack.JoinContinuesExactly` | src/architecture.cpp:1141-1183 | where a join continues in every case: one that is not taken changes nothing and falls through, as does one whose counter names the new depth |
| `DivergenceStack.JoinFallsThrough` | src/architecture.cpp:1180-1183 | one level deep a join restores the waiting lanes but falls through |
| `DivergenceStack.JoinContinuesElsewhere` | src/architecture.cpp:1180-1183 | two levels deep a join continues at the outer address |
| `DivergenceStack.Wave.SimulateFork` | src/architecture.cpp:1095-1140 | registers and next address are those of the specification |
| `DivergenceStack.Wave.SimulateJoin` | src/architecture.cpp:1141-1183 | registers and next address are those of the specification |
| `Bits.SplitCount` | src/utils.h:106-125 | a mask splits a word into two disjoint words whose bit counts add up |
| `Bits.CountIsSize` | src/utils.h:106-125 | the count of a word is the number of bits set in it |
| `WaveHalt.SavedPcExactly` | src/architecture.cpp:2287-2322 | a parked program counter is recovered if and only if it fits in 48 bits, and unrelated bits of ttmp11 are kept |
| `WaveHalt.CommandKeepsHaltExactly` | src/architecture.cpp:1513-1575 | a state change keeps the client's halt bit if and only if the bit it copies is the one in use |
| `WaveHalt.CommandStep` | src/wave.cpp:427-492 | stopping or resuming, with parking, changes nothing the client sees but the state; making a wave run that is not stopped also clears its halt bit |
| `WaveHalt.ExportsSkippedExactly` | src/architecture.cpp:1534-1562 | after a change of state a wave skips exports if and only if it stops and did so before or its trap temporaries are not initialized by the hardware |
| `WaveHalt.DetachedWaveRuns` | src/process.cpp:226-235 | a halted single-stepping wave that is made to run and is no longer halted |
| `WaveHalt.TrapStep` | src/architecture.cpp:1188-1225 | entering the trap handler keeps the halt bit and records the program counter and the trap |
| `WaveHalt.TrapIsKept` | src/architecture.cpp:1200-1206 | the four bits kept of a trap identifier are the identifier modulo 16 |
| `WaveHalt.ObserveStep` | src/wave.cpp:384-423 | noticing a trap keeps the halt bit and the program counter and parks the wave |
| `WaveHalt.MoveStep` | src/wave.cpp:706-730 | a client write of the program counter reaches it whether or not the wave is parked |
| `WaveHalt.NewWaveIsGood` | src/wave.h:90-99 | a new wave, taken to be running and not parked, satisfies the invariant of the runs if it is aligned, not single-stepping and, if it trapped, halted and parked; it shows its own halt bit and program counter |
| `WaveHalt.EveryRunIsSimple` | src/architecture.cpp:1514-1625 | over any run, with detaching, the client sees one halt bit, one program counter and one trap identifier, a stopped wave is halted in hardware, and other register bits are kept |
| `WaveHalt.Wave.SetState` | src/wave.cpp:427-492 | the new wave is that of the specification |
| `WaveHalt.Wave.WriteState` | src/architecture.cpp:1513-1575 | the registers are those of the specification |
| `WaveHalt.Wave.ClientSetHalt` | src/architecture.cpp:1601-1625 | writes the saved bit of a stopped wave and the status bit of any other |
| `WaveHalt.Wave.SimulateTrapHandler` | src/architecture.cpp:1188-1225 | the registers are those of the specification |
| `WaveHalt.Wave.Update` | src/wave.cpp:352-424 | the new wave is that of the specification |
| `PrivateMemory.SwizzleIsBijection` | src/memory.h:218-227 | the lane layout pairs the bytes of all lanes with the bytes of the slot one to one |
| `PrivateMemory.SwizzleIs` | src/memory.cpp:184-186 | the place of a lane's byte in the slot, as one formula |
| `PrivateMemory.UnswizzleIs` | src/memory.cpp:268-273 | the owner of a slot byte and its private address, as one formula each |
| `PrivateMemory.ConversionNames` | src/memory.cpp:138-341 | a conversion between global and the two private spaces yields an address if and only if both addresses name the same byte of the wave's slot |
| `PrivateMemory.ConversionsUndo` | src/memory.cpp:138-341 | a conversion that succeeds on a non-null address is undone by the one back |
| `PrivateMemory.NullGoesToNull` | src/memory.cpp:138-341 | the null address converts to the null address between spaces that are related at all, and is rejected between others |
| `PrivateMemory.SameSpaceKeeps` | src/memory.cpp:138-341 | within one space a conversion changes nothing |
| `PrivateMemory.LocalIsApart` | src/memory.cpp:138-341 | local addresses and addresses of the slot never convert to one another |
| `PrivateMemory.CountIsHonestExactly` | src/memory.cpp:138-436 | every address the contiguous count covers converts to the matching address if and only if the count does not run over an aperture or onto a null address |
| `PrivateMemory.OverstatedFails` | src/memory.cpp:414-436 | where it does, some covered address converts elsewhere or not at all |
| `PrivateMemory.GenericRoundTripExactly` | src/memory.cpp:362-413 | lowering a generic address gives back the segment address if and only if it is not a global address in another space's aperture |
| `PrivateMemory.GenericConvertsBack` | src/memory.cpp:229-341 | a local or private address made generic converts back |
| `PrivateMemory.WaveInSlotIsValid` | src/queue.cpp:870-887 | a slot is a multiple of 256 bytes that lies in the backing memory |
| `PrivateMemory.RingFields` | src/architecture.cpp:3298-3303 | the number of waves and the size of a slot are read back from a ring register put together from them |
| `PrivateMemory.EngineShare` | src/architecture.cpp:3307-3309 | on gfx9 each engine has as many slots as go evenly into the ring, on gfx11 a whole ring |
| `PrivateMemory.SlotsFollow` | src/architecture.cpp:3307-3309 | the first slot of a die begins at its part of the backing memory, the slot of the next scoreboard begins where one ends, and the next engine where the last slot of one ends |
| `PrivateMemory.SlotIsOpenExactly` | src/architecture.cpp:3311-3323 | a wave has all of its slot if the ring divides evenly and flat_scratch agrees or is absent, and otherwise none of it |
| `PrivateMemory.PrivateByteExists` | src/memory.cpp:170-193 | in an open slot a private byte converts if and only if its lane exists and its place lies in the slot |
| `PrivateMemory.SlotsAreDisjoint` | src/architecture.cpp:3293-3324 | a byte of some slot determines die, engine, scoreboard and offset |
| `PrivateMemory.NoSharedStorage` | src/memory.cpp:170-193 | distinct dies, engines, slots, lanes or private addresses that convert have distinct global addresses |
| `PrivateTransfers.Locates` | src/wave.cpp:834-860 | the conversion inside a private transfer succeeds exactly on the bytes that exist |
| `PrivateTransfers.NoProgressExactly` | src/wave.cpp:859-880 | a conversion that succeeds yields nothing exactly at the null address |
| `PrivateTransfers.TransferPrivate` | src/wave.cpp:823-884 | reads or writes exactly the private bytes counted, also before an exception from global memory; is out of bounds if and only if not even the first byte exists, never ends if and only if it asks for bytes at the null address, and with full transfers stops only at the end of the slot |
| `PrivateTransfers.TransferMore` | src/wave.cpp:834-881 | one turn of the loop moves a piece or ends the transfer, and at the null address moves nothing, changes nothing and goes on |
| `PrivateTransfers.PlacesAreGood` | src/memory.cpp:170-193 | the private bytes of a lane are kept inside the address space, no two at one address |
| `ScatterGather.ScatterExactly` | src/wave.cpp:833-884 | a private store changes the bytes stored and no other address |
| `ScatterGather.StoredIsRead` | src/wave.cpp:823-884 | private bytes written are read back |
| `PrivateTransfers.StoreIsPrivate` | src/wave.cpp:823-884 | a store by one lane of one slot leaves every private byte of other lanes and slots, and its own other bytes |
| `DisplacedInstructions.ReservedExactly` | src/queue.cpp:402-436 | the chunks are aligned, lie in the memory reserved, and are as many as fit, or the exact reason why there are none |
| `DisplacedInstructions.AllocateKeepsInv` | src/queue.cpp:438-496 | an allocation keeps live and free chunks a partition of those used, every instruction and every guard in place |
| `DisplacedInstructions.GuardFollows` | src/queue.cpp:479-495 | an allocation takes a chunk that held no instruction, ends it with the instruction and the guard directly behind, and changes nothing outside it |
| `DisplacedInstructions.ReleaseKeepsInv` | src/queue.cpp:470-478 | a release keeps it too |
| `DisplacedInstructions.AddressNamesChunk` | src/queue.cpp:472-477 | dividing the address of a live buffer gives back its chunk |
| `DisplacedInstructions.FullExactly` | src/queue.cpp:441-468 | an allocation fails if and only if every chunk is live |
| `DisplacedInstructions.BuffersAreApart` | src/queue.cpp:479-495 | live buffers overlap neither one another nor any guard and lie in the chunks |
| `DisplacedInstructions.BuffersSurvive` | src/queue.cpp:396-496 | in every run a buffer not released keeps its instruction at its address |
| `DisplacedInstructions.LiveIsBalanced` | src/queue.cpp:438-496 | in every run each allocation adds one live buffer and each release takes one away |
| `DisplacedInstructions.EveryRunIsSound` | src/queue.cpp:396-496 | in every run live and free chunks partition those used and guards stay in place |
| `DisplacedInstructions.Allocator.Allocate` | src/queue.cpp:438-496 | the new pool and the address are those of the specification, and it fails exactly when full |
| `DisplacedInstructions.Allocator.Release` | src/queue.cpp:470-478 | the new pool is that of the specification |
| `PacketRing.PacketIdExactly` | src/queue.cpp:579-615 | the address of a packet in use gives back its identifier if and only if the ring is not completely full or the packet is in the lap of the first |
| `PacketRing.PacketIdIsSound` | src/queue.cpp:605-613 | an identifier found is in use and belongs to the slot; in a ring not completely full one is rejected only if no packet in use has the slot |
| `PacketRing.MaskIsModulo` | src/queue.cpp:934-939 | masking an identifier is taking the remainder |
| `PacketRing.PowersPass` | src/queue.cpp:930-933 | every power of two passes the test of the ring size (`PowerOfTwoExactly` is the converse) |
| `PacketRing.RingMask` | src/queue.cpp:930-939 | for a size that is a power of two the mask leaves the slot |
| `PacketRing.TwoLaps` | src/queue.cpp:944-955 | packets that wrap are the concatenation of the two parts copied |
| `PacketRing.CopiedIsPackets` | src/queue.cpp:935-955 | what is copied is the packets in use in order, and nothing when the ring is completely full |
| `PacketRing.ActivePackets` | src/queue.cpp:913-956 | the buffer receives exactly the bytes of the specification, for identifiers however far apart, and the error cases are exact |
| `QueueUpdate.EntryKeepsLink` | src/process.cpp:1095-1228 | under the driver's contract an entry meets no fatal error, exactly its queue gets the mark, and identifiers keep their incarnation |
| `QueueUpdate.EntryIsFatalExactly` | src/process.cpp:1095-1228 | an entry meets a fatal error if and only if its device is unknown, or its queue is neither new nor known on that device while the library is not attaching |
| `QueueUpdate.EntriesAreFatalExactly` | src/process.cpp:1095-1228 | a snapshot does if and only if one of its entries does after those before it |
| `QueueUpdate.RoundsAreFatalExactly` | src/process.cpp:1061-1231 | a round does if and only if its snapshot does or a later round it asks for |
| `QueueUpdate.EntriesKeepLink` | src/process.cpp:1095-1228 | the same for a whole snapshot |
| `QueueUpdate.RoundsKeepLink` | src/process.cpp:1061-1231 | the same for the rounds of an update between which queues come and go |
| `QueueUpdate.UpdateIsExact` | src/process.cpp:1046-1252 | after an update the queues are exactly those of the last snapshot on devices that can be debugged, each with its device and under an identifier never given to another incarnation |
| `QueueUpdate.EventQueueIsExact` | src/process.cpp:1881-1942 | an event on a new queue is returned if and only if that incarnation is there at the end of the update on a device that can be debugged |
| `QueueUpdate.InvalidatedIsLinked` | src/process.cpp:886-908 | marking a queue invalid whose hardware queue is gone keeps the link |
| `QueueUpdate.InvalidIsNotFound` | src/queue.cpp:1056-1067 | a queue marked invalid answers to no number of the driver, and the others as before |
| `QueueUpdate.AttachedIsLinked` | src/process.cpp:1518-1581 | once the list is exact, ending the attachment leaves nothing outstanding |
| `QueueUpdate.EveryRunIsExact` | src/process.cpp:1046-1252 | over any run of updates, events, queues found invalid and the end of an attachment no fatal error is met, the list is exact after every update and no identifier is given to a second incarnation |
| `QueueUpdate.StartIsLinked` | src/process.cpp:1588-1635 | a process without queues satisfies the invariant of that run |
| `QueueUpdate.ProcessQueues.UpdateQueues` | src/process.cpp:1046-1252 | the new list, or the fatal error, is that of the specification; nothing happens before the runtime is loaded |
| `QueueUpdate.ProcessQueues.Attach` | src/process.cpp:1518-1581 | an update that takes over the queues there are, after which the process is no longer attaching |
| `QueueUpdate.ProcessQueues.HandleEntry` | src/process.cpp:1095-1228 | the same for one entry, which never finds a queue marked invalid |
| `QueueUpdate.ProcessQueues.NewQueueEvent` | src/process.cpp:1881-1942 | returns the queue made up for the event if it is still there after the update |
| `Events.StepKeepsInv` | src/event.cpp:140-201 | every step keeps the line of events sound |
| `Events.StatesAdvance` | src/event.cpp:141-146 | states advance one stage at a time, and only an event the client acknowledged goes away |
| `Events.InvIsSafe` | src/event.cpp:343-361 | events are handed over in order and once, and a resume event is in line, handed over or open to acknowledgement only after the event it waits for was dealt with |
| `Events.EveryRunIsSafe` | src/process.cpp:1475-1508 | the same in every run |
| `Events.ThreadIsHeld` | src/event.cpp:343-361 | while the code object event is not acknowledged its resume event cannot be, and acknowledging it puts the resume event in line |
| `Events.HitLinks` | src/process.cpp:1494-1502 | a hit puts one event in line, which names the resume event made with it |
| `Events.HeldIsReleased` | src/event.cpp:343-361 | in every run each resume event still held is named by the unacknowledged event it waits for, and acknowledging that one puts it in line behind all others |
| `Events.ProcessEvents.BreakpointHit` | src/process.cpp:1475-1508 | the thread goes on at once if and only if no code object changed; otherwise only the code object event joins the line |
| `Events.ProcessEvents.NextPendingEvent` | src/process.cpp:1953-1961 | hands over the first event in line and advances its state |
| `Events.ProcessEvents.EventProcessed` | src/event.cpp:343-361 | rejects exactly the events not handed over; acknowledging one has the specified effect, and the resume event it looks for always exists |
| `CoreNote.DecodeEncode` | src/os_driver.cpp:503-517 | numbers that fit are read back |
| `CoreNote.HeaderRoundTrip` | src/os_driver.cpp:508-517 | a header is read back field by field |
| `CoreNote.NoteRoundTrip` | src/os_driver.cpp:1111-1139 | the build that wrote a note reads the state back unchanged |
| `CoreNote.NoteFormat` | src/os_driver.cpp:503-517 | each part of a note is where the format puts it: version, header fields, runtime information, then agents and queues by index |
| `CoreNote.EncodedByte` | src/os_driver.cpp:503-517 | numbers are stored least significant byte first |
| `CoreNote.ResizedAt` | src/os_driver.cpp:590-603 | a record of another size keeps its first bytes and is zero beyond |
| `CoreNote.NoteIsReadBack` | src/os_driver.cpp:571-660 | a build with other record sizes accepts it and reads every record cut short or padded with zeros, later ones in step |
| `CoreNote.Load` | src/os_driver.cpp:614-660 | a note is accepted if and only if its byte order matches, its sizes are aligned and its length is the one its header declares |
| `CoreNote.NoteReader.Read` | src/os_driver.cpp:590-603 | reads a record into a structure of another size, and once out of bytes stays in error |
| `CoreNote.NoteReader.ReadAll` | src/os_driver.cpp:645-651 | reads records one after the other |
| `CoreNote.Create` | src/os_driver.cpp:1048-1139 | writes the note of the process with the lower minor version, unless the driver's major version differs or one of its snapshots fails, and passes on the first failure |
| `CoreNote.SaveAndLoad` | src/os_driver.cpp:571-1139 | saving and loading a process gives it back |

## Left out

- Driver calls, memory of the process and client callbacks themselves: they are parameters, with the contracts stated above each operation.
- The call of `update_queues` inside `set_wave_launch_mode`: queues appear and go in steps of their own.
- Cache policies other than write-back.
- MemoryCaches.MemoryCache.Transfer: does not model a range over several lines, one of them cached, that reaches the top of the address space, because that call never ends (see `ChunkShrinksExactly`).
- DivergenceStack.Wave.SimulateJoin: does not model a join that is taken on an empty stack, because no fork comes before it and the stack pointer then underflows.
- ControlStack.Iterate: does not model a wave of gfx908 or gfx90a under a state without scalar registers, because the code takes the value of an address that does not exist; waves of gfx9 without them are modelled.
- WaveHalt.Wave.WriteState: does not model the clearing of reported exceptions when a wave resumes, because that register has no part in stopping and halting.
- WaveHalt.Wave.Update: does not model the set-up of trap temporaries of waves created before the library attached, nor the spurious single-step check of gfx9.
- QueueProtocol.SuspendQueues: does not model an answer that marks a queue with an error, because the library ends with a fatal error.
- PacketRing.ActivePackets: does not model a byte count that wraps around in 64 bits, because no buffer has that size.
- QueueUpdate.ProcessQueues.NewQueueEvent: does not model events before the runtime is loaded, because none but runtime events are then reported (src/process.cpp:1396-1404).
- Address arithmetic of records is over unbounded integers: a corrupted stack whose records wrap around the 64-bit space is not modelled.
- Note lengths are unbounded: a declared size that makes the reader's pointer overflow is not modelled, and the assertion on the note's version is taken as compiled out.
- Events that detaching a process throws away, and the queries that make `next_pending_event` raise new events: they are raised by separate steps.
- Writes of the pseudo status register, waves without vector registers on gfx11, and gfx12: they do not follow the discipline of the other families.
- Instruction decoding, operand numbers and instruction validity: an instruction is its operands, size and offset.
- Watchpoints, breakpoints, displaced stepping of waves, code objects, agents, logging and all queries for information.
- Queue types other than compute queues, and freezing a process.
