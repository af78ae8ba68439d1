# Proofs about six protocols

Models and proofs of the parts of this repository whose correctness rests on several functions, many
participants or arbitrary interleavings.  Each group of files stands alone, but for `Options`.

- **Exclusive sections of vCPU threads** (`CpuExclusive`).  The protocol of `cpu-common.c`, one step per
  flag access, lock operation and wait, sequentially consistent at the memory barriers.
- **Ioctl inhibitor** (`AccelBlocker`).  Counted locks taken in sequence, then scanned until all are zero.
- **Adler checksum device** (`Adler32`, `AdlerDevice`).  A pool of 16 buffers, one running sum in the
  device, many open files.  The increment of `pending_buffers` outside the lock is two steps, and so is
  the decrement, which the lock does not protect from it.
- **Tape driver** (`TapeCommand`, `TapeDevice`, `TapeGuard`, `TapeCompiler`, `TapeMeaning`, `TapeCorrect`,
  `TapeDriver`, `TapeQueue`, `TapeSystem`).  What the device does with commands and a page table, how the
  driver compiles a request into them, the command queue that the interrupt handler drains, and driver and
  device together.
- **Block graph** (`BlockGraph`, `BlockWalk`, `BlockPerms`, `BlockUndo`, `BlockRedirect`, `BlockLayer`,
  `BlockStatusCache`).  Edges, permissions, undo records and references; drivers are arbitrary functions.
- **Background jobs** (`Job`, `JobGroup`, `JobInv`, `JobRun`, `JobAbort`, `JobHistory`, `JobAtomic`, `JobCases`,
  `JobManager`).
  States, pausing, cancelling and transactional groups; drivers are arbitrary within the assumptions stated
  in `Enabled`.

Operations that update objects in place are classes with methods, proved against functions on values
(`TapeDriver`, `TapeQueue.Section`, `BlockLayer.Layer`, `BlockStatusCache.Cache`, `JobManager.Manager`).
Interleaved protocols are state machines: `State`, `Enabled`, `Next`, an invariant, and theorems about
every run.  Lists whose order the code does not promise are sets, and loops over them take any order.
No lemma relies on automatic induction.

Where the code does not keep what its documentation or its comments promise, the code is modelled as it
is, and the exact condition is a theorem:

- `tape_dev/tapedev_main.c` gives READ and WRITE an offset in page-table entries (line 549), while the
  device counts blocks; and no tape change follows a last entry that reaches over a tape end (lines
  585-594).  `TapeCorrect.CorrectIffHandled` says which requests are served rightly, `TapeCorrect.WrongMemory`
  and `TapeCorrect.MissingTapeChange` show two that are not.
- The driver tests the index of a page-table entry only for the second piece of a cut entry, and lets one
  past the table through (lines 537, 561 and 574): `TapeDriver.SubmitRequest`, `TapeDriver.PastTheTable`.
- `tape_dev/tapedev_irq.c` clears the request before ending it (lines 238-241 and 408), so a refused
  request is ended only if an ioctl waits behind it: `TapeQueue.RunAccounts`, and for the requests that the
  device does refuse `TapeSystem.LostIff` and `TapeSystem.SpillingIsLost`.
- `11_lab_pci/adlerdev/adlerdev.c` increments `pending_buffers` without the lock (line 175), so increments
  race with each other and with the decrement of the handler (line 87): `AdlerDevice.ExactIffRaceFree`,
  `AdlerDevice.LostIncrement`, `AdlerDevice.LostByHandler`.
- `job.c` lets the caller of a failed finalisation commit if its own preparation was fine (lines
  1002-1004), against `include/qemu/job.h` lines 355-362: `JobRun.SplitOutcome`, `JobAtomic.SparedIff`,
  `JobCases.EndsApart`.  Every other abort is atomic: `JobAtomic.AbortAtomic`.  An
  abort waits for an unstarted job, for ever unless somebody starts, fails or cancels it:
  `JobAbort.AbortEndsIff`, `JobCases.AbortStuck`.

The block-status cache could not tell an empty range at offset 0 from one that holds every byte
(`BlockStatusCache.Cache.IsData`), but nobody caches one: its only caller, `block/io.c` line 2514, goes on
to assert at line 2536 that the range was not empty (`BlockStatusCache.Cache.BlockStatus`).

## Model

| member | source | states |
|---|---|---|
| CpuExclusive.NextInv | duze_projekty/3_duze_zad_tape_device/zad3-public/cpu-common.c:180-321 | every step of every thread (one step per flag read, per lock operation, per wait) keeps the invariant that couples `running`, `has_waiter`, `pending_cpus` and the mutex |
| CpuExclusive.RunInv | duze_projekty/3_duze_zad_tape_device/zad3-public/cpu-common.c:81-321 | the invariant holds in every state of every run, with any number of CPUs that may be added and removed |
| CpuExclusive.Exclusion | duze_projekty/3_duze_zad_tape_device/zad3-public/cpu-common.c:191-246 | on every run: from the return of a `start_exclusive` to the end of the outermost one, counted over the calls the thread has made, no CPU that has called `cpu_exec_start` without `cpu_exec_end` has come out of it, no other thread has come out of a `start_exclusive` it has not ended, and `pending_cpus` is 1 |
| CpuExclusive.CallsShow | duze_projekty/3_duze_zad_tape_device/zad3-public/cpu-common.c:191-321 | `exclusive_context_count` is the number of `start_exclusive` calls returned from and not ended, nested ones included, and every thread is where the calls it has made have brought it |
| CpuExclusive.ListShows | duze_projekty/3_duze_zad_tape_device/zad3-public/cpu-common.c:81-108 | the CPUs are those that were there or were added, and were not removed since |
| CpuExclusive.FastPath | duze_projekty/3_duze_zad_tape_device/zad3-public/cpu-common.c:249-321 | while `pending_cpus` is 0, `cpu_exec_start` and `cpu_exec_end` return without the lock and change nothing but `running` |
| CpuExclusive.SpuriousTestsAgain | duze_projekty/3_duze_zad_tape_device/zad3-public/cpu-common.c:182-286 | a wait that returns without a signal leads back to the same wait |
| CpuExclusive.PendingCountsWaiters | duze_projekty/3_duze_zad_tape_device/zad3-public/cpu-common.c:201-227 | once counting is over, `pending_cpus` is one more than the number of CPUs with `has_waiter`, and every CPU that still executes is one of them |
| CpuExclusive.NoLostWakeup | duze_projekty/3_duze_zad_tape_device/zad3-public/cpu-common.c:182-321 | a thread asleep in `start_exclusive` has marked CPUs ahead of it, all on their way through `cpu_exec_start` or `cpu_exec_end`, and one asleep in `exclusive_idle` has another thread in its section: whoever must wake it is still to come |
| CpuExclusive.LastReportWakes | duze_projekty/3_duze_zad_tape_device/zad3-public/cpu-common.c:289-321 | a marked CPU that reports back wakes the waiting thread if and only if it is the last one |
| CpuExclusive.NoDeadlock | duze_projekty/3_duze_zad_tape_device/zad3-public/cpu-common.c:180-321 | whenever a thread is inside one of these functions some thread can take a step that is no new call and needs no spurious wakeup |
| CpuExclusive.CallsReturn | duze_projekty/3_duze_zad_tape_device/zad3-public/cpu-common.c:180-321 | every call returns: if no new call of `cpu_exec_start` or `start_exclusive` is made, the number of steps that follow is bounded, and when none is left every thread is outside |
| AccelBlocker.RunInv | duze_projekty/3_duze_zad_tape_device/zad3-public/accel/accel-blocker.c:43-154 | the invariant of the ioctl counters, the locks taken in sequence and the scan holds in every run |
| AccelBlocker.CallsShow | duze_projekty/3_duze_zad_tape_device/zad3-public/accel/accel-blocker.c:43-154 | the state of a run is what its calls say: each thread is in the ioctl it began and did not end, a counted lock is locked from its lock to its unlock, ioctls are inhibited from the return of `inhibit_begin` to the call of `inhibit_end` |
| AccelBlocker.InhibitedMeansNone | duze_projekty/3_duze_zad_tape_device/zad3-public/accel/accel-blocker.c:101-154 | from the return of `accel_ioctl_inhibit_begin` to the call of `accel_ioctl_inhibit_end` no ioctl begun without the BQL has not ended, and none can begin |
| AccelBlocker.CountsIoctls | duze_projekty/3_duze_zad_tape_device/zad3-public/accel/accel-blocker.c:43-83 | each counter is the number of ioctls begun and not ended under it |
| AccelBlocker.InhibitEndFrees | duze_projekty/3_duze_zad_tape_device/zad3-public/accel/accel-blocker.c:146-154 | when `inhibit_end` has returned, or nobody ever called `inhibit_begin`, no lock is locked and every idle thread can begin any ioctl |
| AccelBlocker.NoLostWakeup | duze_projekty/3_duze_zad_tape_device/zad3-public/accel/accel-blocker.c:101-144 | an inhibitor asleep on the event has a caller ahead of it that will set the event |
| AccelBlocker.InhibitorMoves | duze_projekty/3_duze_zad_tape_device/zad3-public/accel/accel-blocker.c:101-144 | an inhibitor inside `inhibit_begin` or `inhibit_end` that is not asleep can always take its next step |
| AccelBlocker.CallsReturn | duze_projekty/3_duze_zad_tape_device/zad3-public/accel/accel-blocker.c:43-154 | every call returns: from any state of a run, if no further call is made, the number of steps that follow is bounded, and when none is left no thread is in an ioctl and the inhibitor has come out of `inhibit_begin` or `inhibit_end` |
| Adler32.FeedIsChecksum | 11_lab_pci/adlerdev/adlerdev.c:79-107 | feeding bytes one by one from 1 gives the two sums of section 2.2 of RFC 1950 |
| Adler32.FeedContinues | 11_lab_pci/adlerdev/adlerdev.c:79-107 | the sum of a file carries on over chunk boundaries: feeding `y` to the checksum of `x` gives the checksum of both |
| AdlerDevice.NextCore | 11_lab_pci/adlerdev/adlerdev.c:73-214 | every step of writers, readers, the device and the interrupt handler keeps the invariant of buffers and sums, however increments and decrements of `pending_buffers` race, as long as a released file has no running buffers |
| AdlerDevice.NextExact | 11_lab_pci/adlerdev/adlerdev.c:73-189 | a step that disturbs no increment and no decrement on a file keeps the pending count of that file exact |
| AdlerDevice.ReadReturnsChecksum | 11_lab_pci/adlerdev/adlerdev.c:193-214 | a read that sees no pending buffers, with the lock, returns the ADLER32 checksum of the data of all buffers submitted for that file since it was opened, if no increment and no decrement on that file was disturbed before |
| AdlerDevice.ReadReturnsWritten | 11_lab_pci/adlerdev/adlerdev.c:143-214 | if moreover the writes on the file came one after the other, none failed and none is unfinished, that is the checksum of what the users passed to `write`, in order |
| AdlerDevice.WriteKept | 11_lab_pci/adlerdev/adlerdev.c:143-189 | no byte of a write is lost, repeated or moved: what it has handed to the device followed by what it has left is what the user passed |
| AdlerDevice.WholePages | 11_lab_pci/adlerdev/adlerdev.c:143-189 | a write goes out in whole pages, except for its last buffer |
| AdlerDevice.FileKept | 11_lab_pci/adlerdev/adlerdev.c:143-189 | the same for a file with one write at a time, none failing: what was handed over for it, followed by what its writer has left, is what was written to it |
| AdlerDevice.BuffersHold | 11_lab_pci/adlerdev/adlerdev.c:79-189 | no buffer ever holds more than a page, and one that is free or not yet filled belongs to no file |
| AdlerDevice.TripsOnOrphans | 11_lab_pci/adlerdev/adlerdev.c:73-109 | the handler trips exactly when the running list is empty or a buffer it takes or starts has no open file |
| AdlerDevice.SumOfCompleted | 11_lab_pci/adlerdev/adlerdev.c:73-109 | in every run, racing or not, that releases no file with running buffers: the sum of a file is the checksum of its completed chunks in submission order; what is still running is the rest of what was submitted |
| AdlerDevice.BuffersConserved | 11_lab_pci/adlerdev/adlerdev.c:79-107 | in the same runs the 16 buffers are divided among the free list, the running list and the writers, the device works on the head of the running list, and the `BUG_ON` never fires |
| AdlerDevice.QuietIffNoOrphans | 11_lab_pci/adlerdev/adlerdev.c:127-189 | running buffers belong to open files throughout a run if and only if no file is released while it has running buffers |
| AdlerDevice.CarefulIsRaceFree | 11_lab_pci/adlerdev/adlerdev.c:143-189 | if every file has at most one writer at a time and every write is at most a page and begins with no pending buffers, no increment or decrement is ever disturbed |
| AdlerDevice.IncWriteExact | 11_lab_pci/adlerdev/adlerdev.c:175-189 | the unlocked increment leaves the pending count exact if and only if nobody changed it between its read and its write |
| AdlerDevice.DecWriteExact | 11_lab_pci/adlerdev/adlerdev.c:79-90 | so does the decrement of the handler, which the lock does not protect from the increment; the counts of other files stay exact |
| AdlerDevice.ExactIffRaceFree | 11_lab_pci/adlerdev/adlerdev.c:73-189 | over a whole run the pending counts are exact throughout if and only if no increment and no decrement was disturbed |
| AdlerDevice.RaceShows | 11_lab_pci/adlerdev/adlerdev.c:73-189 | a disturbed increment or decrement makes a pending count wrong |
| AdlerDevice.LostIncrement | 11_lab_pci/adlerdev/adlerdev.c:143-214 | a run in which a lost increment lets a read return a sum that is not the checksum of what was submitted |
| AdlerDevice.LostByHandler | 11_lab_pci/adlerdev/adlerdev.c:73-214 | a run with one writer and no disturbed increment in which the decrement of the handler loses an increment, with the same wrong read |
| TapeCommand.EncodeDecode | duze_projekty/3_duze_zad_tape_device/tape_dev/tapedev_main.c:274-325 | the device reads back the command that the driver packed if and only if the arguments fit their bits |
| TapeDevice.MoveReadsFlat | duze_projekty/3_duze_zad_tape_device/zad3-public/hw/misc/tapedev.c:112-187 | walking the page table block by block is indexing the list of its memory blocks; the offset counts blocks |
| TapeDevice.RunAppend | duze_projekty/3_duze_zad_tape_device/zad3-public/hw/misc/tapedev.c:504-609 | a list of commands runs as its two halves one after the other |
| TapeGuard.MoveIs | duze_projekty/3_duze_zad_tape_device/zad3-public/hw/misc/tapedev.c:112-187 | READ and WRITE with any offset, count, position and page table move the blocks from the position on to or from the blocks the page table offers from the offset on, until the command, the tape or the page table ends; when they are done, and when the tape ends first, exactly |
| TapeGuard.DoneIffAccepted | duze_projekty/3_duze_zad_tape_device/zad3-public/hw/misc/tapedev.c:504-609 | any command is done if and only if a condition on the inserted tape, the position and the page table holds before it |
| TapeGuard.PlacesKept | duze_projekty/3_duze_zad_tape_device/zad3-public/hw/misc/tapedev.c:70-110 | every tape but the inserted one stays where it was left; the inserted one moves by what the command says or by the blocks moved |
| TapeGuard.RunInside | duze_projekty/3_duze_zad_tape_device/zad3-public/hw/misc/tapedev.c:636-737 | no list of commands, from the driver or not, touches a block outside the tapes of the section or memory outside the page table |
| TapeGuard.UnknownRefused | duze_projekty/3_duze_zad_tape_device/tape_dev/tapedev_main.c:274-325 | a command type that the driver does not know becomes a word that the device refuses, whatever its arguments |
| TapeCompiler.Fold | duze_projekty/3_duze_zad_tape_device/tape_dev/tapedev_main.c:478-581 | before every iteration less than a tape is pending, and the tape counter is at most one ahead of the inserted tape |
| TapeCompiler.SplitUnique | duze_projekty/3_duze_zad_tape_device/tape_dev/tapedev_main.c:366-380 | the tape and the position within it that the driver computes are the only ones for a sector |
| TapeMeaning.TableIsCut | duze_projekty/3_duze_zad_tape_device/tape_dev/tapedev_main.c:528-577 | the page table is the scatter list cut at the ends of the tapes |
| TapeMeaning.CutFlat | duze_projekty/3_duze_zad_tape_device/tape_dev/tapedev_main.c:528-577 | cutting changes no memory block and leaves no empty entry |
| TapeMeaning.FoldTape | duze_projekty/3_duze_zad_tape_device/tape_dev/tapedev_main.c:478-581 | the tape counter and the blocks left agree with the position reached |
| TapeMeaning.FoldTable | duze_projekty/3_duze_zad_tape_device/tape_dev/tapedev_main.c:532-553 | every command starts at a page-table entry, and the entries before it hold exactly the blocks moved before it |
| TapeMeaning.RunLoop | duze_projekty/3_duze_zad_tape_device/tape_dev/tapedev_main.c:478-581 | the setup and the commands of any number of iterations run without error and move what the READ and WRITE commands say |
| TapeCorrect.RunCompiled | duze_projekty/3_duze_zad_tape_device/tape_dev/tapedev_main.c:585-594 | the whole command list either stops at the end of a tape or runs to its end, whatever state the section was in |
| TapeCorrect.MovedInStep | duze_projekty/3_duze_zad_tape_device/tape_dev/tapedev_main.c:532-549 | on distinct memory the commands move the right blocks if and only if every offset is the number of blocks moved before |
| TapeCorrect.LastDecides | duze_projekty/3_duze_zad_tape_device/tape_dev/tapedev_main.c:549-549 | all offsets count blocks as soon as the entries before the last command are single blocks, and only then |
| TapeCorrect.HandledIsCorrect | duze_projekty/3_duze_zad_tape_device/tape_dev/tapedev_main.c:388-616 | if the last entry does not reach over a tape end and the memory before the last tape comes in single blocks, the commands touch exactly the positions asked for, in order, each with the right memory block, also when a block is named twice |
| TapeCorrect.CorrectIffHandled | duze_projekty/3_duze_zad_tape_device/tape_dev/tapedev_main.c:388-616 | and on distinct memory only then |
| TapeCorrect.OneTapeHandled | duze_projekty/3_duze_zad_tape_device/tape_dev/tapedev_main.c:388-616 | a request that stays on one tape always qualifies |
| TapeCorrect.WrongMemory | duze_projekty/3_duze_zad_tape_device/tape_dev/tapedev_main.c:549-549 | a request over two tapes of 512 blocks whose second READ takes its memory from the wrong place |
| TapeCorrect.MissingTapeChange | duze_projekty/3_duze_zad_tape_device/tape_dev/tapedev_main.c:585-594 | a request on tapes of 512 blocks whose last entry reaches over the tape end and that the device refuses |
| TapeDriver.AddEntry | duze_projekty/3_duze_zad_tape_device/tape_dev/tapedev_main.c:478-581 | one turn of the loop writes the page table in place and emits the words of the commands it stands for |
| TapeDriver.FillTape | duze_projekty/3_duze_zad_tape_device/tape_dev/tapedev_main.c:531-571 | an entry that fills the tape is cut in two in place; the test of the index lets everything through up to one past the table |
| TapeDriver.SubmitRequest | duze_projekty/3_duze_zad_tape_device/tape_dev/tapedev_main.c:388-676 | accepts a request if and only if it has between 1 and 512 entries, its last entry begins inside the section and the test of line 561 never fails; an accepted request writes exactly the pieces of its cut list, so it stays inside the page table if and only if these are at most 512; the words are those of the compiled request |
| TapeDriver.FitsNeverTrips | duze_projekty/3_duze_zad_tape_device/tape_dev/tapedev_main.c:557-565 | a list whose pieces fit the table never fails that test |
| TapeDriver.PastTheTable | duze_projekty/3_duze_zad_tape_device/tape_dev/tapedev_main.c:531-580 | a request of 512 entries that is accepted and whose 513 pieces the loop writes past the table |
| TapeDriver.CompileFits | duze_projekty/3_duze_zad_tape_device/tape_dev/tapedev_main.c:274-325 | no argument of a command of an accepted request outgrows its bits |
| TapeDriver.ServedIffHandled | duze_projekty/3_duze_zad_tape_device/tape_dev/tapedev_main.c:388-676 | the same two statements from the request down to the bits of the command words |
| TapeQueue.NextInv | duze_projekty/3_duze_zad_tape_device/tape_dev/tapedev_irq.c:69-122 | noting, queueing and rejecting a request, an eject, a completion and a refusal each keep the queue in the shape ioctl*, request*, ioctl*, its head at the device, and a request pending exactly while it is being built or has commands |
| TapeQueue.RunAccounts | duze_projekty/3_duze_zad_tape_device/tape_dev/tapedev_irq.c:69-122 | in every run the requests submitted are those ended, each once and in order, followed by the one at work; a request is never ended if and only if one of its commands was refused while no ioctl was queued behind it |
| TapeQueue.RunOk | duze_projekty/3_duze_zad_tape_device/tape_dev/tapedev_irq.c:411-436 | when nothing is rejected and the only refusal is an EJECT without a tape, every request that ends ends with OK |
| TapeQueue.RequestLost | duze_projekty/3_duze_zad_tape_device/tape_dev/tapedev_irq.c:238-241 | a run of the queue that loses a request, whatever its commands, when a device refuses the first one: no ioctl waits behind, and afterwards the queue is as at the start and the request was not ended |
| TapeQueue.Countdown | duze_projekty/3_duze_zad_tape_device/tape_dev/tapedev_irq.c:247-373 | every answer of the device brings the request one command closer to its end, ioctls do not delay it, and it is ended by the answer to its last command and by no other |
| TapeQueue.CommandsConserved | duze_projekty/3_duze_zad_tape_device/tape_dev/tapedev_irq.c:69-244 | however requests, ioctls and answers are interleaved: the commands disposed of, followed by those in the queue, are the commands queued, in order, and the device works on the first one in the queue |
| TapeQueue.Section.EndReqIfCompleted | duze_projekty/3_duze_zad_tape_device/tape_dev/tapedev_irq.c:411-436 | ends the request exactly when the finished command was its last one |
| TapeQueue.Section.AbortRestOfReqCmds | duze_projekty/3_duze_zad_tape_device/tape_dev/tapedev_irq.c:389-409 | removes the commands of the request and ends it only if an ioctl is queued behind |
| TapeQueue.Section.HandleDone | duze_projekty/3_duze_zad_tape_device/tape_dev/tapedev_irq.c:247-353 | removes the finished command and ends the request after its last command; an empty queue is an error that changes nothing |
| TapeQueue.Section.HandleError | duze_projekty/3_duze_zad_tape_device/tape_dev/tapedev_irq.c:125-244 | drops an EJECT that found no tape, and aborts the request for any other refusal of one of its commands |
| TapeQueue.Section.Interrupt | duze_projekty/3_duze_zad_tape_device/tape_dev/tapedev_irq.c:69-122 | the handler carries out one step of the queue and keeps its invariant |
| TapeQueue.Section.NoteRequest | duze_projekty/3_duze_zad_tape_device/tape_dev/tapedev_main.c:681-685 | a request is noted before its commands are made, and the invariant is kept |
| TapeQueue.Section.SpliceCommands | duze_projekty/3_duze_zad_tape_device/tape_dev/tapedev_main.c:597-613 | the commands of the request are appended, and sent if the queue was empty |
| TapeQueue.Section.RejectRequest | duze_projekty/3_duze_zad_tape_device/tape_dev/tapedev_main.c:804-823 | a request that was noted and then rejected is ended with an error |
| TapeQueue.Section.IoctlEject | duze_projekty/3_duze_zad_tape_device/tape_dev/tapedev_main.c:197-223 | an EJECT is appended, and sent if the queue was empty |
| TapeQueue.CompiledIsGood | duze_projekty/3_duze_zad_tape_device/tape_dev/tapedev_main.c:585-613 | the commands of every compiled request may be queued: none is an ioctl and the last is a READ or WRITE |
| TapeSystem.CompiledRuns | duze_projekty/3_duze_zad_tape_device/tape_dev/tapedev_main.c:478-616 | on its own, from any device state, the commands of an accepted request all succeed unless its last entry reaches over a tape end, and then the last one finds the end of the tape |
| TapeSystem.MissesOnEject | duze_projekty/3_duze_zad_tape_device/tape_dev/tapedev_main.c:496-519 | no command of a request but an EJECT ever misses its tape |
| TapeSystem.AnswerEnabled | duze_projekty/3_duze_zad_tape_device/tape_dev/tapedev_irq.c:125-244 | whatever the device answers to the head of the queue, the interrupt handler has a step for it |
| TapeSystem.NextInv | duze_projekty/3_duze_zad_tape_device/tape_dev/tapedev_irq.c:69-122 | every step of driver and device together keeps the invariant that what a request has moved and will move is what its commands move when run on their own |
| TapeSystem.RequestsServed | duze_projekty/3_duze_zad_tape_device/tape_dev/tapedev_main.c:388-827 | in every run of driver and device, with EJECT ioctls anywhere and the device in any state: the requests ended with OK are those whose commands all succeeded; a request that qualifies is one of them and has moved exactly its blocks; one on distinct memory that did so qualifies |
| TapeSystem.CommandsServed | duze_projekty/3_duze_zad_tape_device/tape_dev/tapedev_irq.c:69-244 | the same for driver and device together, whatever the device answers: no command of a request or an ioctl is lost or overtaken |
| TapeSystem.AllRecorded | duze_projekty/3_duze_zad_tape_device/tape_dev/tapedev_main.c:388-616 | the requests that left the queue, in whatever way, followed by the one in it, are the requests whose commands were queued, each once and in order |
| TapeSystem.LostIff | duze_projekty/3_duze_zad_tape_device/tape_dev/tapedev_irq.c:125-244 | in every such run a request leaves the queue without being ended if and only if its last entry reaches over a tape end and no ioctl is queued when its last command is refused |
| TapeSystem.SpillingIsLost | duze_projekty/3_duze_zad_tape_device/tape_dev/tapedev_irq.c:238-241 | every accepted request whose last entry reaches over a tape end has such a run: afterwards the queue is as at the start |
| BlockGraph.PointAcyclic | duze_projekty/3_duze_zad_tape_device/zad3-public/block.c:5246-5250 | pointing an edge of a node to `to` keeps the graph acyclic if and only if that node is not below `to` |
| BlockRedirect.AttachAcyclic | duze_projekty/3_duze_zad_tape_device/zad3-public/block.c:3195-3199 | a new edge closes a cycle if and only if its parent can be reached from its lower end |
| BlockWalk.RecurseHasChild | duze_projekty/3_duze_zad_tape_device/zad3-public/block.c:4323-4339 | ends on acyclic graphs and is true exactly when `child` is `bs` or below it |
| BlockWalk.VisitChildren | duze_projekty/3_duze_zad_tape_device/zad3-public/block.c:5271-5290 | one turn of the breadth-first search keeps what the search knows and makes progress |
| BlockWalk.ShouldUpdateChild | duze_projekty/3_duze_zad_tape_device/zad3-public/block.c:5219-5296 | refuses exactly the edges that must stay and those that lie below the new node |
| BlockWalk.TopologicalDfs | duze_projekty/3_duze_zad_tape_device/zad3-public/block.c:2287-2321 | adds exactly the nodes reachable from `bs` to the list, each once, every parent before its children, whole subtrees |
| BlockWalk.TopologicalList | duze_projekty/3_duze_zad_tape_device/zad3-public/block.c:2618-2630 | several calls with a shared set give one topological list of everything below the given nodes |
| BlockPerms.ParentPermsConflict | duze_projekty/3_duze_zad_tape_device/zad3-public/block.c:2243-2267 | finds a conflict exactly when some parent needs what another one does not share |
| BlockPerms.PassesIs | duze_projekty/3_duze_zad_tape_device/zad3-public/block.c:2507-2577 | the checks on the cumulative permissions of a node come out as these on the edges above it: nobody needs what another does not share, nobody writes to a read-only node, a node of odd size is written to only if somebody may resize it, and the driver agrees |
| BlockPerms.ReadOnlyRefused | duze_projekty/3_duze_zad_tape_device/zad3-public/block.c:2507-2548 | an edge that an update does not decide, and that writes to a read-only node among those updated, makes the update fail: no permissions are suitable |
| BlockPerms.GetCumulativePerm | duze_projekty/3_duze_zad_tape_device/zad3-public/block.c:2632-2648 | the union of what the parents need and the intersection of what they share |
| BlockPerms.PassSettles | duze_projekty/3_duze_zad_tape_device/zad3-public/block.c:2586-2608 | one pass over a list with parents first reaches a fixpoint: every edge below a listed node is what the driver makes of the final permissions of its parents |
| BlockPerms.FixpointUnique | duze_projekty/3_duze_zad_tape_device/zad3-public/block.c:2507-2577 | the fixpoint is determined by the drivers and the permissions above the listed nodes |
| BlockPerms.PassIsTheFixpoint | duze_projekty/3_duze_zad_tape_device/zad3-public/block.c:2586-2608 | whatever satisfies all drivers is what the pass computes |
| BlockPerms.HeadPasses | duze_projekty/3_duze_zad_tape_device/zad3-public/block.c:2594-2604 | the check that a node meets in its turn comes out as it would at the end |
| BlockPerms.ConsistentIffPasses | duze_projekty/3_duze_zad_tape_device/zad3-public/block.c:2586-2608 | a graph has suitable permissions for everybody if and only if it is the result of the pass and every node passes |
| BlockPerms.PossibleIffPasses | duze_projekty/3_duze_zad_tape_device/zad3-public/block.c:2586-2608 | suitable permissions exist if and only if the result of the pass passes every check |
| BlockUndo.SetBsBack | duze_projekty/3_duze_zad_tape_device/zad3-public/block.c:2417-2446 | pointing an edge back undoes pointing it elsewhere, with the file and backing links |
| BlockUndo.UndoAttached | duze_projekty/3_duze_zad_tape_device/zad3-public/block.c:3019-3053 | undoing an attachment removes the edge and its link and nothing else |
| BlockUndo.ParentsMove | duze_projekty/3_duze_zad_tape_device/zad3-public/block.c:2484-2496 | pointing an edge elsewhere moves exactly one reference |
| BlockRedirect.UnderSame | duze_projekty/3_duze_zad_tape_device/zad3-public/block.c:5349-5366 | moving some of the edges that may move changes the decision on no other edge |
| BlockRedirect.StepAcyclic | duze_projekty/3_duze_zad_tape_device/zad3-public/block.c:5219-5296 | moving an edge keeps the graph acyclic if and only if it does not lie below the new node |
| BlockRedirect.RedirectAcyclic | duze_projekty/3_duze_zad_tape_device/zad3-public/block.c:5337-5369 | every state of the replacement loop is acyclic |
| BlockLayer.Layer.SetPerm | duze_projekty/3_duze_zad_tape_device/zad3-public/block.c:2344-2360 | sets the permissions of one edge and records the old ones; the way back stays open |
| BlockLayer.Layer.ReplaceChildNoperm | duze_projekty/3_duze_zad_tape_device/zad3-public/block.c:2932-2993 | points the edge elsewhere; its parent has it as `file` or `backing` exactly when it is of that kind and points to a node, and all other links stay |
| BlockLayer.Layer.ReplaceChildTran | duze_projekty/3_duze_zad_tape_device/zad3-public/block.c:2472-2498 | the same with a record and with the references moved |
| BlockLayer.Layer.AttachChildCommon | duze_projekty/3_duze_zad_tape_device/zad3-public/block.c:3073-3172 | adds one edge with its reference and record, or changes nothing |
| BlockLayer.Layer.UndoRecord | duze_projekty/3_duze_zad_tape_device/zad3-public/block.c:2329-2455 | undoes one record and keeps references conserved |
| BlockLayer.Layer.TranAbort | duze_projekty/3_duze_zad_tape_device/zad3-public/util/transactions.c:60-79 | undoing all records newest first restores edges, permissions and links exactly, and references stay conserved |
| BlockLayer.Layer.TranCommit | duze_projekty/3_duze_zad_tape_device/zad3-public/util/transactions.c:81-100 | frees exactly the removed edges and turns the references of records into scheduled unrefs |
| BlockLayer.Layer.NodeRefreshPerm | duze_projekty/3_duze_zad_tape_device/zad3-public/block.c:2507-2577 | fails exactly when a parent needs what another does not share, writes to a read-only node or to one of odd size that nobody may resize, or the driver refuses; otherwise every edge below it gets what the driver asks for |
| BlockLayer.Layer.DoRefreshPerms | duze_projekty/3_duze_zad_tape_device/zad3-public/block.c:2586-2608 | succeeds exactly when the fixpoint passes all checks, and then has reached it |
| BlockLayer.Layer.ListRefreshPerms | duze_projekty/3_duze_zad_tape_device/zad3-public/block.c:2618-2630 | succeeds if and only if suitable permissions exist for everything below the nodes, and then sets them: afterwards no node below them refuses the edges above it |
| BlockLayer.Layer.RefreshPerms | duze_projekty/3_duze_zad_tape_device/zad3-public/block.c:2685-2704 | the same for one node |
| BlockLayer.Layer.AttachChildNoperm | duze_projekty/3_duze_zad_tape_device/zad3-public/block.c:3183-3215 | attaches exactly when that closes no cycle and puts no inactive node under an active one |
| BlockLayer.Layer.ReplaceNodeNoperm | duze_projekty/3_duze_zad_tape_device/zad3-public/block.c:5337-5369 | succeeds if and only if no parent stands in the way, and then has moved exactly the parents that could be moved at the start; the graph is acyclic either way |
| BlockLayer.Layer.RemoveChild | duze_projekty/3_duze_zad_tape_device/zad3-public/block.c:5316-5328 | takes the edge off, to be freed on commit |
| BlockLayer.Layer.AttachChild | duze_projekty/3_duze_zad_tape_device/zad3-public/block.c:3263-3294 | succeeds if and only if the edge is acceptable and suitable permissions exist; then its parent has it as `file` or `backing` if it is of that kind and no other link has changed; otherwise edges, permissions and links are as before; takes one reference of the caller either way |
| BlockLayer.Layer.RootAttachChild | duze_projekty/3_duze_zad_tape_device/zad3-public/block.c:3224-3253 | the same for a parent that is not a node, with all links unchanged |
| BlockLayer.Layer.Append | duze_projekty/3_duze_zad_tape_device/zad3-public/block.c:5479-5521 | succeeds exactly when the edge, the replacement and the permissions are possible; then the new node is under the old parents with its own edge still on the old top; otherwise nothing has changed |
| BlockLayer.Layer.ReplaceNodeCommon | duze_projekty/3_duze_zad_tape_device/zad3-public/block.c:5384-5439 | all parents that may move point to `to`, with suitable permissions, or nothing has changed |
| BlockLayer.Layer.RootUnrefChild | duze_projekty/3_duze_zad_tape_device/zad3-public/block.c:3297-3322 | the edge is gone, exactly its reference is scheduled to be dropped, permissions are relaxed if possible and left alone otherwise |
| BlockLayer.Layer.ScheduleUnref | duze_projekty/3_duze_zad_tape_device/zad3-public/block.c:7198-7204 | a reference held by a caller becomes a scheduled unref |
| BlockLayer.Layer.UnrefBh | duze_projekty/3_duze_zad_tape_device/zad3-public/block.c:7171-7188 | the count is positive when it is decreased, and when it reaches zero no edge, caller, record or scheduled unref refers to the node |
| BlockStatusCache.ByteOverlapIs | duze_projekty/3_duze_zad_tape_device/zad3-public/include/qemu/range.h:213-220 | for one byte the wrapped overlap test is exact except that an empty range at offset 0 seems to hold every byte |
| BlockStatusCache.OverlapIs | duze_projekty/3_duze_zad_tape_device/zad3-public/include/qemu/range.h:213-220 | when the wrapped test reports an overlap |
| BlockStatusCache.Cache.IsData | duze_projekty/3_duze_zad_tape_device/zad3-public/block.c:8445-8450 | a positive answer means at least one byte, all data, if and only if the cached range is not the empty one at offset 0 |
| BlockStatusCache.Cache.Fill | duze_projekty/3_duze_zad_tape_device/zad3-public/block.c:8469-8488 | the filled range is cached; only `(0, 0)` makes the cache degenerate, and non-empty ranges keep it proper |
| BlockStatusCache.Cache.InvalidateRange | duze_projekty/3_duze_zad_tape_device/zad3-public/block.c:8455-8464 | after bytes stop being data the cache holds none of them, and it is dropped only if they meet |
| BlockStatusCache.Cache.BlockStatus | duze_projekty/3_duze_zad_tape_device/zad3-public/block/io.c:2475-2537 | with drivers that report non-empty ranges, as the code asserts, an answer that bytes are data, from the cache or not, is always right |
| JobInv.OneJob | duze_projekty/3_duze_zad_tape_device/zad3-public/job.c:609-792 | a change of one job that leaves its group alone keeps the invariant |
| JobInv.AbortStep | duze_projekty/3_duze_zad_tape_device/zad3-public/job.c:846-883 | in an aborted group a job is finalised through abort with an error, or, if it was spared, through commit |
| JobInv.AbortInv | duze_projekty/3_duze_zad_tape_device/zad3-public/job.c:929-957 | when an abort begins, every job of the group is doomed from then on |
| JobInv.PendingInv | duze_projekty/3_duze_zad_tape_device/zad3-public/job.c:1037-1061 | when the last job completes, all have `ret` 0 and all become pending |
| JobInv.FinaliseInv | duze_projekty/3_duze_zad_tape_device/zad3-public/job.c:996-1008 | if every preparation succeeds, every job of the group commits once and is concluded |
| JobInv.FinalizeAbortedInv | duze_projekty/3_duze_zad_tape_device/zad3-public/job.c:996-1017 | a finalisation asked for while the group is being aborted keeps the invariant, too |
| JobInv.FailInv | duze_projekty/3_duze_zad_tape_device/zad3-public/job.c:972-1008 | a failed preparation begins an abort of the group that keeps the invariant |
| JobInv.CompleteInv | duze_projekty/3_duze_zad_tape_device/zad3-public/job.c:1064-1075 | noticing the end of a job keeps the invariant, whether it ends the group well, waits or aborts |
| JobAbort.CancelIff | duze_projekty/3_duze_zad_tape_device/zad3-public/job.c:1137-1163 | a cancel keeps the invariant, in every state of the job and of its group, if and only if the job has started, or it has not, is not yet aborting and is or was cancelled by force; otherwise an assertion or the table is broken |
| JobRun.NextInv | duze_projekty/3_duze_zad_tape_device/zad3-public/job.c:391-1171 | every step of users, coroutines, exits, drains and aborts keeps the invariant, also steps on jobs of a group that is being aborted |
| JobHistory.FieldsTell | duze_projekty/3_duze_zad_tape_device/zad3-public/job.c:391-1171 | in every state of every run the fields of a job are what the steps taken so far have made of them: started, returned with which code, paused by the user or an error, cancelled and how, drained how often |
| JobHistory.NeverBroken | duze_projekty/3_duze_zad_tape_device/zad3-public/job.c:59-72 | in no run is a transition requested that the table forbids or an assertion broken, and `pause_count` is exactly the number of reasons to pause, read off the steps: not started, paused and not resumed or cancelled since, drained sections begun and not ended |
| JobHistory.CommitsEarned | duze_projekty/3_duze_zad_tape_device/zad3-public/job.c:855-869 | a job commits only if it was started, its coroutine returned 0 and nobody cancelled it by force |
| JobHistory.ErrorsAbort | duze_projekty/3_duze_zad_tape_device/zad3-public/job.c:1098-1131 | once the exit of a job that returned an error has been handled, the abort of its group has begun and the job has not committed |
| JobRun.PauseInv | duze_projekty/3_duze_zad_tape_device/zad3-public/blockjob.c:93-127 | pausing, resuming, draining and stopping on an error keep the invariant of every job; that draining counts is part of `JobHistory.NeverBroken` |
| JobRun.PendingMeansAllDone | duze_projekty/3_duze_zad_tape_device/zad3-public/job.c:1037-1061 | while a job is pending outside an abort, every job of its group has completed with `ret` 0 |
| JobAtomic.Outcome | duze_projekty/3_duze_zad_tape_device/zad3-public/job.c:846-883 | every job is finalised once; in an aborted group it commits only if a finalisation called for it failed in another job, and aborts with an error otherwise; in a group that is not aborted it commits together with its whole group |
| JobAtomic.SparedIff | duze_projekty/3_duze_zad_tape_device/zad3-public/job.c:929-1008 | a step that begins an abort spares nobody if and only if it is not a finalisation that fails in another job than the one it was called for |
| JobAtomic.AbortAtomic | duze_projekty/3_duze_zad_tape_device/zad3-public/job.c:929-969 | every path from an abort that spared nobody, with all jobs of the group started, to a state in which none of them can move ends with the group empty and each of its jobs finalised once, through abort, with an error |
| JobAtomic.FailureAtomic | duze_projekty/3_duze_zad_tape_device/zad3-public/job.c:929-1075 | the same from the step that enters the abort for a failed or cancelled job |
| JobRun.SplitOutcome | duze_projekty/3_duze_zad_tape_device/zad3-public/job.c:1010-1017 | a finalisation asked for by the user does not end the group as one if and only if the failing preparation is another job than the caller: then the caller commits and the other aborts |
| JobRun.ExitSplits | duze_projekty/3_duze_zad_tape_device/zad3-public/job.c:1037-1096 | the same for the finalisation that the exit of the last job begins by itself |
| JobCases.EndsApart | duze_projekty/3_duze_zad_tape_device/zad3-public/job.c:996-1008 | a run of two jobs of one group of which one commits and the other aborts |
| JobAbort.RankNeverRises | duze_projekty/3_duze_zad_tape_device/zad3-public/job.c:958-965 | in a group that is being aborted no step of anybody takes a job farther from its end, and each step of its own brings it closer |
| JobAbort.OwnStepsBounded | duze_projekty/3_duze_zad_tape_device/zad3-public/job.c:958-965 | on every path the jobs of such a group take no more steps of their own than the sum of their ranks, and the group is empty when that sum is used up |
| JobAbort.MovesIff | duze_projekty/3_duze_zad_tape_device/zad3-public/job.c:958-965 | some job of the group can take a step of its own if and only if one is left that has started or completed |
| JobAbort.AbortEndsIff | duze_projekty/3_duze_zad_tape_device/zad3-public/job.c:958-965 | every path that runs until no job of the group can take a step of its own, without a start, failure or cancel of an unstarted one, ends with the group empty if and only if it had no unstarted job |
| JobAbort.StuckForever | duze_projekty/3_duze_zad_tape_device/zad3-public/job.c:958-965 | an unstarted job of an aborted group stays in it on every path on which nobody starts, fails or cancels it |
| JobCases.AbortStuck | duze_projekty/3_duze_zad_tape_device/zad3-public/job.c:958-965 | a run after which an abort waits for an unstarted job and no job of the group can move |
| JobAbort.UnstartedNeedsForce | duze_projekty/3_duze_zad_tape_device/zad3-public/job.c:1137-1145 | cancelling an unstarted job keeps to the table if and only if it is, or was, cancelled by force |
| JobAbort.CancelTwice | duze_projekty/3_duze_zad_tape_device/zad3-public/job.c:1137-1159 | a job that is aborting may be cancelled once more if and only if it has started |
| JobManager.Manager.ForEach | duze_projekty/3_duze_zad_tape_device/zad3-public/job.c:177-200 | a loop over jobs of a group changes exactly these |
| JobManager.Manager.CompletedTxnAbort | duze_projekty/3_duze_zad_tape_device/zad3-public/job.c:929-957 | the loop that cancels the other jobs carries out the beginning of an abort |
| JobManager.Manager.PrepareLocked | duze_projekty/3_duze_zad_tape_device/zad3-public/job.c:972-987 | a preparation returns 0 exactly when there was no error, the driver reports none and no forced cancel turns up; otherwise the job takes the error |
| JobManager.Manager.Prepare | duze_projekty/3_duze_zad_tape_device/zad3-public/job.c:177-200 | stops at the first job that has or gets an error and changes no other |
| JobManager.Manager.DoFinalizeTxn | duze_projekty/3_duze_zad_tape_device/zad3-public/job.c:996-1008 | prepares, then finalises all jobs or aborts the group |
| JobManager.Manager.CompletedTxnSuccess | duze_projekty/3_duze_zad_tape_device/zad3-public/job.c:1037-1061 | waits, or makes all jobs pending and finalises them if none needs a command for that |
| JobManager.Manager.CompletedLocked | duze_projekty/3_duze_zad_tape_device/zad3-public/job.c:1064-1075 | the end of a job is noticed as the state machine says |
| JobManager.Manager.ExitBh | duze_projekty/3_duze_zad_tape_device/zad3-public/job.c:1081-1096 | `job_exit` is one step of the state machine |
| JobManager.Manager.FinalizeVerb | duze_projekty/3_duze_zad_tape_device/zad3-public/job.c:1010-1017 | so is the finalize command, whether or not the group is being aborted |
| JobManager.Manager.CancelLocked | duze_projekty/3_duze_zad_tape_device/zad3-public/job.c:1137-1163 | so is a cancel, whether or not the group is being aborted |

## Left out

- Weak memory below the barriers: all steps are sequentially consistent.
- `cpu_exec_step_atomic`, which sets `running` inside an exclusive section; the condition variables' own fairness.
- The protocols of `cpu-common.c`, `accel-blocker.c` and `adlerdev.c` are state machines over values: updates in place and aliasing of their structures are not captured.
- `adlerdev.c`: suspend and resume, the mmap variant, PCI setup.
- Tape: block sizes other than 512 bytes, allocation failures, PCI setup, and what each waiting ioctl returns, since all share one flag.
- TapeGuard.PlacesKept: positions are unbounded; the device keeps them as 32-bit byte counts, which repeated FAST_FWD commands can wrap.
- TapeGuard.MoveIs: behind its 512 entries the page table counts as empty; that READ and WRITE do not test the index there is not modelled.
- TapeDriver.SubmitRequest: entries are between one block and one tape long, as the queue limits see to; the memory behind the page table, which a list of more than 512 pieces runs into, is part of the array.
- TapeCorrect.CorrectIffHandled: that only qualifying requests are served rightly is stated for distinct memory blocks, since otherwise moving the wrong one cannot be told from moving the right one.
- TapeSystem.RequestsServed: is about requests that lie within the section and whose cut list fits the page table; that the block layer ends a request once more when `tapedev_queue_rq` returns an error is not modelled.
- Block graph: AioContexts (one flag says whether they can be made to agree), draining, names and options, opening and closing nodes, reopening, the driver's `bdrv_set_perm` after a commit.
- The order of `children` and `parents` lists: undoing an edge puts it at the head of its list, so only the sets are restored.
- BlockLayer.Layer.ReplaceNodeCommon: the walk down the chain that finds the edge to detach is a parameter.
- BlockLayer.Layer.UnrefBh: closing and deleting the node that the last reference leaves behind is not modelled.
- BlockWalk.RecurseHasChild: stated for acyclic graphs, which every operation keeps; on a cycle the recursion of the code does not end.
- Jobs: reference counts of jobs and groups, timers, AioContexts, progress, events and the order in which a group's jobs are listed.
- Jobs: a job joins a group before any job of that group is pending or done or its abort has begun, as the callers that make groups see to; drivers report ready only from RUNNING, cancel unstarted jobs by force and never weaken a forced cancel.
- JobInv.CancelInv: is the half of `JobAbort.CancelIff` for cancels that break nothing; runs contain no others.
- JobManager.Manager.CancelLocked: requires a cancel that breaks nothing, which is exactly what `JobAbort.CancelIff` says; an unstarted job that is aborting already fails the assertion at `job.c` line 1066.
- Jobs: `job.c` releases its lock around the drivers' commit, abort, clean, prepare and cancel functions (lines 855-869, 979-981 and 892-894); each of these is one step, and what others do in those windows comes before or after it.
- JobGroup and JobRun work on values; JobManager has the loops of `job.c` on one object, but not the waiting loop of an abort, during which other steps happen.
- The other programs of the repository (labs, kernel examples, command-line tools): only easy properties.
