# A model of the LuKOS kernel's scheduler and pipes, and of what is built on them

LuKOS is a small multiprocessor kernel: several CPUs share one list of processes and threads, and threads talk
through named pipes whose calls block. This project models its scheduler, its pipes and the programs that stand on
the pipes, and proves what they are for, over every run and every interleaving. `dafny verify dfyconfig.toml`
checks it.

| file | models |
|---|---|
| `Types.dfy` | words, ids and result codes |
| `SchedulerSpec.dfy` | one scheduling pass as a function, and what it selects |
| `SchedulerRuns.dfy` | runs of passes and other events: CPU exclusion, a thread is always found |
| `BestThreads.dfy` | the best threads run, and go on running |
| `SleepTicks.dfy` | how long a sleep lasts |
| `ProcessManager.dfy` | the process manager's objects and loops, proved against `SchedulerSpec` |
| `PipeSpec.dfy` | a pipe's slots and indices, and the queue they stand for |
| `PipeSteps.dfy` | a pipe under its lock, one memory update at a time |
| `KernelMachine.dfy` | all threads, pipes and passes together: linearizability, no lost wake-up |
| `PipeHistory.dfy` | what calls bring back and which messages were written and read, over whole runs |
| `PipeProgress.dfy` | every pipe operation that has the lock ends, and every call moves on |
| `UnusedSlots.dfy` | slots outside the queue have no length left over |
| `BlockingSafety.dfy` | a blocked thread runs on no CPU until its pipe has changed |
| `IpcManager.dfy` | the IPC manager's objects and system calls, proved against `PipeSpec` |
| `Registry.dfy` | concurrent creation and lookup of pipes |
| `LockOrder.dfy` | every operation's locks and uses of shared memory: no races, no deadlock |
| `TokenMutex.dfy` | the C library glue's lock made from a one-message pipe |
| `Relay.dfy` | the terminal relay and `rx_char`, as one byte stream |
| `RelayRuns.dfy` | what is typed is what is delivered, and delivery comes to its end |
| `Romfs.dfy`, `RomfsImage.dfy`, `RomfsLookup.dfy` | the ROMFS reader, images as the format packs them, and lookup in those |
| `BlockCopy.dfy` | copying into an address space block by block |

How it is modelled. A scheduling pass is taken as one step. The process-list lock makes passes exclude each other,
but not the sleep, wake-up, block, affinity and thread-list writes of other CPUs, so this is an abstraction. A pipe
operation is one step per memory update, with the pipe's lock as an atomic acquire and release; a
thread's `blocked_by` is written under the thread's own lock, so each such write is a step of its own. The
linearization point of a pipe operation is its full or empty test. Loops over linked lists are loops over sequences
in list order. `size_t` arithmetic is written out with its wrap-around where it can matter (sleep counts, pipe ids).
A `CURRENT_THREAD` entry or a lookup result that may be NULL is an option type. The affinity bit mask is a set of
cores.

What the model assumes of its surroundings: the platform has no more CPUs than `PM_THREAD_AFF_CORE` has bits; a
thread that is blocked issues no pipe call until it is woken (called the guard; the return path of a system call is
not part of this model), and only the results of `BlockingSafety` use it; messages from stdin fit the relay's
256-byte buffer.

What the code does differently from what one might expect, each stated by a lemma or a contract:

- A new thread's `sleep_ticks` is never set, so a CPU's first pass can take its idle thread only if the allocated
  memory happened to hold 0 or 1 there. If it did not, and no other thread can be taken by that CPU, the pass goes
  on to dereference NULL (`FoundExactly`, and `FirstPassNeedsClearedSleep` for a system that runs nothing else).
- The sleep count wraps at 2^64 for large arguments (`SleepCountExact`).
- A one-message pipe loses an empty message, since `len` is also its used mark; only the non-zero length check in
  the system call keeps that from happening (`PutRefinesQueue`).
- Purging leaves a stale `len` in the freed slot (`PurgeIsNotTidy`); it is never read.
- The ROMFS reader looks for a file's data 16 bytes early when the name's length is a multiple of 16, because the
  terminating NUL then takes a padding block of its own; with such a volume name it finds no file at all
  (`IterationReportsFiles`, `FindPacked`).
- The block copy translates only the first byte of each block, so an unaligned block over two pages goes astray
  (`TargetsExactly`, `UnalignedCopyStrays`).
- The design documents speak of a process priority; the code stores it and never looks at it, and the
  model does likewise.

## Model

| member | source | states |
|---|---|---|
| `SchedulerSpec.BestOfIsFirstMinimum` | implementation/src/kernel/src/managers/process-manager.c:217-255 | the inner scan chooses the first ready thread, in list order, of the smallest priority below `(size_t)-1`, and nothing exactly if there is none |
| `SchedulerSpec.TwoLevelIsFlat` | implementation/src/kernel/src/managers/process-manager.c:179-191 | choosing per process and then among the choices gives what one scan over all threads of all processes gives, for any number of processes |
| `SchedulerSpec.SelectedIsFirstMinimum` | implementation/src/kernel/src/managers/process-manager.c:162-263 | a pass selects a thread if and only if that thread is the first of minimum priority among the eligible threads of all lists as the scan leaves them; it selects nothing exactly if no thread is eligible |
| `SchedulerSpec.FlatInOrder` | implementation/src/kernel/src/managers/process-manager.c:179-190 | the single list of all threads has one thread before another exactly if it is in an earlier process of the list, or earlier in the same process's list |
| `SchedulerRuns.CreateListed` | implementation/src/kernel/src/managers/process-manager.c:279-303 | appending a thread to a thread list or a process to the process list keeps every thread on one list, once, and so visited once in a pass |
| `ProcessManager.Thread.Visit` | implementation/src/kernel/src/managers/process-manager.c:222-245 | one visit changes the thread as the scan does (READY recomputed from affinity, `blocked_by`, `sleep_ticks`, RUNNING; the count decremented) and tells whether it is a candidate |
| `ProcessManager.Thread.Sleep` | implementation/src/kernel/src/userspace/schedule.c:14-30 | the sleep call sets `max_cpus*(ticks+1)` in 64-bit arithmetic; no ticks is an error and changes nothing |
| `ProcessManager.Manager.ProcessSchedulerRun` | implementation/src/kernel/src/managers/process-manager.c:204-263 | the loop over one process updates exactly its threads, each once, and returns the first minimum |
| `ProcessManager.Manager.ReleaseCurrent` | implementation/src/kernel/src/managers/process-manager.c:173-178 | only RUNNING of this CPU's current thread is cleared |
| `ProcessManager.Manager.ScanProcesses` | implementation/src/kernel/src/managers/process-manager.c:179-191 | the outer loop over the process list leaves every thread as a single scan does and returns the two-level choice |
| `ProcessManager.Manager.ThreadNextGet` | implementation/src/kernel/src/managers/process-manager.c:162-202 | a whole pass over the objects is the pass of the specification, so all results about runs hold of it; the thread returned is the current thread of this CPU and RUNNING |
| `ProcessManager.Manager.ThreadCreate` | implementation/src/kernel/src/managers/process-manager.c:112-151 | a new thread goes to the end of its process's list, unpinned, not blocked, not running, with whatever `sleep_ticks` its memory held; it is known to the scheduler at once if the process is on the process list, and otherwise changes nothing for it |
| `ProcessManager.Manager.ProcessSchedule` | implementation/src/kernel/src/managers/process-manager.c:274-293 | a process goes to the end of the process list, with the threads created in it so far |
| `ProcessManager.Manager.StartIdle` | implementation/src/kernel/src/managers/process-manager.c:58-73 | the idle part of `pm_init`: one thread per CPU created in a process of its own, pinned, and the process scheduled, which is the event that the results about idle threads start from |
| `SchedulerRuns.CpuExclusion` | implementation/src/kernel/src/managers/process-manager.c:173-198 | in every run from boot, with any interleaving of passes, creation, affinity changes, sleeping, blocking and waking: RUNNING is set exactly on the CPUs' current threads, and no two CPUs have the same one |
| `SchedulerRuns.RecordsFollow` | implementation/src/kernel/src/managers/process-manager.c:153-263 | in every run a thread keeps its priority, its affinity is the one set last, and `blocked_by` is what the last block or wake-up left: passes write none of them |
| `SchedulerRuns.AlwaysFound` | implementation/src/kernel/src/managers/process-manager.c:56-73 | with one pinned idle thread per CPU at priority `SIZE_MAX-1`, never blocked or asleep, a pass on any CPU selects a thread and respects its affinity |
| `SchedulerRuns.NeverNull` | implementation/src/kernel/src/managers/process-manager.c:162-202 | the same in every reachable state of every run that leaves the idle threads alone |
| `SchedulerRuns.IdleProcessIsReady` | implementation/src/kernel/src/managers/process-manager.c:58-73 | scheduling such an idle process establishes that condition in any state, if the uninitialised `sleep_ticks` are at most 1 |
| `SchedulerRuns.FoundExactly` | implementation/src/kernel/src/managers/process-manager.c:162-202 | in any state a pass finds a thread if and only if some listed thread may run on the CPU, is not blocked, has at most one tick of sleep left, a priority below `(size_t)-1` and runs on no other CPU; the one it takes is such a thread |
| `SchedulerRuns.FoundExactlyInRun` | implementation/src/kernel/src/managers/process-manager.c:162-202 | so in every state of every run from boot |
| `SchedulerRuns.FirstPassNeedsClearedSleep` | implementation/src/kernel/src/managers/process-manager.c:112-133 | an instance: with only the idle process scheduled, the first pass of a CPU finds a thread if and only if the memory left in its idle thread's `sleep_ticks` is at most 1 |
| `BestThreads.BeforeIsListOrder` | implementation/src/kernel/src/managers/process-manager.c:179-255 | the order that the next results speak of: priority first, then the place of the process in the process list, then the place in its thread list |
| `BestThreads.PassGivesBest` | implementation/src/kernel/src/managers/process-manager.c:162-263 | after its pass a CPU runs a thread no waiting thread comes before |
| `BestThreads.PassKeepsBest` | implementation/src/kernel/src/managers/process-manager.c:162-263 | the pass of one CPU never takes that away from another |
| `BestThreads.BestThreadsRun` | implementation/src/kernel/src/managers/process-manager.c:162-263 | once every CPU has made a pass, in any order and with repetitions, and nobody woke, slept or was created, no ready non-idle thread waits while some CPU runs one that is later in (priority, process-list order, thread-list order) |
| `BestThreads.AssignmentIsStable` | implementation/src/kernel/src/managers/process-manager.c:162-263 | from then on every pass selects the same thread again, so the assignment of threads to CPUs stays |
| `SleepTicks.SleepCountExact` | implementation/src/kernel/src/userspace/schedule.c:24 | the count is `max_cpus*(ticks+1)` exactly if that fits 64 bits |
| `SleepTicks.SleepCountsDown` | implementation/src/kernel/src/managers/process-manager.c:226 | in every run the remaining count is the starting count less the passes made since on CPUs in the thread's affinity |
| `SleepTicks.ExactSleep` | implementation/src/kernel/src/managers/process-manager.c:222-245 | none of the first count-1 such passes selects the thread; from the next one on it is a candidate unless it is blocked or runs elsewhere |
| `SleepTicks.SleepInTicks` | implementation/src/kernel/src/userspace/schedule.c:14-30 | an unpinned thread stays asleep while each CPU has made at most `ticks` passes, and is awake once each has made `ticks`+1 |
| `PipeSpec.TakeContent` | implementation/src/kernel/src/managers/ipc-manager.c:200-204 | a read takes the oldest message off the queue and leaves the others in order, with index wrap and in the one-slot mode |
| `PipeSpec.PutRefinesQueue` | implementation/src/kernel/src/managers/ipc-manager.c:148-168 | a write appends its message, dropping the oldest one if there is no room, if and only if the pipe holds more than one message or the message is not empty; a one-message pipe loses an empty message |
| `PipeSpec.PurgeIsNotTidy` | implementation/src/kernel/src/managers/ipc-manager.c:150-168 | a purge leaves the dropped message's length behind in the freed slot, unless it was 0 |
| `PipeSteps.AdvanceRefines` | implementation/src/kernel/src/managers/ipc-manager.c:146-210 | every single update under the pipe lock keeps what holds between updates, and the queue it stands for changes only at the full or empty test, by one atomic queue operation |
| `PipeSteps.PendingStep` | implementation/src/kernel/src/managers/ipc-manager.c:212-247 | notification clears the waiting list from its end; the threads still to be notified shrink by exactly the one woken |
| `PipeSteps.OperationAlone` | implementation/src/kernel/src/managers/ipc-manager.c:146-210 | from the test to the unlock, the updates of one operation come to the whole of it: refused, with its thread at the end of the waiting list, or gone through, with the message put in or taken out and the other list notified and empty |
| `PipeSteps.OperationEnds` | implementation/src/kernel/src/managers/ipc-manager.c:146-210 | the updates an operation has left are counted exactly; after so many the lock is free, and not before |
| `PipeProgress.OperationEndsInRun` | implementation/src/kernel/src/managers/ipc-manager.c:146-210 | in every run an operation that has the lock is over, lock given back and result in hand, after that many updates of its pipe, whatever other threads do; its next update is always possible and never out of place |
| `PipeProgress.CallMovesOn` | implementation/src/kernel/src/managers/ipc-manager.c:130-211 | every step of a call brings it on, by a phase (looked up, lock taken, back, out) or by an update under the lock, and no step of another thread sets it back; taking the lock starts the operation that was asked for |
| `PipeProgress.CallCanGoOn` | implementation/src/kernel/src/managers/ipc-manager.c:130-211 | a call can always take its next step, except that it waits for the pipe's lock while another call has it |
| `KernelMachine.NextSound` | implementation/src/kernel/src/managers/ipc-manager.c:130-247 | every step of any thread keeps the invariant of pipes, waiting lists, `blocked_by` and call states |
| `KernelMachine.Linearizable` | implementation/src/kernel/src/managers/ipc-manager.c:130-211 | in every run of any number of threads, with every interleaving of the updates, each step is a step of the machine whose pipes are atomic FIFO queues of capacity max(1, max_messages-1): calls and returns match, and each operation takes effect once, between its call and its return |
| `KernelMachine.NoLostWakeUp` | implementation/src/kernel/src/managers/ipc-manager.c:148-164 | in every reachable state with the lock free, waiting readers mean an empty pipe and waiting writers a full one; never are both waiting; and every thread blocked by a pipe is on one of its lists, still to be notified |
| `PipeHistory.CallResult` | implementation/src/kernel/src/userspace/ipc.c:23-53 | the result a call brings back is what the atomic queue answered to that call's own operation, at one moment between call and return |
| `PipeHistory.Conservation` | implementation/src/kernel/src/managers/ipc-manager.c:148-172 | on a pipe that does not purge, the messages of the writes that went through are the messages that reads brought back followed by the queue, in order, in every reachable state |
| `PipeHistory.KeepsLatest` | implementation/src/kernel/src/managers/ipc-manager.c:150-154 | before the first read the queue is the last messages written, as many as the capacity allows |
| `KernelMachine.PurgeNeverFull` | implementation/src/kernel/src/managers/ipc-manager.c:150-154 | in every reachable state a pipe that purges has no waiting writer, and no write to it waits or returns full |
| `UnusedSlots.AdvanceKeepsSlots` | implementation/src/kernel/src/managers/ipc-manager.c:166-204 | no update of a write or a read leaves a length in a slot outside the queue, if the pipe does not purge |
| `UnusedSlots.UnusedSlotsAreEmpty` | implementation/src/kernel/src/managers/ipc-manager.c:77-82 | so in every reachable state the unused slots of such a pipe have `len` 0 |
| `IpcManager.Pipe.Write` | implementation/src/kernel/src/managers/ipc-manager.c:130-173 | the write over the objects: too large, refused as full (caller appended to the writers and blocked), or put in, all readers woken; which one, and the whole new state in each case |
| `IpcManager.Pipe.Read` | implementation/src/kernel/src/managers/ipc-manager.c:175-211 | the read over the objects: empty (caller appended to the readers and blocked), or the oldest message taken, its slot cleared, all writers woken |
| `IpcManager.NotifyAll` | implementation/src/kernel/src/managers/ipc-manager.c:212-223 | the recursion clears `blocked_by` of exactly the listed threads |
| `IpcManager.Manager.PipeCreate` | implementation/src/kernel/src/userspace/ipc.c:8-21 | refuses no messages or empty messages; else a new empty pipe with the next id of the 64-bit counter at the end of the list |
| `IpcManager.Manager.LookupById` | implementation/src/kernel/src/managers/ipc-manager.c:94-109 | finds the first pipe with that id, and nothing exactly if there is none |
| `IpcManager.Manager.LookupByName` | implementation/src/kernel/src/managers/ipc-manager.c:111-128 | finds the oldest pipe of that name, and nothing exactly if there is none |
| `IpcManager.Manager.WriteById` | implementation/src/kernel/src/managers/ipc-manager.c:130-173 | looks the pipe up, then writes: the result, the pipe's new queue and lists, and `blocked_by` of the caller and of every waiting thread; no other pipe is touched |
| `IpcManager.Manager.PipeWrite` | implementation/src/kernel/src/userspace/ipc.c:23-38 | the system call's result in every case; every thread waiting on another pipe stays blocked, no other pipe is touched, and a write that succeeds appends to the queue |
| `IpcManager.Manager.PipeRead` | implementation/src/kernel/src/userspace/ipc.c:40-53 | the system call's result in every case; every thread waiting on another pipe stays blocked, no other pipe is touched, and a read that succeeds returns the oldest message |
| `BlockingSafety.OneWaitingPlace` | implementation/src/kernel/src/managers/ipc-manager.c:233-247 | if no blocked thread makes a pipe call, each thread is still to be notified in at most one list of one pipe, once, in every reachable state |
| `BlockingSafety.PassSkipsBlocked` | implementation/src/kernel/src/managers/process-manager.c:227-230 | no pass on any CPU selects a blocked thread |
| `BlockingSafety.BlockedUntilPipeChanges` | implementation/src/kernel/src/managers/ipc-manager.c:157-170 | with that guard, after a thread got empty (or full) from a pipe no pass on any CPU selects it until a write to (or a read of) that pipe has gone through |
| `TokenMutex.MutualExclusion` | implementation/src/apps/101-romfs-server/libc-glue.c:25-27 | in every run the threads holding the token plus the token in the pipe make one; so at most one thread is in the list code, an unlock never finds the pipe full, and threads wait only while some thread holds the token |
| `TokenMutex.FreeTokenIsTaken` | implementation/src/apps/101-romfs-server/libc-glue.c:27 | a turn of the locking loop takes the token if and only if no thread has it, and puts the thread on the waiting list otherwise |
| `TokenMutex.ListIsAppends` | implementation/src/apps/101-romfs-server/libc-glue.c:72-84 | in every run, with the token free, the list is the root and the nodes of exactly the append calls that are over, once each, in the order in which they ended; while it is held, at most the holder's own node comes after them |
| `TokenMutex.NoLostNode` | implementation/src/apps/101-romfs-server/libc-glue.c:72-84 | so from the end of an append call on, the node that it was called with is in the list for ever |
| `TokenMutex.SearchResult` | implementation/src/apps/101-romfs-server/libc-glue.c:124-143 | the node that `__getreent` returns was seen with the id and every node before it without, between call and return; it returns nothing only after seeing every node without the id |
| `TokenMutex.FindsOwnNode` | implementation/src/apps/101-romfs-server/libc-glue.c:124-143 | so a thread whose own node alone carries its id all the while gets its own node |
| `TokenMutex.HolderFinishes` | implementation/src/apps/101-romfs-server/libc-glue.c:124-143 | a holder can always go on, each of its steps brings it nearer to giving the token back, nobody else's step delays it, and every way out gives the token back |
| `LockOrder.ProgramOrdered` | implementation/src/kernel/src/managers/ipc-manager.c:146-247 | every operation of the two managers takes its locks in one order (process list, process, pipe, waiting list, thread), never two of a kind, gives all of them back, and makes just its uses of shared memory, each under exactly the locks that the use needs: a notification under pipe, list and thread lock, the ring under the pipe lock, a visit of a pass under process-list, process and thread lock |
| `LockOrder.LocksExactly` | implementation/src/kernel/src/managers/ipc-manager.c:84-264 | an operation takes a lock if and only if something that it does needs the lock |
| `LockOrder.OperationRuns` | implementation/src/kernel/src/managers/process-manager.c:162-308 | in every run a CPU makes the uses of shared memory of the operation that it started, one after the other, all of them by the time it is done |
| `LockOrder.NoRace` | implementation/src/kernel/src/managers/ipc-manager.c:130-247 | in no reachable state are two CPUs at uses of shared memory that have a lock in common, and each holds just the locks that its use needs |
| `LockOrder.NoCyclicWait` | implementation/src/kernel/src/managers/process-manager.c:172-261 | in every reachable state of any number of CPUs running these operations lock by lock, no cycle of CPUs wait for each other's locks |
| `LockOrder.SomeoneCanStep` | implementation/src/kernel/src/managers/process-manager.c:172-261 | so while any CPU has lock actions left, some CPU can take its next one: no deadlock |
| `Registry.NextSound` | implementation/src/kernel/src/managers/ipc-manager.c:84-128 | every step of concurrent creators and lookups keeps: the list lock has the one thread inside, every pipe made is listed or with its creator, no two have the same serial, and a walk has seen no match before its place |
| `Registry.EveryPipeIsSomewhere` | implementation/src/kernel/src/managers/ipc-manager.c:84-92 | in every reachable state each id taken so far is that of exactly one pipe, listed or in the hands of the one thread that makes it |
| `Registry.ListIsCreated` | implementation/src/kernel/src/managers/ipc-manager.c:54-92 | in every run the list is exactly the pipes of the creations that are over, in the order in which they ended, each with the name given and the id taken in its call; the ids count up from 1000 |
| `Registry.CreatedIsListed` | implementation/src/kernel/src/managers/ipc-manager.c:84-92 | a thread back from a creation has left a pipe with the name it asked for and the id it took in the list, for ever |
| `Registry.LookupResult` | implementation/src/kernel/src/managers/ipc-manager.c:94-128 | a lookup returns the first match in the list as it is at its last step, and nothing exactly if there is none |
| `Registry.InsideFinishes` | implementation/src/kernel/src/managers/ipc-manager.c:84-128 | a free list lock is taken by whoever tries; who has it can always go on, comes nearer to giving it back with each step, and is not delayed by others |
| `Registry.ListedIsFoundById` | implementation/src/kernel/src/managers/ipc-manager.c:94-109 | as long as the counter has not wrapped, listed pipes have different ids and each is found by its own |
| `Registry.ListedForever` | implementation/src/kernel/src/managers/ipc-manager.c:250-264 | and is found by it ever after |
| `Registry.LookupIsStable` | implementation/src/kernel/src/managers/ipc-manager.c:94-128 | once a lookup by id or name returned a pipe, every lookup for the same that ends later, by any thread, returns that pipe |
| `Romfs.Be32ReadsBigEndian` | implementation/src/apps/101-romfs-server/romfs.c:104-120 | loading and converting a word reads its four bytes as a big-endian number on either kind of CPU |
| `Romfs.HeadersIncrease` | implementation/src/apps/101-romfs-server/romfs.c:60-95 | a walk whose next offsets lead forward inside the image visits headers at ever higher addresses, so each once |
| `Romfs.IterateFiles` | implementation/src/apps/101-romfs-server/romfs.c:60-95 | the loop ends, and calls its callback for exactly the entries with a size, in order |
| `Romfs.FileFinder.Visit` | implementation/src/apps/101-romfs-server/romfs.c:37-46 | the callback remembers base and length if the name is the one looked for, else changes nothing |
| `Romfs.FileFind` | implementation/src/apps/101-romfs-server/romfs.c:48-59 | on any image returns 0 if and only if some entry with a size carries the name, with the base and length of the last such entry; else -1 and no base |
| `RomfsImage.FoundIsStored` | implementation/src/apps/101-romfs-server/romfs.c:72-79 | for one list of packed files: the reader's addresses of the non-empty files are where the data is stored exactly if none of their names has a length that is a multiple of 16 |
| `RomfsImage.IterationReportsFiles` | implementation/src/apps/101-romfs-server/romfs.c:60-95 | on every packed image the walk stays inside and ends; it reports every non-empty file where its data is stored, in order and once, if and only if neither the volume name's length nor that of any non-empty file's name is a multiple of 16 (or all files are empty) |
| `RomfsImage.RoundTrip` | implementation/src/apps/101-romfs-server/romfs.c:60-95 | packing files and iterating gives back the non-empty files' names and contents, in order, once each |
| `RomfsLookup.FindPacked` | implementation/src/apps/101-romfs-server/romfs.c:48-59 | on every packed image the lookup succeeds if and only if the volume name's length is no multiple of 16 and some non-empty file has the name; length and base are then those of the last such file's data, the base 16 bytes before it if the name's length is a multiple of 16 |
| `Relay.CutIsFirst` | implementation/src/apps/103-terminal-server/terminal-server.c:124-131 | the cut is the longest beginning without an ETX, and nothing else is |
| `Relay.Terminal.CutAtEtx` | implementation/src/apps/103-terminal-server/terminal-server.c:124-131 | the loop computes the cut in place and switches to the command line exactly if there is an ETX |
| `Relay.CharInput.RxChar` | implementation/src/apps/101-romfs-server/app.c:79-100 | `rx_char` hands out the bytes of the messages in order, none lost or repeated, reads only when its buffer is used up, and ends if a message that is not empty comes |
| `Relay.NextSound` | implementation/src/apps/103-terminal-server/terminal-server.c:114-134 | every event of relay, command line and applications keeps every application's stream |
| `RelayRuns.EndToEnd` | implementation/src/apps/103-terminal-server/terminal-server.c:120-133 | in every run, for every application: the bytes handed out, then unread buffer, then queued messages, then the relay's cut message are the bytes that the relay took from stdin in the sessions that the command line attached to the application, each cut at its first ETX; queued messages are never empty |
| `RelayRuns.SessionDelivers` | implementation/src/apps/103-terminal-server/terminal-server.c:120-133 | once nothing is on the way any more, the application has got, after what earlier sessions brought, exactly the bytes waiting on stdin or arriving since it was attached, up to the first ETX, in order |
| `RelayRuns.StdinIsQueue` | implementation/src/apps/103-terminal-server/terminal-server.c:123 | what arrives on stdin and finds room is taken in the order in which it came, by the relay or the command line, and nothing else is |
| `RelayRuns.AlwaysATurn` | implementation/src/apps/103-terminal-server/terminal-server.c:123-132 | until all is delivered, relay or application can make a turn that finds what it looks for |
| `RelayRuns.TurnsAreBounded` | implementation/src/apps/103-terminal-server/terminal-server.c:123-132 | in every run, while nothing more comes, there are at most so many such turns: each takes at least one off what is to go, and no other turn adds to it |
| `RelayRuns.CanSettle` | implementation/src/apps/103-terminal-server/terminal-server.c:114-134 | so from every reachable state such turns of relay and application alone come to the end of delivery: nothing on the way, every byte that was meant for the application handed out |
| `RelayRuns.SessionEndsAtEtx` | implementation/src/apps/103-terminal-server/terminal-server.c:126-130 | the relay is back at the command line exactly if no application is attached or the session's bytes contain an ETX |
| `BlockCopy.CopyIn` | implementation/src/kernel/src/managers/virtual-memory-manager.c:51-66 | the loop ends for every length; byte i lands where its block's first byte is mapped, plus its place in the block, and no other byte of memory changes |
| `BlockCopy.TargetsExactly` | implementation/src/kernel/src/managers/virtual-memory-manager.c:56-64 | every byte lands where its own virtual address is mapped if and only if no block straddles two pages whose frames do not follow each other |
| `BlockCopy.AlignedCopy` | implementation/src/kernel/src/managers/virtual-memory-manager.c:51-66 | so with an injective page map, pages of whole blocks, a block-aligned destination and a source apart from it, the copy is the byte by byte copy |
| `BlockCopy.UnalignedCopyStrays` | implementation/src/kernel/src/managers/virtual-memory-manager.c:56-64 | an unaligned copy of two bytes over two 4 KiB pages that puts the second one on the wrong page |

## Left out

- Architecture code, spin lock internals, memory allocation and ELF loading: locks are atomic, allocation always gives fresh memory, and the page map is given.
- `pm_init`: its idle part is `StartIdle`; finding and loading the programs is not modelled.
- `SchedulerRuns.CpuExclusion`: takes a pass as one step, while in the source a thread's own fields can change under its lock between two visits of the same pass.
- `IpcManager.Manager.PipeWrite`: a thread's `blocked_by` names its pipe by id, so after a wrap of the counter it does not tell two pipes of the same id apart.
- Translating the user's buffer and length addresses in the pipe calls: messages are passed as values.
- Callers without a thread in the pipe calls: the full and empty branches dereference the caller.
- The round-robin branch: it is an empty stub, and no process is created with it.
- `IpcManager.Pipe.Write` and `IpcManager.Pipe.Read`: run undisturbed under the pipe's lock; what concurrency does between their updates is in `KernelMachine`, on values.
- `ProcessManager.Manager.ThreadNextGet`: the list nodes are sequences of object references, so aliasing of list nodes is not modelled.
- `Registry.NextSound`: pipes are created with a name; a pipe made with a NULL name leaves its `name` unset.
- `TokenMutex.MutualExclusion`: the shared list and its walking pointers are values with places, one step per pointer move, so that all interleavings are covered.
- `RelayRuns.EndToEnd`: assumes that every session's application was registered before; the listen handshake and the list of multiplexed applications are not modelled.
- `tx_char` and the way back from an application to stdout: messages of one byte with the same retry, which would add only a simpler copy of the relay.
- The command line interpreters, the UART drivers, logging, interrupt registration and the device range check.
- `libc_thread_start`, `_sbrk` and the POSIX stubs: thin wrappers.
- The ROMFS checksums and file types other than regular files: the reader looks at neither.
- `LockOrder.ProgramOrdered`: a walk over a linked list under one lock is one use of the list, and filling in a new object before it is listed is not counted as a use.
- Fairness and timing: nothing says when a woken thread runs or a turn is made, only which can be and how many are enough.
