# Verified models of the advUNIX programs

The programs under `advUNIX` are small, but several of them contain hand-written protocols
whose correctness is a statement about every schedule and every input: a bounded buffer
with three semaphores, a memory allocator, a semaphore simulator, signal-based turn taking,
child reaping, a round-robin scheduler, a condition-variable hand-off, two servers around
`select`, and a line reader. This project models each of them in Dafny and proves what it
is for.

The modules have the same layers, as far as their subject has them.

* A state and its transitions as values: what one atomic statement, call or turn does.
* Theorems about the transitions: invariants, and statements over every run (`EveryRun`,
  `RunsKeep`, ...), where a run is an arbitrary finite sequence of moves, inputs or calls.
* The program itself as a class (or a method over an array) whose fields are updated in
  place as the C code does it. Each method is tied by its postcondition to the transition
  it performs, and loops that let threads run pick any enabled thread, so what is proved
  about them holds for every scheduler.

| file | source | subject |
|---|---|---|
| `Ring.dfy`, `Tally.dfy`, `Sequences.dfy` | | circular reads of an array; sums over a family of threads; lists without repetition and chained conservation laws |
| `BoundedBuffer.dfy` | `ProducerConsumerSema.c` | P producers, C consumers, any capacity |
| `Allocator.dfy` | `mymalloc.c` | first-fit allocator with headers in the memory it manages |
| `SemaphoreSim.dfy` | `HW2.c` | counting semaphore over an unchecked ring |
| `SignalTurns.dfy` | `sigSync.c` | two processes taking turns by signals |
| `Reaper.dfy` | `echoSimpleForkServer.c`, `httpForkServer.c` | SIGCHLD reaping, descriptors, `errno` |
| `RoundRobin.dfy` | `userLevelCtx.c` | ready queue and timer tick |
| `CondVar.dfy` | `pthread-conditionalvariable.c` | hand-off with spurious wakeups |
| `SelectServer.dfy` | `httpSelectServer.c` | client table, fd set, service sweep |
| `ExitCheck.dfy`, `ChatRoom.dfy` | `chat_server.c` | terminator test, member list with swap-remove |
| `Readline.dfy` | `chat_client.c` | line reader |

## Where the code does not do what one would expect

These are results about the code as it is, each with the exact condition under which the
expected behaviour holds.

* `userLevelCtx.c` fills a ring of MAX_TASK cells with MAX_TASK ids, and the empty test is
  `front == rear`: the first `dequeue` returns -1 and no task ever runs
  (`RoundRobin.FullRingNeverRuns`). Among 1 to N tasks in N cells the scheduler rotates
  exactly when there are fewer than N (`RoundRobin.WorksIff`). In C the program would go on
  to use `taskQueue[-1]`; the model only follows the queue.
* `ProducerConsumerSema.c` ends exactly when the consumers' total is at most the producers'
  total, and the difference fits into the ring (`BoundedBuffer.EveryRun`). Its `main` uses
  equal totals.
* `pthread-conditionalvariable.c` ends exactly when the consumer's loop count is at most the
  producer's (`CondVar.EveryRun`).
* `HW2.c`: `sem_init` sets up a consistent semaphore exactly for values of at least 0
  (`SemaphoreSim.InitIff`).
* `exitCheck` can miss a terminator that is in the message, because its cursor stays where a
  comparison failed (`ExitCheck.MissedTerminator`); it finds one exactly if some occurrence
  is preceded by no copy of its first character (`ExitCheck.FoundIff`).
* The chat server's sweep does not always serve everyone who has something to say, because a
  leaver's place is taken by the last member (`ChatRoom.MissedSpeaker`). The member at
  position k is served exactly if k plus the number of leavers before it is below the
  number of members (`ChatRoom.ServedIff`), so everyone is served exactly if that holds for
  all speakers (`ChatRoom.EveryoneServedIff`). In a whole turn a newcomer counts as a member
  (`ChatRoom.TurnServes`).
* The handler of `httpForkServer.c` does not save `errno`, so `perror` can report another
  failure than the one that occurred (`Reaper.HttpLosesErrno`, a run from the start). It is
  sure to report the right one exactly if that is ECHILD itself, or if no child is left to
  exit and no signal is pending when `accept` or `fork` is called
  (`Reaper.FailureReportedIff`). In a given run the failure survives whenever a child still
  runs at the report (`Reaper.HttpErrnoAfter`). The handler of `echoSimpleForkServer.c` saves `errno` and
  always reports the right one (`Reaper.EchoKeepsErrno`).

## Model

The transition functions themselves (`Step`, `Apply`, `Turn`, `Sweep`, `Loop`, ...) carry no
contract of their own; the rows name the theorems about them and the methods that carry
them out in place. Constructors and methods of a single assignment are tied to their
transition by their contracts and have no row.

| member | source | states |
|---|---|---|
| BoundedBuffer.EveryRun | advUNIX/ProducerConsumerSema/ProducerConsumerSema.c:22-119 | For any threads, capacity, item counts and interleaving: produced items are the consumed ones followed by the ring read from `out`; runs are bounded; a run that cannot go on has all threads finished if and only if the totals fit, and then the semaphores and pointers are back where they belong |
| BoundedBuffer.StepRefinesQueue | advUNIX/ProducerConsumerSema/ProducerConsumerSema.c:30-43 | Every atomic step of every thread keeps the invariant and is a step of a bounded FIFO queue: put with room, get of the oldest item, or nothing |
| BoundedBuffer.AccessIsSafe | advUNIX/ProducerConsumerSema/ProducerConsumerSema.c:35-37 | In its critical section a producer writes no cell that holds an unread item, and a consumer finds the oldest item in the cell it reads |
| BoundedBuffer.BlockedIff | advUNIX/ProducerConsumerSema/ProducerConsumerSema.c:30-43 | A producer waits exactly while every slot is filled or reserved, a consumer exactly while every stored item is claimed or unannounced, and anyone at the mutex exactly while somebody is in its critical section |
| BoundedBuffer.PutsWhatItDraws | advUNIX/ProducerConsumerSema/ProducerConsumerSema.c:26-37 | Over any run a producer puts into the ring exactly the numbers it drew, in order, up to the one in its hand |
| BoundedBuffer.MutualExclusion | advUNIX/ProducerConsumerSema/ProducerConsumerSema.c:56-69 | Two threads are never both between acquiring and releasing `mutex` |
| BoundedBuffer.TokenConservation | advUNIX/ProducerConsumerSema/ProducerConsumerSema.c:85-88 | `empty` plus `full` plus threads in flight is always the capacity |
| BoundedBuffer.StepConserves | advUNIX/ProducerConsumerSema/ProducerConsumerSema.c:26-48 | Each step keeps both item totals and lowers the work left |
| BoundedBuffer.StuckIsFinishedIff | advUNIX/ProducerConsumerSema/ProducerConsumerSema.c:104-110 | A state in which no thread can move has all threads finished if and only if the totals fit |
| BoundedBuffer.NoDeadlock | advUNIX/ProducerConsumerSema/ProducerConsumerSema.c:56-74 | With fitting totals every reachable unfinished state has a thread that can move |
| BoundedBuffer.RunsKeep | advUNIX/ProducerConsumerSema/ProducerConsumerSema.c:26-73 | Every run keeps invariant, capacity and totals, and is no longer than the work there was |
| BoundedBuffer.Program.Move | advUNIX/ProducerConsumerSema/ProducerConsumerSema.c:30-43 | One statement of one thread, in place, is the modelled step |
| BoundedBuffer.Program.MoveAny | advUNIX/ProducerConsumerSema/ProducerConsumerSema.c:26-73 | Whichever thread moves, with whatever number drawn, the invariant and totals stay and the work drops |
| BoundedBuffer.Program.RunThreads | advUNIX/ProducerConsumerSema/ProducerConsumerSema.c:104-119 | Under any scheduler the program ends, with all threads joined exactly if the totals fit; with equal numbers of threads everything produced is consumed in order and the ring is empty |
| Allocator.EveryRun | advUNIX/HW1/mymalloc.c:47-134 | After any calls, with foreign break growth in between, following `next` through memory visits the ascending blocks and ends; live regions overlap neither each other nor any header |
| Allocator.OpKeepsValid | advUNIX/HW1/mymalloc.c:80-134 | Every call, foreign growth and in-bounds write keeps headers in memory and the list consistent, ascending, disjoint and below the break |
| Allocator.WalkVisits | advUNIX/HW1/mymalloc.c:28-39 | The chain read from memory alone has no cycle and no detour |
| Allocator.LiveRegionsDisjoint | advUNIX/HW1/mymalloc.c:54-74 | Regions of two live pointers, headers included, share no address and lie below the break |
| Allocator.BytesSurvive | advUNIX/HW1/mymalloc.c:96-134 | A byte its owner neither overwrites nor frees is unchanged by any run of calls, break growth and other owners' writes |
| Allocator.WrittenByteReadsBack | advUNIX/HW1/mymalloc.c:96-134 | What an owner writes it reads back after any run in which it neither overwrites nor frees it |
| Allocator.OpKeepsByte | advUNIX/HW1/mymalloc.c:54-72 | No single operation changes a byte of a live region except its owner's own write |
| Allocator.OpKeepsOwner | advUNIX/HW1/mymalloc.c:123-134 | Blocks never move or change size, and only freeing a pointer ends its life |
| Allocator.MallocGivesFreshRegion | advUNIX/HW1/mymalloc.c:80-118 | NULL exactly for size 0 or when nothing fits and the break does not move; otherwise a pointer nobody held to enough bytes, with all older pointers intact |
| Allocator.GrowsOnlyWhenNothingFits | advUNIX/HW1/mymalloc.c:25-42 | First fit: the lowest block that fits is reused, and the list and the break grow only if none does |
| Allocator.FirstFit | advUNIX/HW1/mymalloc.c:27-41 | The index is the first of a block that is free and large enough, or the end of the list |
| Allocator.FreeUndoesMalloc | advUNIX/HW1/mymalloc.c:116-134 | The header is found again from the pointer: freeing a reused block restores the memory exactly, freeing a new one leaves it at the end, free |
| Allocator.FreeReleases | advUNIX/HW1/mymalloc.c:123-134 | In any state, freeing a live pointer ends its life and nobody else's, marks its own block free in the list and in its header, and changes no other block or cell and neither the head nor the break; NULL changes nothing |
| Allocator.FreedSpaceIsReused | advUNIX/HW1/mymalloc.c:96-113 | After a free, a request that fits succeeds without moving the break |
| Allocator.BlocksArePeak | advUNIX/HW1/mymalloc.c:96-113 | For equal-sized requests the list has exactly as many blocks as were ever alive at once |
| Allocator.Heap.FindFreeBlock | advUNIX/HW1/mymalloc.c:25-42 | The loop over memory returns the first block that fits, or NULL |
| Allocator.Heap.RequestSpace | advUNIX/HW1/mymalloc.c:47-74 | On success the new header is written at the old break and linked last; on refusal nothing changes |
| Allocator.Heap.MyMalloc | advUNIX/HW1/mymalloc.c:80-118 | The call on memory yields the modelled arena and pointer and keeps it consistent |
| Allocator.Heap.MyFree | advUNIX/HW1/mymalloc.c:123-134 | NULL changes nothing; otherwise exactly the `free` field of the pointer's own header is set in memory, and the pointer is no longer live |
| SemaphoreSim.WaitStep | advUNIX/HW2/HW2.c:27-30 | A ready task finds room in the unchecked ring, enters or queues up last, and the ring keeps listing exactly the blocked tasks in order |
| SemaphoreSim.PostStep | advUNIX/HW2/HW2.c:60-72 | A post with waiters reads an occupied cell and wakes the longest waiter |
| SemaphoreSim.InitIff | advUNIX/HW2/HW2.c:39-42 | With all tasks ready, initialisation is sound exactly for values of at least 0 |
| SemaphoreSim.Pigeonhole | advUNIX/HW2/HW2.c:23-30 | Distinct blocked ids that miss one task are fewer than MAX |
| SemaphoreSim.WakesInOrder | advUNIX/HW2/HW2.c:46-69 | Over any run, those waiting plus those queued up are those woken plus those still waiting, in order |
| SemaphoreSim.WakesOnItsPost | advUNIX/HW2/HW2.c:63-69 | A task at position p wakes on exactly the (p+1)-th later post |
| SemaphoreSim.PostsWake | advUNIX/HW2/HW2.c:63-69 | While there are waiters each post wakes exactly one |
| SemaphoreSim.GrantsBalance | advUNIX/HW2/HW2.c:46-65 | Grants minus posts over any run is the drop in max(value, 0) |
| SemaphoreSim.AtMostInside | advUNIX/HW2/HW2.c:44-72 | If only insiders post, at most the initial value are inside, fewer exactly when a wait would enter at once |
| SemaphoreSim.Simulator.constructor | advUNIX/HW2/HW2.c:89-93 | `main` sets up a sound simulator exactly for values of at least 0 |
| SemaphoreSim.Simulator.SemWait | advUNIX/HW2/HW2.c:44-58 | The call in place is the modelled wait and keeps the invariant |
| SemaphoreSim.Simulator.SemPost | advUNIX/HW2/HW2.c:60-72 | The call in place is the modelled post and keeps the invariant |
| SignalTurns.EveryRun | advUNIX/signalSynchronization/sigSync.c:74-106 | Any rounds, lines and schedule: one turn token, output a prefix of the dialogue, the parent exits only after the child, bounded runs, and a run that cannot go on has both processes finished and everything printed |
| SignalTurns.StepKeepsInv | advUNIX/signalSynchronization/sigSync.c:52-72 | Each move keeps the single token over statements, flags and pending bits, and the output that belongs to it |
| SignalTurns.NoSignalIsLost | advUNIX/signalSynchronization/sigSync.c:40-65 | A turn is never sent onto a pending signal, nobody suspends with the flag set, and no handler runs outside `sigsuspend` |
| SignalTurns.NoDeadlock | advUNIX/signalSynchronization/sigSync.c:84-104 | If neither process can move, both have finished all rounds |
| SignalTurns.BlockedIff | advUNIX/signalSynchronization/sigSync.c:52-93 | A process can only be held up in `sigsuspend`, exactly while the turn is its peer's, or, the parent, in `waitpid`, exactly until the child has exited |
| SignalTurns.UnblockedSignalsDeadlock | advUNIX/signalSynchronization/sigSync.c:45-49 | Without the blocking in TELL_WAIT there is, for all lines and at least one round, a run in which both processes sleep forever |
| SignalTurns.OutputIsPrefix | advUNIX/signalSynchronization/sigSync.c:21-28 | Characters of the two lines never interleave |
| SignalTurns.StepLowersWork | advUNIX/signalSynchronization/sigSync.c:56-61 | Every move lowers a measure, also through the wait loops |
| SignalTurns.RunsKeepInv | advUNIX/signalSynchronization/sigSync.c:84-100 | Every run keeps the invariant and is bounded |
| SignalTurns.Processes.Run | advUNIX/signalSynchronization/sigSync.c:83-106 | Under any scheduler both processes finish and the terminal shows the whole dialogue |
| Reaper.QuiescentHasNoZombies | advUNIX/simpleSocketServer/echoSimpleForkServer.c:19-24 | A server with nothing pending and no handler running has no zombies; while there is one, the handler can move |
| Reaper.StepKeepsInv | advUNIX/simpleSocketServer/echoSimpleForkServer.c:71-109 | Each event keeps: a zombie has a pending signal or a looping handler; forked children are running, zombies or reaped; the parent's descriptors |
| Reaper.RunsKeepInv | advUNIX/HTTPWebServer/httpForkServer.c:137-175 | The same over every run of either server |
| Reaper.SettlesWithoutZombies | advUNIX/simpleSocketServer/echoSimpleForkServer.c:34-41 | Without new clients, exits and handler runs stop after boundedly many steps with every child reaped |
| Reaper.HandlerLoopProgress | advUNIX/HTTPWebServer/httpForkServer.c:75-80 | An iteration that continues reaps exactly one zombie; the last one found none |
| Reaper.StepLowersUnrest | advUNIX/HTTPWebServer/httpForkServer.c:75-80 | Exits and handler statements lower a measure |
| Reaper.NoDescriptorLeaks | advUNIX/HTTPWebServer/httpForkServer.c:153-174 | A child inherits only the listener and its own client; the parent is back at `accept` with the listener alone |
| Reaper.EchoKeepsErrno | advUNIX/simpleSocketServer/echoSimpleForkServer.c:19-24 | Over every run from the start, the failure to be reported is in `errno` or saved by the handler that has interrupted |
| Reaper.FailureReportedIff | advUNIX/HTTPWebServer/httpForkServer.c:140-161 | After a failing `accept` or `fork`, every interruption leaves the failure in `errno` exactly if the server saves it, it is ECHILD, or no child can exit and no signal is pending |
| Reaper.ReportsFailureIff | advUNIX/HTTPWebServer/httpForkServer.c:144-157 | The same for any state in which a failure is about to be reported |
| Reaper.ReachesEchild | advUNIX/HTTPWebServer/httpForkServer.c:75-80 | From any state with a child to exit or a handler run to come, exits and a complete handler run end with ECHILD in `errno` |
| Reaper.HttpLosesErrno | advUNIX/HTTPWebServer/httpForkServer.c:75-80 | A run from the start in which a failure of `accept` other than ECHILD is gone from `errno` when it is about to be reported |
| Reaper.ErrnoWhileChildrenRun | advUNIX/HTTPWebServer/httpForkServer.c:77 | From any state, handler running or not: as long as a child runs, exits and handler statements leave `errno` alone |
| Reaper.HttpErrnoAfter | advUNIX/HTTPWebServer/httpForkServer.c:75-80 | What a given interruption leaves in the HTTP server's `errno`: the value from before while a child still runs, ECHILD once there is neither a child nor a signal left and there was one, and never anything else |
| Reaper.Server.Happen | advUNIX/simpleSocketServer/echoSimpleForkServer.c:71-109 | Every event in place keeps the invariant |
| Reaper.Server.ReapLoop | advUNIX/simpleSocketServer/echoSimpleForkServer.c:22 | The loop ends although children exit while it runs; `errno` is as before if a child still runs, and ECHILD if there is neither a child nor a signal left |
| Reaper.Server.Signals | advUNIX/simpleSocketServer/echoSimpleForkServer.c:34-41 | Any exits and handler runs between two statements leave the loop's own state alone, and `errno` too for the echo server or while a child still runs |
| Reaper.Server.ReportError | advUNIX/HTTPWebServer/httpForkServer.c:144-157 | Under any interruptions the report is the failure itself for the echo server, while a child still runs, and with nothing to interrupt; otherwise it can only be ECHILD instead |
| Reaper.Server.SigchldHandler | advUNIX/simpleSocketServer/echoSimpleForkServer.c:19-24 | On return any zombie left has its own signal pending; `errno` is as before for the echo server and while a child still runs, and is ECHILD in the HTTP server when neither a child nor a signal is left |
| Reaper.Server.ServeOne | advUNIX/HTTPWebServer/httpForkServer.c:137-175 | One loop turn under any interruptions: back at `accept` with the listener alone, or gone exactly if the echo server's `fork` fails; the reported failure is the one that occurred or, in the HTTP server only, ECHILD, and it is the right one for the echo server, if it is ECHILD, if nothing could interrupt, and whenever a child still runs at the end |
| RoundRobin.Rotation | advUNIX/UserLevelContextSwitch/userLevelCtx.c:24-43 | With k tasks in more than k cells, task t mod k runs after t ticks and its successors queue up in cyclic order |
| RoundRobin.OncePerCycle | advUNIX/UserLevelContextSwitch/userLevelCtx.c:38-43 | Every k consecutive ticks choose each task exactly once |
| RoundRobin.RotatedIsPermutation | advUNIX/UserLevelContextSwitch/userLevelCtx.c:38-41 | Running task plus queue is a permutation of the ids |
| RoundRobin.FirstDequeueIff | advUNIX/UserLevelContextSwitch/userLevelCtx.c:56-73 | After filling k tasks into N cells the first `dequeue` fails exactly if N divides k |
| RoundRobin.FullRingNeverRuns | advUNIX/UserLevelContextSwitch/userLevelCtx.c:56-73 | With as many tasks as cells, as written, no task is ever chosen |
| RoundRobin.WorksIff | advUNIX/UserLevelContextSwitch/userLevelCtx.c:29-43 | Among 1 to N tasks the scheduler rotates exactly for fewer than N |
| RoundRobin.Scheduler.OnTimer | advUNIX/UserLevelContextSwitch/userLevelCtx.c:38-43 | The handler's choice of the next task |
| RoundRobin.Scheduler.Run | advUNIX/UserLevelContextSwitch/userLevelCtx.c:53-74 | The program with any number of ticks: task ticks mod k runs, or none in a full ring |
| CondVar.EveryRun | advUNIX/pthread-basic/pthread-conditionalvariable.c:12-47 | Any schedule and spurious wakeups: `data` is produced minus consumed and never negative, runs are bounded by their spurious wakeups, and the threads finish if and only if enough is produced |
| CondVar.NoLostWakeup | advUNIX/pthread-basic/pthread-conditionalvariable.c:15-19 | A consumer waiting although there is data is about to be signalled |
| CondVar.StopsIff | advUNIX/pthread-basic/pthread-conditionalvariable.c:26-33 | When neither thread can move, both have finished or the consumer waits for an item that is never produced, exactly according to the counts |
| CondVar.RunsKeep | advUNIX/pthread-basic/pthread-conditionalvariable.c:13-33 | Every run keeps the invariant and is bounded |
| CondVar.HandOff.Run | advUNIX/pthread-basic/pthread-conditionalvariable.c:37-47 | Under any scheduler and finitely many spurious wakeups the joins return exactly if enough is produced |
| SelectServer.TurnKeepsInv | advUNIX/HTTPWebServer/httpSelectServer.c:75-207 | Entries stay distinct open descriptors; an accepted unclosed client is listed or was accepted with all slots taken |
| SelectServer.EveryRun | advUNIX/HTTPWebServer/httpSelectServer.c:75-207 | The same over every run; a client is lost only if some accept found the table full |
| SelectServer.TurnServesReported | advUNIX/HTTPWebServer/httpSelectServer.c:149-206 | In a turn that neither `select` nor a called `accept` ends, a client is served exactly if it is in the table and reported: read once, answered unless its connection ended, then closed, in this order, and dropped from the table; nothing is done with any other descriptor |
| SelectServer.NewcomerWaits | advUNIX/HTTPWebServer/httpSelectServer.c:116-147 | A client just accepted is not read in the same turn and is listed unless the table was full |
| SelectServer.InsertEntries | advUNIX/HTTPWebServer/httpSelectServer.c:139-146 | The first free slot takes the client, no other slot changes, and a full table stays as it is |
| SelectServer.SweepCalls | advUNIX/HTTPWebServer/httpSelectServer.c:150-206 | The calls made for one descriptor by a sweep |
| SelectServer.SweepAbout | advUNIX/HTTPWebServer/httpSelectServer.c:150-206 | The calls about one descriptor, in their order |
| SelectServer.SweepInTableOrder | advUNIX/HTTPWebServer/httpSelectServer.c:150-206 | The calls of a sweep come slot by slot: those of the front of the table, then those of the rest |
| SelectServer.SelectLoop.BuildFdSet | advUNIX/HTTPWebServer/httpSelectServer.c:77-101 | A descriptor is in the set exactly if it is the listener or a table entry, and `maxfd` is the maximum |
| SelectServer.SelectLoop.StoreClient | advUNIX/HTTPWebServer/httpSelectServer.c:139-146 | The loop stores into the first free slot or nowhere |
| SelectServer.SelectLoop.Admit | advUNIX/HTTPWebServer/httpSelectServer.c:116-147 | An accepted client takes the first free slot, and in a full table none |
| SelectServer.SelectLoop.ServicePass | advUNIX/HTTPWebServer/httpSelectServer.c:150-206 | The loop clears exactly the reported slots and makes the modelled calls in order |
| SelectServer.SelectLoop.OneTurn | advUNIX/HTTPWebServer/httpSelectServer.c:75-207 | A whole turn in place, with the fd set and `maxfd` right at `select` |
| ExitCheck.Check | advUNIX/simpleChatting/chat_server.c:46-63 | The loop returns 1 exactly when the first hit of the terminator's first character starts the terminator, and -1 otherwise |
| ExitCheck.FoundIff | advUNIX/simpleChatting/chat_server.c:53-60 | 1 exactly if some occurrence of the terminator is preceded by no copy of its first character |
| ExitCheck.MissedTerminator | advUNIX/simpleChatting/chat_server.c:53-60 | A message that contains the terminator and is not recognised |
| ChatRoom.TurnKeepsInv | advUNIX/simpleChatting/chat_server.c:112-176 | Members are distinct and exactly the accepted clients that have not passed `exitCheck`; who leaves in a turn was reported and sent the terminator; an accepted newcomer becomes a member and does nothing in its first turn |
| ChatRoom.TurnServes | advUNIX/simpleChatting/chat_server.c:130-175 | In a whole turn the member at position k acts exactly if it is reported, has a message, and k plus the leavers before it is below the number of members including a newcomer; then it leaves, or its text goes to exactly the members and the newcomer that have not left before; nobody else stops being a member |
| ChatRoom.TurnActors | advUNIX/simpleChatting/chat_server.c:130-175 | Those who act in a turn were members before it, act once each, and in list order |
| ChatRoom.EveryRun | advUNIX/simpleChatting/chat_server.c:112-176 | The same over every run with at most MAX_SOCK members |
| ChatRoom.WantsOutIff | advUNIX/simpleChatting/chat_server.c:17-63 | A message is taken for a wish to leave exactly if "exit", newline, occurs in it with no 'e' before, and exactly if the loop recognises it |
| ChatRoom.SweepActors | advUNIX/simpleChatting/chat_server.c:152-166 | Despite swap-remove no client is processed twice in a sweep, and each for the right reason |
| ChatRoom.SweepMembers | advUNIX/simpleChatting/chat_server.c:158-166 | After a sweep the members are those before without those who left |
| ChatRoom.SweepBroadcasts | advUNIX/simpleChatting/chat_server.c:168-170 | Every broadcast reaches exactly the members of that moment, each once |
| ChatRoom.SweepInListOrder | advUNIX/simpleChatting/chat_server.c:152-175 | Despite swap-remove, members act in the order of the list from before the sweep |
| ChatRoom.NobodyMissedWithoutLeavers | advUNIX/simpleChatting/chat_server.c:152-175 | In a sweep without leavers everyone with a message is served |
| ChatRoom.ServedIff | advUNIX/simpleChatting/chat_server.c:152-175 | The member at position k is served exactly if it has something to say and k plus the leavers before it is below the number of members |
| ChatRoom.EveryoneServedIff | advUNIX/simpleChatting/chat_server.c:152-175 | All who have something to say are served exactly if that holds for each of them |
| ChatRoom.MissedSpeaker | advUNIX/simpleChatting/chat_server.c:158-166 | Of two members with messages the second is missed when the first leaves |
| ChatRoom.MovedMemberWaits | advUNIX/simpleChatting/chat_server.c:161-165 | The last member is passed over when anybody before it leaves, and stays a member |
| ChatRoom.Server.Remove | advUNIX/simpleChatting/chat_server.c:159-164 | Swap-remove in place |
| ChatRoom.Server.Tell | advUNIX/simpleChatting/chat_server.c:169-170 | The loop sends to all members in list order |
| ChatRoom.Server.Visit | advUNIX/simpleChatting/chat_server.c:153-174 | One visit in place is the modelled action |
| ChatRoom.Server.VisitNext | advUNIX/simpleChatting/chat_server.c:152-175 | A visit in place brings the sweep forward by one position with the same outcome ahead |
| ChatRoom.Server.ServeMembers | advUNIX/simpleChatting/chat_server.c:152-175 | The loop over the shrinking array is the modelled sweep |
| ChatRoom.Server.OneTurn | advUNIX/simpleChatting/chat_server.c:130-175 | A turn in place is the modelled turn and keeps the invariant |
| Readline.CallIsFaithful | advUNIX/simpleChatting/chat_client.c:18-39 | A call stores exactly the bytes it consumes, at most maxlen-1 with a newline only at the end; its result counts stored bytes, failed reads, and one unless a line is complete; 0 exactly at the end |
| Readline.CallEnds | advUNIX/simpleChatting/chat_client.c:22-35 | A call reads on until the first newline or end of stream, or until it has read as often as the buffer has room, and no shorter and no further |
| Readline.ResultWithoutErrors | advUNIX/simpleChatting/chat_client.c:22-38 | Without read errors a nonzero result is the stored length, plus one unless it ends on a newline |
| Readline.CallsConcatenate | advUNIX/simpleChatting/chat_client.c:18-39 | Successive calls store exactly the bytes consumed, nothing lost or repeated |
| Readline.EnoughCallsReadAll | advUNIX/simpleChatting/chat_client.c:18-39 | Enough calls with room for a byte deliver the whole stream |
| Readline.Fill | advUNIX/simpleChatting/chat_client.c:22-35 | The loop with its advancing pointer stores the modelled bytes and touches no other cell |
| Readline.ReadLine | advUNIX/simpleChatting/chat_client.c:18-39 | The call on a buffer: it ends at the first newline or end of stream or when the buffer is full, the bytes consumed are in the buffer with a terminator behind them, and the buffer is untouched when it returns 0 |

## Left out

- Other programs of the repository (containers, daemons, curses, the shell, the Rust game, the epoll, single-process and thread servers): system-call demonstrations or repetitions without a further invariant.
- Integer width: semaphore values, counters, tick counts and sizes are mathematical integers, so wrap-around of `size + BLOCK_SIZE` or of a semaphore is not modelled.
- Allocator memory: an address holds one value; each header field is held whole at the address of its first byte, so the byte encoding of `size`, `free` and `next` is not modelled. Alignment of returned pointers is not claimed, because the code never rounds sizes.
- Allocator callers: `my_free` is called with NULL or a live pointer, and owners write inside their regions; what happens otherwise is not modelled.
- Output: `printf` lines, sleeps and random numbers appear only as the recorded order of critical sections and as arbitrary items.
- Semaphore simulator: the `id` field of a task is never read by the program and has no counterpart.
- Signal turns: failures of `signal`, `fork` and `sigprocmask`, and signals from other processes.
- Fork servers: what a child does with its connection, and setting up the sockets; process ids may be reused once a child is reaped, and are therefore counted, not listed.
- Round robin: the exchange of stacks by `swapcontext` and `setcontext`; a task has no state besides its id.
- Select server: request parsing, reply text and the limit FD_SETSIZE on descriptor values.
- Chat server: `nfds` is taken from the last list entry and need not cover every member, so nothing is claimed about which descriptors `select` watches; the size of the receive buffer is not modelled.
- Chat client: only `readline` is modelled, not the loop around `select`.
- Fairness: no assumption about the scheduler is made; that a program ends is proved for every schedule, and that an endless server makes progress is stated as bounds on the steps between client arrivals.
