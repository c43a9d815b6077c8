# perf, modelled and proved in Dafny

This project models the parts of `perf` that are protocols, state machines and linked indexes of
their own, and proves what they keep over every run:

- **Scheduler replay** (`perf sched replay`): trace events become per-task lists of atoms in which a
  SLEEP can share a semaphore with one later WAKEUP; one thread per task replays its list, round after
  round, behind a barrier of two mutexes and two semaphores per task. `ReplayBuild` and class
  `ReplayBuilder.Builder` build the lists, `ReplayTrace` tells them from the events, `ReplayRun` is the interleaved
  execution, `ReplayTheorems` joins them.
- **Scheduler latency** (`perf sched latency`): a state machine of work atoms per thread (`Latency`,
  `LatencyTrace`, `LatencyTool`), merging by command (`LatencyMerge`, `LatencyTotals`) and sorting by keys (`LatencySort`,
  `LatencyReport`).
- **Scheduler timehist** (`perf sched timehist`): time accounting per switch, clipped to a window
  (`Timehist`), what it says about one thread (`TimehistTimeline`, `TimehistTotals`), and the growable per-CPU array (`TimehistTool`).
- **`perf top`**: reader and flusher over two queues (`TopQueues`).
- **`perf kmem`**: page mode over maps (`KmemPages`) and over its three trees (`KmemPageTrees`), slab mode (`KmemSlab`).
- **`perf lock`**: the sequence of each thread on each lock (`LockStats`, `LockReport`), and all of it from the trace alone (`LockTrace`).
- **`perf timechart`**: I/O samples (`TimechartIo` and its companions), power states (`TimechartPower`, `TimechartPowerTool`).
- **`perf report --tasks`**: linking and printing the forest of tasks (`TaskForest`, `TaskPrint`, `TaskOrder`, `TaskTool`).
- **`perf record --aio`**: restarted asynchronous writes (`AioWrite`, `AioTool`).

`Sums`, `Options` and `RbTree` are shared. A red-black tree is given by its nodes in order; a walk
narrows an interval around an arbitrary pivot, so what is proved does not depend on the balance.

Each part has the same layout: a datatype for the state, one function per handler, a reference
definition of what the numbers should be in terms of the trace, and lemmas over all traces. Where the
program changes things in place there is also a class whose methods are proved to do what those
functions say. Threads are state machines: every shared-memory action is one step, and any enabled
actor may move.

## What the proofs show about the code

Some expectations hold only under a condition, or not as one would word them:

- Timehist accounts a thread from its first switch-out, not from the start of its first accounted run,
  when the CPU of that first switch-out had not been seen before (`TimehistTimeline.PartitionedFromFirstRun`
  gives the exact condition, `FirstRunUnseen` an example).
- The average comparison of the latency report is antisymmetric unless neither entry has an atom. The
  report is still sorted, but for entries without atoms the keys after the average are never looked at
  (`LatencySort.AvgAntisymmetric`, `ComparedByRanks`, `RuntimeNotConsulted`).
- The I/O samples of a comm stay disjoint unless a call clashes: the newest closed sample succeeded, was
  moved behind a failed one past the beginning of this call, and the two are not merged
  (`TimechartIoIntervals.OrderlyUnlessClash`, `FailureBreaksOrder`).
- A restarted write gives its control block up with data left exactly when the kernel refuses the rest
  with something other than EAGAIN; its reference is then never put (`AioWrite.FreedWithRest`,
  `RequestEnds`, and `RefusedRun` for a run that gets there).
- The release of a read lock keeps the sequence when a lone reader leaves and frees it while readers
  remain. A run hits the BUG_ON exactly when a pair's release directly follows the release of its lone
  reader on a lock not discarded, and a plain or try acquire at that point discards the lock
  (`LockTrace.CrashExactly`, `AcquireDiscardsExactly`, `ReleasedTwice`, `ReleasedThenAcquired`).
- Page trees compare signed differences. That is a total order on a set of pages exactly when one window
  of 2^63 pages, which may wrap around, holds them all, and it is the order of the numbers exactly when
  all of them differ by less than 2^63 (`KmemPageTrees.TotalExactly`, `NumericExactly`).
- After any trace, double allocations and mismatched orders included, a page free fails exactly when, with the
  order of the free, the entry of its call site or, outside live mode, of its page is not listed. It can pass
  because of another live page, and then makes that page's own free fail, or because of an earlier allocation
  (`KmemPages.FreeFailsExactly`, `MismatchFailsLater`, with example traces both ways).
- Slab totals tell the bytes in use exactly when the bytes lost by allocating live pointers again equal those
  counted twice by repeated frees (`KmemSlab.BytesInUse`). A repeated free is also a ping-pong, on any CPU but one
  numbered -1 in 16 bits (`KmemSlab.PointersTold`).
- `perf top` delivers events in the order in which they were queued as long as no delivery fails
  (`TopQueues.DeliveredInOrder`).
- In `perf top` a flusher that waits for an idle reader is woken if and only if another event is queued
  (`TopQueues.WokenExactly`); one is enough (`AckBounded`). A run does get there (`AsleepReached`).
- With a window timehist clips runs but not waits: the wait totals reach back before the window exactly
  when a counted wait began there (`TimehistTotals.WaitsUnclipped`, `WaitReachesBack` for a trace).
- In a timechart min_freq is the lowest accepted frequency exactly if none of them is 0 or the last one is: a
  0 is overwritten by the next change on any CPU, so an interval left open at 0 can be drawn with a frequency
  above all that came before (`TimechartPower.LowestExactly`, `ZeroDrawnHigh`).
- The character of a previous state is read beyond the string exactly for states above 11, which includes
  those of exiting tasks (`Latency.ReadsBeyond`); what is found there is an input of the model.

## Model

| member | source | states |
|---|---|---|
| `ReplayBuild.RegisterKeeps` | builtin-sched.c:435-478 | A registered pid is in the table, every task has an atom, and no task comes to end in a RUN |
| `ReplayBuild.WakeupKeeps` | builtin-sched.c:398-423 | A wakeup keeps the tables valid and never lets a task end in a RUN |
| `ReplayBuild.SwitchKeeps` | builtin-sched.c:375-433 | A switch appends RUN then SLEEP without ever merging two RUNs |
| `ReplayBuild.ProcessKeeps` | builtin-sched.c:799-896 | Whatever the event, tables stay valid and, between events, no task's last atom is a RUN, so merging never fires |
| `ReplayBuild.AppendRanked` | builtin-sched.c:348-365 | A new unlinked atom ranks above all others |
| `ReplayBuild.RegisterRanked` | builtin-sched.c:435-478 | Registering a task keeps a ranking of all atoms |
| `ReplayBuild.LinkedRanks` | builtin-sched.c:398-423 | A linked SLEEP can be moved just behind its WAKEUP because it is the last of its task |
| `ReplayBuild.LinkedJoins` | builtin-sched.c:398-423 | After a link every semaphore still joins one SLEEP and one WAKEUP that ranks lower |
| `ReplayBuild.LinkedOwned` | builtin-sched.c:398-423 | No other atom carries the semaphore |
| `ReplayBuild.LinkRanked` | builtin-sched.c:398-423 | The links after one more wakeup are well formed and ranked |
| `ReplayBuild.WakeupRanked` | builtin-sched.c:398-423 | Linked, targetless or multi-target, a wakeup keeps the ranking; a self-wakeup never links |
| `ReplayBuild.SwitchRanked` | builtin-sched.c:375-433 | So does a switch |
| `ReplayBuild.ProcessRanked` | builtin-sched.c:799-896 | So does every event |
| `ReplayBuild.BuiltRanked` | builtin-sched.c:799-896 | Every trace leaves well-linked, ranked atom lists and no merged RUN |
| `ReplayBuild.CrossRanked` | builtin-sched.c:493-506 | The cross-task wakeups keep them so |
| `ReplayBuild.BuiltProgramWellLinked` | builtin-sched.c:347-506 | For every trace each semaphore belongs to exactly one SLEEP and one WAKEUP, and a rank grows along tasks and links |
| `ReplayTrace.OutcomeIs` | builtin-sched.c:398-423 | A wakeup is linked, targetless or multi-target as the trace says: it links if and only if the wakee is another task whose list ends in a SLEEP nobody has woken |
| `ReplayTrace.WakeupTold` | builtin-sched.c:799-819 | A wakeup adds a WAKEUP to the list of tid and a semaphore to it and to the SLEEP that ends the list of pid, if it links |
| `ReplayTrace.SwitchTold` | builtin-sched.c:821-865 | A switch adds a RUN and a SLEEP to the list of prev_pid, with the time since the last switch of the CPU |
| `ReplayTrace.BuiltFollows` | builtin-sched.c:345-478 | For every trace, from the events alone: the tasks in their order and with their names, every atom of each task with kind, time, duration, wakee and semaphore, and each counter, linked, targetless and multi-target wakeups one by one |
| `ReplayTrace.LinkJoins` | builtin-sched.c:407-422 | Semaphore k is carried by the SLEEP in the list of pid and the WAKEUP in the list of tid of the k-th linking wakeup |
| `ReplayTrace.OrderIs` | builtin-sched.c:435-478 | Tasks are numbered in the order in which events first name them |
| `ReplayTrace.CrossIsTrace` | builtin-sched.c:493-506 | The cross-task wakeups do what a circle of wakeup events at the end of the trace does |
| `ReplayTrace.ProgramFollows` | builtin-sched.c:493-506 | The replayed program, cross-task wakeups included, from the events alone: its semaphores, tasks and atoms |
| `ReplayTrace.FirstWakeupLinks` | builtin-sched.c:398-423 | An example: one wakeup between two new tasks is linked |
| `ReplayTotals.SwitchTotals` | builtin-sched.c:375-433 | A switch adds exactly its delta to the RUN time, merged or not |
| `ReplayTotals.WakeupTotals` | builtin-sched.c:398-423 | A wakeup adds no run time and one to linked + targetless + multi-target |
| `ReplayTotals.ProcessTotals` | builtin-sched.c:799-896 | What each event does to run time, counters and CPU clocks |
| `ReplayTotals.ClockIsLatest` | builtin-sched.c:821-865 | For every trace the clock of a CPU is its largest switch time, because a switch before that is refused |
| `ReplayTotals.LatestIsLast` | builtin-sched.c:821-865 | With times in order that is the CPU's last switch |
| `ReplayTotals.DeltaIs` | builtin-sched.c:840-852 | The delta of a switch is the time since the latest switch of its CPU in the trace |
| `ReplayTotals.SpansStep` | builtin-sched.c:821-865 | A switch stretches the span of its CPU in the trace by the run it ends, and nothing else does |
| `ReplayTotals.RunTimeConserved` | builtin-sched.c:375-396 | For every trace all RUN durations sum to the sum over CPUs of latest minus first switch of the trace |
| `ReplayTotals.WakeupsClassified` | builtin-sched.c:398-423 | Linked + targetless + multi-target wakeups equal the wakeups of the trace |
| `ReplayTotals.ProcessOwner` | builtin-sched.c:799-896 | A switch adds run time only to whoever it switches away from |
| `ReplayTotals.RunTimePerTask` | builtin-sched.c:821-865 | For every trace a task's RUN durations sum to the stretches of the trace between a CPU's latest switch and the switch away from it |
| `ReplayTotals.CrossTotals` | builtin-sched.c:493-506 | The cross-task wakeups are classified one per task and add no run time |
| `ReplayBuilder.Builder.constructor` | builtin-sched.c:435-456 | An empty builder |
| `ReplayBuilder.Builder.AddSchedEventRun` | builtin-sched.c:375-396 | Appends or merges a RUN as the specification says |
| `ReplayBuilder.Builder.AddSchedEventSleep` | builtin-sched.c:425-433 | Appends a SLEEP |
| `ReplayBuilder.Builder.AddSchedEventWakeup` | builtin-sched.c:398-423 | Appends the waker's atom first, then links, or counts a targetless or multi-target wakeup |
| `ReplayBuilder.Builder.RegisterPid` | builtin-sched.c:435-478 | The growing pid table is a map from pids to tasks; a new task starts asleep |
| `ReplayBuilder.Builder.AddCrossTaskWakeups` | builtin-sched.c:493-506 | Each task wakes the next, in a circle |
| `ReplayBuilder.Builder.ReplayWakeupEvent` | builtin-sched.c:800-819 | The wakeup handler refines the specification |
| `ReplayBuilder.Builder.ReplaySwitchEvent` | builtin-sched.c:821-865 | The switch handler refines it, with its return value for a clock that went back |
| `ReplayBuilder.Builder.ReplayForkEvent` | builtin-sched.c:867-896 | The fork handler refines it |
| `ReplayRun.InitInv` | builtin-sched.c:652-681 | The threads start inside the invariant, both mutexes held by the parent |
| `ReplayRun.ParentKeepsTask` | builtin-sched.c:652-734 | A step of the parent keeps every task where its turn allows it to be |
| `ReplayRun.ParentKeepsUsage` | builtin-sched.c:683-734 | What the parent has added is the sum of what the collected tasks measured this round |
| `ReplayRun.ParentKeepsInv` | builtin-sched.c:652-734 | Every step of the parent keeps the whole invariant |
| `ReplayRun.AtomKeepsSem` | builtin-sched.c:508-532 | A semaphore's value is the executions of its WAKEUP minus those of its SLEEP |
| `ReplayRun.TaskKeepsItself` | builtin-sched.c:608-650 | A step of a task keeps it where the parent's turn allows it to be |
| `ReplayRun.TaskKeepsInv` | builtin-sched.c:608-650 | Every step of a task keeps the whole invariant |
| `ReplayRun.ReachableInv` | builtin-sched.c:608-734 | The invariant holds in every state of every interleaving |
| `ReplayRun.BarrierSafe` | builtin-sched.c:608-734 | No task works on a round before every task has finished all earlier ones |
| `ReplayRun.UsageAddedOncePerRound` | builtin-sched.c:683-734 | Each round's total is the sum of what each task measured in it, added once |
| `ReplayRun.SemaphoresBinary` | builtin-sched.c:508-532 | A linked semaphore holds 0 or 1, and 0 whenever the parent is between rounds |
| `ReplayRun.SomeAtomEnabled` | builtin-sched.c:508-532 | The pending atom of lowest rank is never blocked |
| `ReplayRun.ParentTakesFreeMutex` | builtin-sched.c:683-734 | When the parent takes a mutex back nobody holds it |
| `ReplayRun.NeverDeadlocks` | builtin-sched.c:608-734 | In every reachable state of a well-linked program somebody can move until the parent has finished |
| `ReplayRun.StepsTaken` | builtin-sched.c:608-734 | The number of steps made is a function of the state, so every step is progress |
| `ReplayRun.RunsAreBounded` | builtin-sched.c:608-734 | No interleaving is longer than a bound in tasks, atoms and rounds |
| `ReplayRun.RoundsAreExact` | builtin-sched.c:634-637 | At the end of a round the steps made are exactly those of each atom once per round plus the barrier's |
| `ReplayTheorems.ReplayNeverDeadlocks` | builtin-sched.c:347-734 | For every trace, repeat count and interleaving the replay never deadlocks |
| `ReplayTheorems.ReplayTerminates` | builtin-sched.c:347-734 | For every trace every interleaving ends |
| `ReplayTheorems.ReplayRepeatsFromZero` | builtin-sched.c:3276-3277 | For every trace all semaphores are 0 before each repeat, so each starts from the same state |
| `TopQueues.ReaderKeepsProtocol` | builtin-top.c:835-868 | Each step of the reader keeps the swap protocol |
| `TopQueues.FlusherKeepsProtocol` | builtin-top.c:1042-1078 | Each step of the flusher keeps it |
| `TopQueues.ReaderConserves` | builtin-top.c:835-868 | Queueing puts an event in exactly one queue |
| `TopQueues.FlusherConserves` | builtin-top.c:1054-1078 | Delivery takes it out of exactly one |
| `TopQueues.RunInv` | builtin-top.c:1042-1078 | Protocol and conservation hold in every interleaving |
| `TopQueues.QueuesNotShared` | builtin-top.c:1042-1078 | The flusher never delivers from the queue the reader is adding to |
| `TopQueues.EventsConserved` | builtin-top.c:835-868 | Every queued event is in queue 0, queue 1 or delivered, as often as it was queued |
| `TopQueues.SignalNeverMissed` | builtin-top.c:859-864 | The reader signals only while the flusher waits, and the signal wakes it |
| `TopQueues.NoDeadlock` | builtin-top.c:835-868 | Whoever is blocked on the mutex waits for one that can move |
| `TopQueues.AckApproaches` | builtin-top.c:835-868 | While the flusher sleeps each step of the reader brings the signal nearer |
| `TopQueues.AckBounded` | builtin-top.c:1042-1052 | One more queued event is enough: within seven successful steps of the reader a sleeping flusher is woken |
| `TopQueues.RunAfter` | builtin-top.c:835-868 | What follows a run is the moves after its last state |
| `TopQueues.AsleepMeans` | builtin-top.c:835-868 | While the flusher sleeps the reader has queued an event if and only if it is acknowledging the swap |
| `TopQueues.WokenByTraffic` | builtin-top.c:1042-1052 | Whoever moves, a flusher waiting for an idle reader sleeps on until an event is queued |
| `TopQueues.WokenExactly` | builtin-top.c:1042-1052 | From every reachable state, over every interleaving from idle reader to idle reader, a sleeping flusher sleeps on if and only if no event is queued |
| `TopQueues.AsleepReached` | builtin-top.c:1042-1052 | A run from the start in which the flusher sleeps while the reader is idle |
| `TopQueues.EventQueued` | builtin-top.c:847-857 | What the reader meets is what it queues, behind all that was in the queue it saw, whatever the flusher does meanwhile |
| `TopQueues.NeverTakesEmpty` | builtin-top.c:1054-1066 | In every run the flusher takes only a queue with events, and they are still there when the flush begins |
| `TopQueues.FlushAdvances` | builtin-top.c:1073 | Each successful move of a flushing flusher delivers the next event of its queue, whatever the reader does |
| `TopQueues.FlushDelivers` | builtin-top.c:1073 | From every reachable state, over every interleaving with enough successful flusher moves, the queue that is flushed becomes empty with exactly its events delivered, in order |
| `TopQueues.FlushEnds` | builtin-top.c:1073-1075 | The flusher leaves a flush if and only if the queue is empty or a delivery fails |
| `TopQueues.DeliveredInOrder` | builtin-top.c:1042-1078 | In every run without a failed delivery, what is delivered, taken out and still queued is, in this order, what was queued |
| `KmemPages.AllocKeepsInv` | builtin-kmem.c:781-852 | An allocation keeps: every table covers the live pages and each entry counts exactly those it covers |
| `KmemPages.FreeKeepsInv` | builtin-kmem.c:854-921 | A free keeps it |
| `KmemPages.FreeSucceeds` | builtin-kmem.c:854-921 | In any reachable state a legal free returns 0 |
| `KmemPages.TableAlloc` | builtin-kmem.c:781-852 | An entry found or made for a new live page counts one page and its bytes more |
| `KmemPages.TableFree` | builtin-kmem.c:854-921 | The entry of a freed page counts one less and may vanish at zero |
| `KmemPages.AllocLive` | builtin-kmem.c:781-852 | After a legal allocation the live table is that of the trace with the page added, unless it failed |
| `KmemPages.FreeLive` | builtin-kmem.c:854-921 | After a free, whatever it returns, it is that of the trace without the page |
| `KmemPages.AllocTracked` | builtin-kmem.c:781-852 | A live page allocated again keeps its order, type and flags and takes the new call site |
| `KmemPages.FreeTracked` | builtin-kmem.c:854-921 | A free takes its page out of the live table, whatever it returns and with whatever order |
| `KmemPages.Run` | builtin-kmem.c:781-921 | After every trace of well-formed events the live table has exactly the pages the trace leaves live, under their own keys |
| `KmemPages.LegalInv` | builtin-kmem.c:781-921 | After every legal trace the invariant holds and the live table is exactly what the trace allocated and did not free |
| `KmemPages.FreeNeverFails` | builtin-kmem.c:854-921 | After every legal trace a free that is legal by the trace returns 0 |
| `KmemPages.LiveCallersExact` | builtin-kmem.c:854-921 | In live mode a call site is listed if and only if the trace leaves it live pages, with their number and bytes |
| `KmemPages.LiveOrdersExact` | builtin-kmem.c:781-921 | In live mode order_stats counts the pages the trace leaves live per order and type |
| `KmemPages.PagesConserved` | builtin-kmem.c:781-921 | Allocated minus failed minus matched frees is what the trace leaves live, in pages and bytes |
| `KmemPages.KeysFromTrace` | builtin-kmem.c:781-921 | Outside live mode, after every trace, both tables list exactly the keys ever allocated |
| `KmemPages.CallersCounted` | builtin-kmem.c:854-921 | In live mode, after every trace, a caller entry counts the allocations with its key less the frees counted against it, and is listed if and only if that is positive |
| `KmemPages.LegalCount` | builtin-kmem.c:854-921 | After a legal trace this is the number of pages with the key that the trace leaves live |
| `KmemPages.CallerListedIs` | builtin-kmem.c:541-594 | After every trace a caller entry is listed if and only if its count is positive, or outside live mode if any page ever had its key |
| `KmemPages.FreeFailsExactly` | builtin-kmem.c:854-921 | After every trace any free returns 0 if and only if its page is not live or the entries with the order of the free are listed, else -ENOMEM or -ENOENT by the one missing |
| `KmemPages.BytesAre` | builtin-kmem.c:789 | The bytes of an order are the page size times 2 to that order |
| `KmemPages.TotalsCounted` | builtin-kmem.c:781-921 | For every trace each of the eight totals is the count, or the bytes, of its own events |
| `KmemPages.EntriesCounted` | builtin-kmem.c:781-921 | Outside live mode, after every trace, an entry of either table has in nr_alloc and alloc_bytes the successful allocations with its key, in nr_free and free_bytes the frees found under it |
| `KmemPages.LiveEntriesCounted` | builtin-kmem.c:903-918 | In live mode, after every trace, a caller entry has the four numbers of what is left of its key, starting over when nothing is left |
| `KmemPages.OrdersCounted` | builtin-kmem.c:781-921 | After every trace order_stats has the allocations of each order and type, less in live mode the live pages freed with that order |
| `KmemPages.SitesShown` | builtin-kmem.c:820-838 | An alloc entry shows the call site of the last allocation with its key |
| `KmemPages.MismatchedOrderFails` | builtin-kmem.c:854-921 | An example: one page, freed with another order, fails in both modes |
| `KmemPages.MismatchedOrderPassesLive` | builtin-kmem.c:854-921 | A trace in live mode: the mismatched free passes because of another live page of the call site, whose own legal free then fails |
| `KmemPages.MismatchedOrderPassesOnce` | builtin-kmem.c:854-921 | A trace outside live mode: it passes because of an earlier allocation |
| `KmemPages.DoubleAllocation` | builtin-kmem.c:854-921 | A trace with a double allocation whose free, of the right order, returns -ENOENT |
| `KmemPages.MismatchFailsLater` | builtin-kmem.c:854-921 | After every trace in live mode: of two live pages that free against a key counted once, the first to be freed passes and the other returns -ENOENT |
| `KmemPageTrees.SignedOrders` | builtin-kmem.c:437-474 | Within a window of 2^63, also one that wraps around, the signed difference orders pages by their place in it |
| `KmemPageTrees.SignedExact` | builtin-kmem.c:437-474 | For two 64-bit pages a and b it agrees with the numbers if and only if -2^63 <= a - b < 2^63 |
| `KmemPageTrees.NumericExactly` | builtin-kmem.c:437-474 | On a set of pages it does so if and only if all differ by less than 2^63 |
| `KmemPageTrees.TotalExactly` | builtin-kmem.c:437-474 | It is a strict total order on a set of pages if and only if one window of 2^63 holds them all |
| `KmemPageTrees.SignedCycle` | builtin-kmem.c:437-474 | Three pages in no such window that each come before the next |
| `KmemPageTrees.AllocTransitive` | builtin-kmem.c:1515-1635 | The key comparison of the alloc tree is a strict order whose ties are equal keys |
| `KmemPageTrees.CallerTransitive` | builtin-kmem.c:1515-1635 | So is that of the caller tree |
| `KmemPageTrees.FindNewPage` | builtin-kmem.c:437-484 | Search or insertion in the live tree, of any shape, is lookup or insertion in the map of pages |
| `KmemPageTrees.FindNewAlloc` | builtin-kmem.c:486-539 | The same for the alloc tree |
| `KmemPageTrees.FindNewCaller` | builtin-kmem.c:541-594 | The same for the caller tree |
| `KmemPageTrees.CountLive` | builtin-kmem.c:781-852 | The live entry of an allocation is found or made and counted |
| `KmemPageTrees.CountAlloc` | builtin-kmem.c:781-852 | So is its alloc entry |
| `KmemPageTrees.CountCaller` | builtin-kmem.c:781-852 | So is its caller entry |
| `KmemPageTrees.TakeLive` | builtin-kmem.c:854-921 | A page is taken out of the live tree and only it |
| `KmemPageTrees.FreeAlloc` | builtin-kmem.c:854-921 | The alloc entry of a freed page is found if and only if it is there |
| `KmemPageTrees.FreeCallerNode` | builtin-kmem.c:854-921 | The caller entry counts down and leaves the tree at zero in live mode |
| `KmemPageTrees.PageTracker.constructor` | builtin-kmem.c:437-594 | Empty trees and counters |
| `KmemPageTrees.PageTracker.RecordPage` | builtin-kmem.c:781-852 | The handler's work on a valid page refines the map model |
| `KmemPageTrees.PageTracker.ProcessPageAllocEvent` | builtin-kmem.c:781-852 | The allocation handler refines the map model, failed allocations included |
| `KmemPageTrees.PageTracker.ForgetPage` | builtin-kmem.c:854-921 | The second half of a free refines it, with its error returns |
| `KmemPageTrees.PageTracker.TakePage` | builtin-kmem.c:854-890 | The page of a free leaves the live tree, and is found if and only if it is live |
| `KmemPageTrees.PageTracker.ProcessPageFreeEvent` | builtin-kmem.c:854-921 | The free handler refines it, unmatched frees included |
| `KmemSlab.AllocKeepsInv` | builtin-kmem.c:81-185 | An allocation adds the same to both trees and the totals |
| `KmemSlab.FreeKeepsInv` | builtin-kmem.c:231-256 | A free keeps the trees in step and always finds the caller of a known pointer |
| `KmemSlab.TreesAgree` | builtin-kmem.c:81-256 | For every trace hits, requested and allocated bytes of both trees equal the totals, and their ping-pongs agree |
| `KmemSlab.FreeNeverFails` | builtin-kmem.c:231-256 | For every trace the caller lookup on free never fails |
| `KmemSlab.LastAllocs` | builtin-kmem.c:81-256 | For every trace the pointer tree has exactly the pointers ever allocated, each with the bytes of its last allocation in last_alloc |
| `KmemSlab.LiveTree` | builtin-kmem.c:81-256 | last_alloc of the pointers live by the trace is what they hold |
| `KmemSlab.BytesAccounted` | builtin-kmem.c:81-256 | For every trace allocated minus freed bytes is what the pointers live by the trace hold, by their last allocations, plus the bytes of live pointers allocated again, less those of repeated frees |
| `KmemSlab.BytesInUse` | builtin-kmem.c:81-256 | The totals agree with what is held by the trace if and only if that drift is 0, and it is when each pointer alternates |
| `KmemSlab.DoubleFreeOvercounts` | builtin-kmem.c:231-256 | A double free is counted twice |
| `KmemSlab.PointersTold` | builtin-kmem.c:81-256 | For every trace, hits, bytes, call site, CPU and ping-pongs of each pointer from its events: a free is a ping-pong if and only if its CPU is not that of the allocation in 16 bits, or it is repeated |
| `KmemSlab.SitesTold` | builtin-kmem.c:126-256 | So are hits, bytes and ping-pongs of each call site |
| `KmemSlab.TotalsTold` | builtin-kmem.c:168-256 | And each of the five totals |
| `KmemSlab.SlabTracker.constructor` | builtin-kmem.c:81-166 | Empty trees and totals |
| `KmemSlab.SlabTracker.InsertAllocStat` | builtin-kmem.c:81-124 | The pointer tree after an allocation |
| `KmemSlab.SlabTracker.InsertCallerStat` | builtin-kmem.c:126-166 | The call-site tree after an allocation |
| `KmemSlab.SlabTracker.ProcessAllocEvent` | builtin-kmem.c:168-201 | The allocation handlers refine the model |
| `KmemSlab.SlabTracker.BounceCaller` | builtin-kmem.c:231-256 | A ping-pong is counted in the entry of its call site, if there is one |
| `KmemSlab.SlabTracker.ProcessFreeEvent` | builtin-kmem.c:231-256 | The free handler refines it |
| `LockStats.HandleBalances` | builtin-lock.c:399-646 | Each transition balances contended counts and holds, including holds dropped by an early free |
| `LockStats.HandleWaits` | builtin-lock.c:471-587 | Waiting times change only when a contended sequence is granted, and the average follows |
| `LockStats.OtherLockUnmoved` | builtin-lock.c:399-646 | An event leaves the numbers of other locks true |
| `LockStats.SameLockMoves` | builtin-lock.c:399-646 | And moves contended count and holds of its own lock in step with the sequences |
| `LockStats.SameLockWaits` | builtin-lock.c:471-532 | Total, minimum, maximum and average stay those of the waits the sequences had, the total being 64 bits wide |
| `LockStats.StepKeepsSequences` | builtin-lock.c:399-646 | No sequence ever reaches RELEASED and no read count goes negative |
| `LockStats.DiscardedFrozen` | builtin-lock.c:399-646 | A discarded lock never changes again |
| `LockStats.StateNumbers` | builtin-lock.c:399-646 | For every run the numbers of a lock not discarded are those of its sequences and of the waits these had |
| `LockStats.AverageBelowMax` | builtin-lock.c:471-587 | The average wait never exceeds the maximum |
| `LockTrace.HandleFits` | builtin-lock.c:399-646 | Each handler keeps a sequence that says what the last three events of the pair and its trailing read acquires say |
| `LockTrace.StepAgrees` | builtin-lock.c:399-646 | Every event keeps all sequences and discards in agreement with the trace |
| `LockTrace.RunAgrees` | builtin-lock.c:399-646 | For every trace: the BUG_ON is hit if and only if a release follows that of a lone reader, a lock is discarded if and only if some event on it did not fit, and until then every sequence has the phase, read count and time the trace gives it |
| `LockTrace.CrashExactly` | builtin-lock.c:620-627 | The next event hits the BUG_ON if and only if it is such a release on a lock not discarded |
| `LockTrace.AcquireDiscardsExactly` | builtin-lock.c:399-469 | An acquire discards its lock if and only if the thread holds or awaits it by the trace, unless both are reads |
| `LockTrace.LoneReader` | builtin-lock.c:620-627 | A thread that took a lock for reading and released it still stands as a reader |
| `LockTrace.ReleasedTwice` | builtin-lock.c:620-627 | A read acquire and two releases of one pair hit the BUG_ON |
| `LockTrace.ReleasedThenAcquired` | builtin-lock.c:399-469 | A read acquire, a release and a plain or try acquire discard the lock |
| `LockTrace.HandledIs` | builtin-lock.c:471-532 | The waits that were added are those from contended to acquired events of the trace, and the dropped holds those of its releases |
| `LockTrace.LockNumbers` | builtin-lock.c:399-646 | For every run and lock not discarded: contended = waits completed in the trace + sequences now contended; wait total, minimum, maximum and average are those of these waits; acquired minus released = holds in live sequences + read holds dropped in the trace |
| `LockTrace.CountsTold` | builtin-lock.c:399-646 | For every run without a crash nr_acquire, nr_acquired, nr_contended, nr_release, nr_readlock and nr_trylock of each lock are the counts of its events in the trace, up to the one that spoils it |
| `LockTrace.BadTold` | builtin-lock.c:441-637 | bad_hist counts the events that spoiled a lock, by kind |
| `LockReport.FindSeq` | builtin-lock.c:363-382 | The list walk finds the first sequence of the lock, or none |
| `LockReport.CountWait` | builtin-lock.c:502-508 | A completed wait goes into total, minimum and maximum |
| `LockReport.CountGrant` | builtin-lock.c:525-530 | A grant is counted and the average follows |
| `LockReport.Report.constructor` | builtin-lock.c:317-347 | No locks, threads or broken sequences |
| `LockReport.Report.GetSeq` | builtin-lock.c:363-382 | Finds the sequence of a thread and lock or makes one at the head of the list |
| `LockReport.Report.StoreSeq` | builtin-lock.c:399-646 | Changing a sequence in its list changes that entry and no other |
| `LockReport.Report.DeleteSeq` | builtin-lock.c:399-646 | Deleting it removes that entry and no other |
| `LockReport.Report.Discard` | builtin-lock.c:399-646 | A broken sequence discards its lock, is counted and goes away |
| `LockReport.Report.Lookup` | builtin-lock.c:399-646 | A discarded lock is skipped, otherwise lock and sequence are found |
| `LockReport.Report.ReportLockAcquireEvent` | builtin-lock.c:399-469 | The acquire handler refines the state machine |
| `LockReport.Report.ReportLockAcquiredEvent` | builtin-lock.c:471-532 | The acquired handler refines it |
| `LockReport.Report.ReportLockContendedEvent` | builtin-lock.c:534-587 | The contended handler refines it |
| `LockReport.Report.ReportLockReleaseEvent` | builtin-lock.c:589-646 | The release handler refines it, and reports when the BUG_ON fires |
| `Latency.ReadsBeyond` | builtin-sched.c:1020-1025 | The character of a previous state is read beyond the string if and only if the state is above 11 |
| `Latency.SchedOutOk` | builtin-sched.c:1028-1047 | A new atom keeps count, sums, maximum and times right |
| `Latency.RuntimeOk` | builtin-sched.c:1050-1061 | So does added run time |
| `Latency.SchedInOk` | builtin-sched.c:1064-1092 | So does a schedule-in, late or early |
| `Latency.WakeupOk` | builtin-sched.c:1232-1250 | So does a wakeup, in order or not |
| `Latency.StepKeeps` | builtin-sched.c:1094-1258 | Every event keeps every thread's numbers, and no handler finds an empty list |
| `Latency.Run` | builtin-sched.c:1094-1258 | All this holds after every trace, in any order |
| `Latency.LatencyNumbers` | builtin-sched.c:1027-1092 | nb_atoms, total_lat, max_lat and total_runtime are count, sum, reached maximum and run-time sum over the atoms; a SCHED_IN atom has out <= wake-up <= in |
| `Latency.OnlyLastChanges` | builtin-sched.c:1094-1258 | An event changes at most the last atom of a list, and never the times of one whose wait is over |
| `Latency.StepRuntime` | builtin-sched.c:1164-1197 | Only a runtime event adds run time, to its thread |
| `Latency.RuntimeConserved` | builtin-sched.c:1164-1197 | A thread's total run time is the sum of the run times reported for it |
| `Latency.StepFrom` | builtin-sched.c:1094-1258 | An event gives an atom no times but its own, and only a switch away from a thread adds an atom to its list once it has one |
| `Latency.AtomsComeFromTrace` | builtin-sched.c:1094-1258 | Every atom but a thread's first begins at a switch away from the thread, the first at some event about it; wake-up and in times are those of events that made it runnable and brought it in |
| `Latency.LastSwitchedIs` | builtin-sched.c:1110-1120 | cpu_last_switched has the time of the last switch of the CPU, refused ones included |
| `Latency.StepAtoms` | builtin-sched.c:1094-1258 | A refused switch changes no list; any other event makes known the threads it names and adds an atom for a switch away or a first sight |
| `Latency.AtomsCounted` | builtin-sched.c:1094-1258 | For every trace a thread is known if and only if an accepted event names it, and it has one atom per accepted switch away from it, plus one if it was first heard of otherwise |
| `LatencyTrace.NowIs` | builtin-sched.c:1027-1258 | What an event does to the last atom of a thread, as the trace has it |
| `LatencyTrace.AtomsTold` | builtin-sched.c:1027-1258 | For every trace and thread each atom from the events: runnable from the preemption or the first wakeup not before the switch-out, SCHED_IN if and only if the next accepted switch to the thread is not before that, else IGNORED; with all its times and its run time |
| `LatencyTrace.FiguresTold` | builtin-sched.c:1064-1092 | nb_atoms, total_lat, max_lat and max_lat_at are count, sum, maximum and first time of the maximum over the waits that the trace ends |
| `LatencyTrace.StampsTold` | builtin-sched.c:1241-1250 | nr_timestamps counts the wakeups that find their thread asleep, nr_unordered_timestamps those older than its sleep |
| `LatencyTrace.OneLatency` | builtin-sched.c:1064-1092 | An example: out at 10, woken at 20, in at 30 |
| `LatencyTool.LatencySched.constructor` | builtin-sched.c:1006-1018 | No threads |
| `LatencyTool.LatencySched.ThreadAtomsSearch` | builtin-sched.c:953-976 | The walk finds a thread if and only if it is in the tree |
| `LatencyTool.LatencySched.ThreadAtomsInsert` | builtin-sched.c:979-1018 | The insertion keeps the tree ordered and adds just that thread |
| `LatencyTool.LatencySched.FindNewAtoms` | builtin-sched.c:1127-1137 | After an insertion the second search cannot fail |
| `LatencyTool.LatencySched.Put` | builtin-sched.c:1064-1092 | Changing a node in place changes that thread only |
| `LatencyTool.LatencySched.Start` | builtin-sched.c:1140-1155 | A thread not heard of yet gets a first atom |
| `LatencyTool.LatencySched.SwitchOut` | builtin-sched.c:1127-1138 | The outgoing half of a switch refines the model |
| `LatencyTool.LatencySched.SwitchIn` | builtin-sched.c:1140-1156 | The incoming half refines it |
| `LatencyTool.LatencySched.SwitchEvent` | builtin-sched.c:1094-1162 | The switch handler refines it, and fails exactly when the CPU's clock went back |
| `LatencyTool.LatencySched.RuntimeEvent` | builtin-sched.c:1164-1197 | The runtime handler refines it |
| `LatencyTool.LatencySched.WakeupEvent` | builtin-sched.c:1199-1258 | The wakeup handler refines it |
| `LatencyMerge.StrcmpSigns` | builtin-sched.c:3090 | The name comparison is 0 only for equal names and antisymmetric |
| `LatencyMerge.StrcmpTransitive` | builtin-sched.c:3090 | And transitive |
| `LatencyMerge.MergeSums` | builtin-sched.c:3076-3129 | There is an entry for a command if and only if a thread has that name, and it holds the sum over those threads |
| `LatencyMerge.MergeTotals` | builtin-sched.c:3076-3129 | Over all commands run time, atom count, latency and merge count are conserved |
| `LatencyMerge.ThreadsCountedOnce` | builtin-sched.c:3076-3129 | num_merged sums to the number of threads |
| `LatencyMerge.MergeMax` | builtin-sched.c:3076-3129 | An entry's maximum and its time are those of one of its threads, and no thread's is larger |
| `LatencyMerge.MergedAtoms` | builtin-sched.c:3095-3107 | An entry has the atoms of its threads, those of the last one first |
| `LatencyMerge.MergeIntoOk` | builtin-sched.c:3095-3107 | After a splice the numbers still fit the joined list of atoms |
| `LatencyMerge.MergedOk` | builtin-sched.c:3076-3129 | So they do in every entry of the merged tree |
| `LatencyTotals.RunUnmerged` | builtin-sched.c:1094-1258 | No handler touches num_merged |
| `LatencyTotals.ThreadRuntimes` | builtin-sched.c:1164-1197 | The run times of the threads of a command sum to what the trace reports for them |
| `LatencyTotals.MergedRuntime` | builtin-sched.c:3076-3129 | For every trace and tree of its threads the merged report has an entry for a command if and only if an accepted event names a thread of it, and its run time is the sum of the runtime events of those threads |
| `LatencySort.ThreadLatCmp` | builtin-sched.c:936-950 | The first key that tells two entries apart decides |
| `LatencySort.AvgAntisymmetric` | builtin-sched.c:1357-1376 | The average comparison is antisymmetric if and only if one of the entries has an atom |
| `LatencySort.ComparedByRanks` | builtin-sched.c:936-950 | An entry goes left of another if and only if its values are lexicographically above, where nothing follows the average of no atoms |
| `LatencySort.AboveWeak` | builtin-sched.c:979-1004 | That order is a weak order, so insertion positions are consistent |
| `LatencySort.SortedByComparison` | builtin-sched.c:979-1004 | Descending order is the same as no later entry comparing above an earlier one |
| `LatencySort.RuntimeNotConsulted` | builtin-sched.c:1357-1376 | Two entries without atoms compare below each other whatever their run times |
| `LatencySort.InsertKeepsSorted` | builtin-sched.c:979-1004 | An entry put behind all it is not above keeps the order |
| `LatencySort.ThreadLatencyInsert` | builtin-sched.c:979-1004 | The tree insertion adds one entry behind its equals and keeps the order |
| `LatencyReport.EmptyInto` | builtin-sched.c:1454-1464 | Emptying a tree into the sorted one gives a sorted permutation |
| `LatencyReport.Report.constructor` | builtin-sched.c:3131-3143 | The trees before the report |
| `LatencyReport.Report.MergeWorkAtoms` | builtin-sched.c:3076-3114 | One thread is merged into the entry of its command, or becomes it |
| `LatencyReport.Report.MergeLat` | builtin-sched.c:3116-3129 | Afterwards the merged tree has one entry per command, unless merging is skipped |
| `LatencyReport.Report.SortLat` | builtin-sched.c:1450-1469 | The report is a permutation of both trees' entries in descending order |
| `Timehist.ChargeIsOverlap` | builtin-sched.c:2539-2567 | A switch charges exactly the part of its CPU's last stretch inside the window |
| `Timehist.FirstChargesNothing` | builtin-sched.c:2539-2567 | The first switch of a CPU charges nothing |
| `Timehist.SpansAreSeen` | builtin-sched.c:2605-2622 | What the tool remembers of a CPU is its last switch |
| `Timehist.ChargedPerCpu` | builtin-sched.c:2539-2567 | Each CPU charges the overlap of its first to last switch with the window |
| `Timehist.RunTimeConserved` | builtin-sched.c:2539-2622 | The run time of all threads is the sum of those overlaps over all CPUs |
| `TimehistTimeline.TimesRemembered` | builtin-sched.c:2605-2622 | Each thread's and CPU's remembered time is that of its last switch in the trace |
| `TimehistTimeline.SwitchAccounts` | builtin-sched.c:2081-2120 | What one switch adds to run, sleep, iowait and preempt together |
| `TimehistTimeline.TimelineBalances` | builtin-sched.c:2081-2120 | For every trace the totals of a thread are last switch-out minus origin minus an explicit list of stretches missed or counted twice |
| `TimehistTimeline.NothingMissed` | builtin-sched.c:2539-2625 | A well-formed trace has no such stretch |
| `TimehistTimeline.TimelinePartitioned` | builtin-sched.c:2081-2120 | In a well-formed trace the totals partition the thread's timeline exactly |
| `TimehistTimeline.OriginIs` | builtin-sched.c:2088-2096 | The timeline begins with the first accounted run if the CPU was seen before, else at the first switch-out |
| `TimehistTimeline.PartitionedFromFirstRun` | builtin-sched.c:2081-2120 | The totals count from the first accounted run if and only if it was the first one or followed it at once |
| `TimehistTimeline.FirstRunUnseen` | builtin-sched.c:2081-2120 | A well-formed trace that shows it, for a thread of another process id |
| `TimehistTimeline.ReadyAfterOut` | builtin-sched.c:2389-2410 | A pending wakeup is younger than the switch-out before it |
| `TimehistTimeline.DelayWithinWait` | builtin-sched.c:2094-2112 | After the first switch-out the delay never exceeds the wait |
| `TimehistTotals.StateRemembered` | builtin-sched.c:2608-2618 | A thread's remembered state and wakeup are those since its last switch-out |
| `TimehistTotals.AccountIsStretch` | builtin-sched.c:2081-2120 | A switch adds its run, its delay, and its wait to the one total its last state calls for |
| `TimehistTotals.TotalsAre` | builtin-sched.c:2081-2120 | For every window and trace run, preempt, iowait, sleep and delay totals and the run count of a thread are the sums over its counted switches of what the trace says; whose switch it is, what counts and where it is clipped are read off the fields of the events |
| `TimehistTotals.WaitsUnclipped` | builtin-sched.c:2539-2567 | The wait totals are the waits inside the window plus what reaches back before it, which is nothing if and only if no counted wait began before the window |
| `TimehistTotals.WaitReachesBack` | builtin-sched.c:2539-2567 | A trace whose wait of 10 lies half before the window and is counted whole |
| `TimehistTotals.RunInside` | builtin-sched.c:2539-2567 | A counted run lies in the window |
| `TimehistTotals.LastShown` | builtin-sched.c:2081-2120 | The numbers shown for a counted switch are those of the stretch it stands for |
| `TimehistTotals.HistoryCovers` | builtin-sched.c:2605-2609 | The reported history begins with the first switch time not before the window and ends with the last one not after it |
| `TimehistTool.RoundUpPowerOfTwo` | builtin-sched.c:1864-1865 | The smallest power of two that is large enough |
| `TimehistTool.LastTimes.constructor` | builtin-sched.c:1856-1880 | All times are 0 |
| `TimehistTool.LastTimes.SaveTime` | builtin-sched.c:1856-1880 | The growable array is a total map: one entry changes, all others keep their value or 0 |
| `TimehistTool.LastTimes.GetTime` | builtin-sched.c:1883-1891 | Reads that map, 0 beyond the array |
| `TimehistTool.UpdateRuntimeStats` | builtin-sched.c:2081-2120 | The accounting of one switch refines the model |
| `TimehistTool.TimehistState.constructor` | builtin-sched.c:2501-2530 | Nothing seen yet |
| `TimehistTool.TimehistState.AccountSample` | builtin-sched.c:2539-2572 | The window is applied as the model says, both early exits included |
| `TimehistTool.TimehistState.SwitchedOut` | builtin-sched.c:2602-2618 | What every sample leaves behind, counted or not |
| `TimehistTool.TimehistState.SchedChangeEvent` | builtin-sched.c:2501-2625 | The switch handler refines the model |
| `TimehistTool.TimehistState.SchedWakeupEvent` | builtin-sched.c:2389-2418 | The wakeup handler refines it |
| `TimechartIoTotals.BeginKeeps` | builtin-timechart.c:724-767 | Beginning a call changes no sums, even when it drops an open one |
| `TimechartIoTotals.EndKeeps` | builtin-timechart.c:769-845 | Ending a call counts it once and its bytes once, stretched, moved apart or merged |
| `TimechartIoTotals.JoinedKeeps` | builtin-timechart.c:824-840 | A merged sample stands for all its calls and bytes |
| `TimechartIoTotals.NameKeeps` | builtin-timechart.c:222-246 | Naming a process changes no sums |
| `TimechartIoTotals.StepKeeps` | builtin-timechart.c:724-845 | Every event keeps all sums |
| `TimechartIoTotals.SamplesAddUp` | builtin-timechart.c:724-845 | In every run only the newest sample is open, bytes add up from samples to comm to process, none exceeds max_bytes, failed calls have none, and merges + 1 over closed samples sum to io_events |
| `TimechartIoTrace.MergeableIs` | builtin-timechart.c:826-831 | A call is merged if and only if the last call of its comm was of the same kind, file and result sign or error, and is drawn to within merge_dist of it |
| `TimechartIoTrace.EndShows` | builtin-timechart.c:766-845 | Ending a call keeps the samples showing the calls: one for each largest group that goes together, with its bytes, its number of merges and the interval it is drawn in |
| `TimechartIoTrace.NamedIs` | builtin-timechart.c:222-246 | A process goes on with the comm of the new name, names its nameless one, or adds one |
| `TimechartIoTrace.RunShows` | builtin-timechart.c:724-845 | For every run, from the events alone: the comms of each process with their samples, total and maximum bytes and first time; bytes are those that reads, writes, sends and receives returned |
| `TimechartIoTrace.OneSampleEach` | builtin-timechart.c:826-840 | Calls that all go together are one sample with all their bytes |
| `TimechartIoIntervals.ApartOrderly` | builtin-timechart.c:796-840 | A call that overlaps nothing is appended or merged in order |
| `TimechartIoIntervals.AfterErrorOrderly` | builtin-timechart.c:804-809 | A call that overlaps a failed one follows it in order |
| `TimechartIoIntervals.AfterSuccessOrderly` | builtin-timechart.c:804-809 | A call that overlaps a successful one keeps the order if and only if it does not clash |
| `TimechartIoIntervals.EndOrderly` | builtin-timechart.c:769-845 | Ending a call keeps the intervals well formed, ordered and disjoint if and only if it does not clash |
| `TimechartIoIntervals.StepOrderly` | builtin-timechart.c:724-845 | An event leads from an orderly chart to an orderly one if and only if it does not clash |
| `TimechartIoIntervals.OrderlyUnlessClash` | builtin-timechart.c:724-845 | For every ordered trace the chart is orderly throughout if and only if no call clashes |
| `TimechartIoIntervals.NoFailuresNeverClash` | builtin-timechart.c:769-845 | Without a failing call nothing clashes |
| `TimechartIoIntervals.NoFailuresOrderly` | builtin-timechart.c:724-845 | When no call fails all closed intervals are well formed, ordered and disjoint |
| `TimechartIoIntervals.FailureBreaksOrder` | builtin-timechart.c:804-809 | After a failed call a sample can end before it starts |
| `TimechartIoTool.CloseSample` | builtin-timechart.c:794-840 | The steps of closing a sample refine the model |
| `TimechartIoTool.StartSample` | builtin-timechart.c:740-764 | The steps of beginning one refine it |
| `TimechartIoTool.FindByName` | builtin-timechart.c:228-239 | The first comm from the head with that name, or without one |
| `TimechartIoTool.Timechart.constructor` | builtin-timechart.c:205-220 | No processes |
| `TimechartIoTool.Timechart.FindCreatePid` | builtin-timechart.c:205-220 | Finds the process or makes it, and changes no other |
| `TimechartIoTool.Timechart.Put` | builtin-timechart.c:724-845 | Changing a process in place changes only that one |
| `TimechartIoTool.Timechart.PidSetComm` | builtin-timechart.c:222-246 | Naming a process refines the model |
| `TimechartIoTool.Timechart.PidBeginIoSample` | builtin-timechart.c:724-767 | The begin handler refines it |
| `TimechartIoTool.Timechart.PidEndIoSample` | builtin-timechart.c:769-845 | The end handler refines it, with its error for a process without a comm |
| `TimechartPower.TimesSeen` | builtin-timechart.c:566-571 | first_time and last_time are those of the first and last sample |
| `TimechartPower.TimesBound` | builtin-timechart.c:566-571 | In any order of samples they are the earliest and the latest time |
| `TimechartPower.StepRecords` | builtin-timechart.c:376-410 | An accepted change closes one interval of its CPU; a rejected frequency and all else close none |
| `TimechartPower.RunTracks` | builtin-timechart.c:376-410 | The closed intervals of a CPU are those between its accepted changes |
| `TimechartPower.ClosedOfCpu` | builtin-timechart.c:682-722 | The final loop closes one interval of every CPU up to numcpus |
| `TimechartPower.DrawnIs` | builtin-timechart.c:682-722 | The intervals drawn are exactly one up to each accepted change and one to the end |
| `TimechartPower.PStatesTile` | builtin-timechart.c:376-722 | They tile the trace from first_time to last_time without gap or overlap |
| `TimechartPower.FrequencyInForce` | builtin-timechart.c:376-410 | Each interval has the frequency set at its start, except that a final 0 is drawn as min_freq |
| `TimechartPower.RunExtremes` | builtin-timechart.c:402-406 | For every trace min_freq and max_freq follow the frequencies accepted on all CPUs |
| `TimechartPower.LowestExactly` | builtin-timechart.c:402-406 | max_freq is the highest accepted frequency; min_freq is the lowest if and only if none is 0 or the last one is, and is 0 if and only if there is none or the last one is 0 |
| `TimechartPower.ZeroDrawnHigh` | builtin-timechart.c:402-719 | A trace in which an interval left open at 0 is drawn with a frequency set later on another CPU |
| `TimechartPower.TurboTold` | builtin-timechart.c:402-409 | turbo_frequency is the highest frequency at the last time one 1000 below it was accepted |
| `TimechartPower.RunIdle` | builtin-timechart.c:353-374 | The idle intervals of a CPU are one for each exit, from the last entry and with its state |
| `TimechartPower.IdleDrawn` | builtin-timechart.c:682-722 | The final loop leaves them as they are |
| `TimechartPowerTool.PowerChart.constructor` | builtin-timechart.c:314-317 | All arrays are 0 |
| `TimechartPowerTool.PowerChart.ChangePState` | builtin-timechart.c:376-410 | A frequency change refines the model |
| `TimechartPowerTool.PowerChart.ProcessSampleEvent` | builtin-timechart.c:558-609 | A sample refines it |
| `TimechartPowerTool.PowerChart.EndSampleProcessing` | builtin-timechart.c:682-722 | The final loop refines it |
| `TaskForest.HangKeeps` | builtin-report.c:702-703 | A task hung under its parent is in exactly that list |
| `TaskForest.LinkKeeps` | builtin-report.c:685-705 | Following a chain of parents ends even in a circle, lists every task on the way and fails only at an unknown parent |
| `TaskForest.LinkFromKeeps` | builtin-report.c:787-803 | The loop lists every task |
| `TaskForest.LinkingComplete` | builtin-report.c:685-803 | Linking fails if and only if some parent is unknown; otherwise every task is in exactly the list it belongs to |
| `TaskPrint.NotOnPath` | builtin-report.c:733-749 | No task is printed below itself, so printing ends |
| `TaskPrint.PrintAllUnder` | builtin-report.c:745-748 | Whatever is printed hangs under the list it is printed for |
| `TaskPrint.ChildrenPrinted` | builtin-report.c:745-748 | Wherever a task is printed its children follow one level deeper |
| `TaskPrint.PrintAllOnce` | builtin-report.c:733-749 | Nothing is printed twice |
| `TaskPrint.PrintsTheForest` | builtin-report.c:733-812 | A task is printed at a level if and only if its chain of parents ends after that many steps, and only once |
| `TaskPrint.EveryTaskPrinted` | builtin-report.c:733-812 | When every chain ends, every task is printed |
| `TaskOrder.ListingNested` | builtin-report.c:733-749 | In the listing the nearest less indented line above a task is its parent |
| `TaskOrder.AllTops` | builtin-report.c:733-749 | A list of tasks is printed in its own order |
| `TaskOrder.LinkingOrdered` | builtin-report.c:685-812 | Roots, and the children of each task, come in the order in which the chains of parents followed from task after task first reach them |
| `TaskTool.TaskList.constructor` | builtin-report.c:772-785 | Empty lists |
| `TaskTool.TaskList.TasksList` | builtin-report.c:685-705 | The recursion refines the model and terminates |
| `TaskTool.TaskList.LinkTasks` | builtin-report.c:787-803 | The loop refines it and fails if and only if a parent is unknown |
| `TaskTool.TaskList.TaskPrintLevel` | builtin-report.c:733-749 | The unguarded recursion terminates and prints the subtree |
| `TaskTool.TaskList.PrintRoots` | builtin-report.c:807-808 | The roots' subtrees are the whole output |
| `TaskTool.TaskList.TasksPrint` | builtin-report.c:751-812 | The listing fails if and only if a parent is unknown, else it has each task whose chain ends once, at its depth, below its parent and in the order in which it was reached |
| `AioWrite.PushKeeps` | builtin-record.c:243-258 | Queueing a request keeps: what is not left to write of each request is in the file, and each reference has a request |
| `AioWrite.CompleteFile` | builtin-record.c:162-206 | A completion adds its part to the file and leaves other requests' parts alone |
| `AioWrite.CompleteKeeps` | builtin-record.c:162-206 | A completion, full, partial, failed or refused, keeps it |
| `AioWrite.RestartKeepsEnd` | builtin-record.c:192-202 | A restart keeps offset + remaining and advances the buffer with the offset |
| `AioWrite.FreedWithRest` | builtin-record.c:176-206 | A block is given up with data left if and only if the rest is refused; only a full write puts the reference |
| `AioWrite.Step` | builtin-record.c:137-206 | Every step of every run keeps the invariant |
| `AioWrite.Run` | builtin-record.c:137-206 | So it holds after every run |
| `AioWrite.RunFollows` | builtin-record.c:137-206 | Every busy block holds the request the trace last queued on it, with the rest the answers leave |
| `AioWrite.RequestEnds` | builtin-record.c:162-206 | A request is done if and only if some check of it wrote all that was left, and lost if and only if some check left a rest that was refused |
| `AioWrite.AllWritten` | builtin-record.c:137-241 | Once all blocks are free every request of the trace is in the file in full, unless a check of it left a rest that was refused |
| `AioWrite.RefusedRun` | builtin-record.c:176-206 | A run in which a block is given up with data left |
| `AioWrite.CompleteProgress` | builtin-record.c:162-206 | A productive answer leaves less to do and no other changes the blocks |
| `AioTool.AioMap.constructor` | builtin-record.c:208-214 | All blocks are free |
| `AioTool.AioMap.Write` | builtin-record.c:137-160 | Retries while told to try again, then the block is queued, or free if refused |
| `AioTool.AioMap.PushFn` | builtin-record.c:243-258 | Queueing refines the model |
| `AioTool.AioMap.CompleteOne` | builtin-record.c:162-206 | Completion refines it and returns true exactly when nothing remains |
| `AioTool.AioMap.Pass` | builtin-record.c:215-231 | One pass finds a free block, or lists every busy one to be waited for |
| `AioTool.AioMap.Sync` | builtin-record.c:208-241 | A full sync returns only when every block is free, a single one only with a free block, and returns if the kernel keeps writing |

## Left out

- Arithmetic width: counters and times are unbounded, except the lock waits and their total, the page comparisons and the length of an I/O call, where 64-bit wrap-around is written out.
- Memory allocation always succeeds, and so do pthread, semaphore and file calls that the model has no answer for.
- Red-black rebalancing, hash buckets of the lock and thread tables, and linked-list pointers: trees are node sequences, tables are maps, lists are sequences.
- Reading and parsing of events, sessions, symbols, callchains, filters, printing, option handling, SVG and terminal output.
- `perf stat`, `kvm`, `c2c`, `diff`, `script`, `probe`, `inject`, `annotate`, `ftrace`, `mem` and the build-id commands: plumbing, or easy members only.
- ReplayRun.NeverDeadlocks: how long RUN atoms burn and SLEEP atoms without a semaphore rest is not modelled; threads are never lost, and mutexes and semaphores do what POSIX says.
- ReplayBuilder.Builder.RegisterPid: a command name of any length is kept as it is.
- TopQueues.AckBounded: the condition variable has no spurious wakeups, and events are numbers; the order inside an ordered queue is that of arrival.
- KmemPageTrees.PageTracker.ProcessPageAllocEvent: gfp flags and migrate types are never the wildcard value -1, and the pages of a trace lie in a window of 2^63, without which the tree has no order (TotalExactly); call sites come as inputs.
- KmemSlab.TreesAgree: whether an allocation crosses nodes comes as an input; the sorting of the result is left out.
- LockTrace.LockNumbers: runs that hit the BUG_ON end there; flags and names of locks are left out, and the sorting of the result.
- Latency.Step: profiling covers all CPUs; the character found beyond the table of state characters is an input.
- LatencySort.ThreadLatencyInsert: the sort keys are any non-empty list of avg, max, switch and runtime; the pid key, whose list node the tool also uses for its thread tree, is not modelled.
- Timehist.RunTimeConserved: filters, idle-hist mode and callchains are off; times are positive and, per CPU, in order.
- TimehistTimeline.TimelinePartitioned: the trace is well formed, that is in order of time, with each CPU switching away from the thread it switched to and no thread on two CPUs; TimelineBalances covers all other traces.
- TimechartIo.Step: CPU samples, wakeups, forks and exits of processes are left out.
- TimechartPower.PStatesTile: samples come in order of time, with positive timestamps.
- TaskTool.TaskList.TasksPrint: the maps printed under a task are left out, and a printed line is a task and its level.
- AioTool.AioMap.Sync: the kernel's answers are a finite list, one per block and pass, and nothing is returned if they run out first; waiting itself takes no step.
- AioWrite.AllWritten: requests are for different parts of the file, a failed write writes nothing, and the reference count is raised by the push that queues the request.
