# Sylar: scheduler, event table, timers and logging

A Dafny model of the coroutine server's shared, mutable parts, with proofs about every run of them. Check it with
`dafny verify dfyconfig.toml`.

## What is modelled

- **Scheduler and fibers** (`SchedulerModel`, `SchedulerInvariants`, `SchedulerTheorems`, `SchedulerExamples`,
  `SchedulerTickets`, `SchedulerEffects`, `Scheduler`, `Fibers`). N workers share one queue. Each locked region,
  context switch and shared write of `Scheduler::run` is one atomic step; the decrement and the requeue are separate
  steps, so the window between them exists in the model. The theorems quantify over every number of workers and every
  interleaving. Two conditions on callers appear by name: `OneWakeup` (one outstanding wakeup per fiber, counting the
  one a worker is about to requeue, no `YieldToReady` while one is outstanding, no reset of a fiber that a worker has
  not settled) and `NoLateProducer` (nothing is submitted from outside the pool after `stop()` has set `auto_stop_`).
  `SchedulerExamples` shows with a run for `NoLateProducer`, and for each clause of `OneWakeup`, that it is needed.
- **The event table** (`FdTable`, `FdTableTheorems`, `FdTableDefects`, `FdTableRuns`, `IOManager`). Contexts with two
  slots, the kernel's interest masks, the pending counter, and what was scheduled or discarded. `epoll_ctl` fails when
  its operation is illegal for what the kernel holds, and whenever the argument `fault` says so.
- **Both together** (`SchedulerWakeups`, `FiberEvents`), with the event table's lines as designed. Fibers that arm an
  event for themselves, and workers that fire events and hand the continuations to the scheduler one by one,
  interleaved with everything else.
- **Timers** (`TimerSet`, `TimerTheorems`, `TimerCallbacks`, `TimerManager`). The ordered set, timers whose deadlines
  move while they are out of it, expiry, recurrence and rollover over 64-bit arithmetic. The clock is an argument of
  each operation.
- **Log patterns** (`LogPattern`, `LogPatternTheorems`, `LogPatternMeaning`, `LogFormatter`). The index parser of
  `LogFormatter::init`, a recursive parser it is proved equal to, printing, and rendering. What an event's field looks
  like is a parameter.
- **Log configuration** (`LogConfig`, `LogConfigTheorems`, `LogManager`). The change callback on the `logs` variable
  over any history of values, against a description of the current configuration that does not mention the callback.

Each component has functions on values, a class whose methods update fields in place and ensure that the object's view
changes by those functions, and theorems about the functions over whole runs.

## Lines that differ from the design

Several lines contradict what the code around them relies on. Each component takes a record `Lines` with one flag for
each of them, true for the designed line and false for the line as written. The run theorems are stated for the
designed lines unless they hold for both; for each written line a theorem says exactly when it still meets the
property. The event table has nine such lines in five functions, so its theorems `...SoundIff` are for every choice of
the nine, and `WrittenStepSoundIff` and `WrittenSoundRunDeliversNothing` are for the code as it stands.

- scheduler.cpp:105: `is_activate` outlives its pass. `flagPerPass`; see `CountersExactIffNoStaleFlag` and
  `CountersExactIffFlagPerPass`.
- IOManager.cpp:78-81: existing contexts are replaced. `growKeeps`; see `AddSoundIff` and `WrittenGrowthSoundIffIdle`.
- IOManager.cpp:88: the new size does not cover descriptors 0 and 1. `growCovers`; see `AddSoundIff` and
  `WrittenSizeCoversIffNotStandard`.
- IOManager.cpp:138 and 170: the event is or-ed in instead of cleared. `delClears`, `cancelClears`; see `DelSoundIff`
  and `CancelSoundIff`.
- IOManager.cpp:151-152: the mask is stored before the slot is fetched, which the assertion at line 10 forbids once
  138 clears the bit. `delFetchesFirst`; see `DelSoundIff` and `WrittenFetchAbortsIffAccepted`.
- IOManager.cpp:209 and 213: a logical and in place of a bit test. `cancelAllTests`; see `CancelAllSoundIff` and
  `WrittenCancelAllAbortsIffNoRead`.
- IOManager.cpp:26-31: a triggered slot keeps its continuation. `triggerEmpties`; see `CancelSoundIff`,
  `CancelAllSoundIff`, `DispatchSoundIff` and `WrittenTriggerForbidsRearming`.
- IOManager.cpp:283: the ready events stay in the mask given to the kernel. `dispatchAssigns`; see `DispatchSoundIff`.
- IOManager.cpp:293 and 297: events that are not armed are triggered. `dispatchMasks`; see `DispatchSoundIff` and
  `WrittenFiringAbortsIffUnarmed`.
- timer.cpp:16-19: the probe given to `upper_bound` has deadline 0. `probeKeeps`; see `WrittenProbeTakesSameIff`.
- timer.cpp:57: `refresh` drops the callback where line 40 tests it. `refreshKeeps`; see `EmptyDeliveryIffEmptied` and
  `WrittenRefreshSilencesIffInSet`.
- timer.cpp:78: the deadline comparison is inverted. The model's set uses the designed order; see
  `WrittenOrderIffOneDeadline`, `WrittenOrderIsWeakIff` and `WrittenOrderConfuses`.
- log.cpp:464: the removed name is read from the end iterator, which the model treats as an abort. `removedName`; see
  `RunCompletesIff`.

Three more findings are theorems about the code as it stands. A configured logger has no root (log.cpp:437,
log.h:178), so a definition without appenders makes an event that reaches it call through a null pointer
(`NullRootIff`). A pattern that ends in `%`, doubled or not, is never accepted (`PercentAtEndIsRejected`). A file
appender skips events of exactly its own level while a stdout appender writes them (log.cpp:105 and 130), which
`EventReaches` keeps apart.

## Model

| member | source | states |
|---|---|---|
| SchedulerTheorems.ShutdownDrains | sylar/scheduler.cpp:87-172 | Shutdown: for any number of workers and any interleaving, with no outside producer once auto_stop_ is set, when every worker is past its final empty scan nobody holds an entry and the queue holds nothing but entries pinned to one thread, although a worker may see stopping() true inside another's window between decrement and requeue |
| SchedulerTheorems.UnpinnedShutdownDrainsAll | sylar/scheduler.cpp:87-172 | with only unpinned work the queue is then empty |
| SchedulerExamples.PinnedWorkIsStranded | sylar/scheduler.cpp:111-128 | a reachable state in which all workers have left and a pinned entry is still queued: the restriction to unpinned work is needed |
| SchedulerExamples.StopsDuringWindow | sylar/scheduler.cpp:133-140 | a reachable state with stopping() true, one worker gone, and a READY fiber not yet requeued |
| SchedulerTheorems.CountersAt | sylar/scheduler.cpp:123-164 | active_threads_count_ is the number of workers between pick and decrement and idle_threads_count_ the number inside the idle fiber, in every state of every run |
| SchedulerTheorems.StoppingLeavesOnlySettling | sylar/scheduler.cpp:87-91 | when stopping() is true, whatever is still held is past its decrement and not yet requeued |
| SchedulerExamples.WrittenFlagMiscounts | sylar/scheduler.cpp:105-157 | with is_activate kept across passes, as written, a run reaches an active count of -1 |
| SchedulerTheorems.CountersExactIffNoStaleFlag | sylar/scheduler.cpp:105-157 | with the line written either way, both counters are exact in a state of a run if and only if no step before it took the branch at line 155 with is_activate set in a pass that found nothing |
| SchedulerTheorems.ExcessAt | sylar/scheduler.cpp:123-164 | in every state of every run the active counter is short of the workers it should count by exactly the number of those steps, and the idle counter is exact: an error is never made good |
| SchedulerInvariants.ExcessStep | sylar/scheduler.cpp:123-164 | each step through that branch takes one too many off the active counter; no other step moves either counter away from the workers, or back |
| SchedulerExamples.CountersExactIffFlagPerPass | sylar/scheduler.cpp:105-157 | every run keeps the counters exact if and only if the flag is reset on each pass |
| SchedulerTheorems.EveryTicketInOnePlace | sylar/scheduler.cpp:107-158 | conservation: every accepted entry is in exactly one of queued, held by one worker, parked, finished, dropped; an entry not yet accepted is nowhere; what the entry is, TicketKeepsItsTask says |
| SchedulerTickets.TicketKeepsItsTask | sylar/scheduler.cpp:107-158 | through every run an entry that is queued or held has the ticket, thread and task it was accepted with, except that a callback is replaced by the fiber made to run it |
| SchedulerTickets.PresentStep | sylar/scheduler.cpp:107-158 | each step moves entries unchanged, accepts the one it was given, or gives one callback its fiber |
| SchedulerTheorems.OnlyOnePlace | sylar/scheduler.cpp:107-128 | a queued entry is at one index only and in no worker's hands |
| SchedulerTheorems.OneWorkerPerFiber | sylar/scheduler.cpp:119-140 | with one outstanding wakeup per fiber, YieldToHold while one is outstanding, and no reset of a fiber before its worker has settled it, no fiber is on two workers at once, not even between its yield and the end of its slice, and YieldToReady's and YieldToHold's assertions hold |
| SchedulerExamples.TwoWakeupsRunTwice | sylar/scheduler.cpp:119-139 | with two wakeups outstanding a run reaches a state with one fiber on two workers |
| SchedulerExamples.YieldReadyWithWakeupRunsTwice | sylar/fiber.cpp:139-150 | YieldToReady while a wakeup is outstanding lets a second worker enter the fiber before the first has left it |
| SchedulerExamples.WakeBeforeRequeueRunsTwice | sylar/scheduler.cpp:133-137 | a wakeup of a READY fiber that its worker is about to requeue lets a second worker enter it |
| SchedulerExamples.EarlyResetRunsTwice | sylar/fiber.cpp:112-129 | a reset of an ended fiber that has not yet swapped out lets a second worker enter it |
| SchedulerExamples.LateWorkIsStranded | sylar/scheduler.cpp:87-172 | a run in which a producer submits an unpinned entry after every worker has left, and it stays queued |
| SchedulerTheorems.EndedIsFinal | sylar/fiber.cpp:164-184 | in every run, whatever callers do, a fiber in TERM or EXCET stays ended and no worker comes onto its stack until it is reset |
| SchedulerTheorems.NobodyEnters | sylar/scheduler.cpp:133-145 | no step takes a worker onto the stack of an ended fiber |
| SchedulerTheorems.EndedKeepsRecord | sylar/fiber.cpp:164-184 | with one wakeup per fiber, an ended fiber also keeps its whole record until it is reset |
| SchedulerTheorems.CallableDroppedAtEnd | sylar/fiber.cpp:166-171 | in every state of every run a fiber in TERM has no callable |
| SchedulerTheorems.CurrentFiberRestored | sylar/fiber.cpp:91-104 | in every reachable state a worker's current fiber is its main fiber between slices, and the fiber it runs during one |
| SchedulerTheorems.StepOvertakes | sylar/scheduler.cpp:111-128 | any step leaves a waiting entry where it is, brings it one place nearer if the step is a pick, or picks it |
| SchedulerTheorems.EveryPickBringsItNearer | sylar/scheduler.cpp:111-128 | no starvation by overtaking: while an unpinned entry at index k waits with its fiber off the processors, the workers together make at most k picks, each bringing it one place nearer |
| SchedulerTheorems.PickedWithin | sylar/scheduler.cpp:111-128 | an unpinned entry at index k whose fiber is off the processors while it is queued is picked by the time the workers together have made k + 1 picks |
| SchedulerEffects.PinnedPickedWithin | sylar/scheduler.cpp:111-128 | an entry pinned to worker w at index k, whose fiber is off the processors while it is queued, is picked, by w itself, by the time w has scanned the queue k + 1 times |
| SchedulerEffects.PickedWithinOwnScans | sylar/scheduler.cpp:111-128 | the same for any entry w may take, whoever then picks it |
| SchedulerEffects.ScanTakesFirstMine | sylar/scheduler.cpp:107-129 | a scan takes the least entry that is for any thread or for the worker's own and not for a fiber in EXEC, that one alone, and counts it; with none it leaves queue and counter alone |
| SchedulerInvariants.PinnedKept | sylar/scheduler.cpp:113-117 | every step keeps: a pinned entry is only held by the worker it names |
| SchedulerTheorems.StructureAt | sylar/scheduler.cpp:93-172 | every reachable state has its n workers, entries whose fibers exist, EXEC fibers that are in some worker's slice, and pinned entries at home |
| SchedulerInvariants.CountersKept | sylar/scheduler.cpp:123-164 | each kind of step moves the counters exactly with the workers' positions |
| SchedulerInvariants.ExclusiveKept | sylar/scheduler.cpp:119-139 | each disciplined step keeps the relation between a fiber's state, its outstanding entry and its slice |
| SchedulerInvariants.DrainKept | sylar/scheduler.cpp:87-172 | each step keeps: if all workers have passed their final empty scan, only pinned entries are left |
| SchedulerModel.FirstEligible | sylar/scheduler.cpp:111-128 | the scan's result: nothing before it may be taken by this worker, and it may |
| SchedulerEffects.StartEffect | sylar/scheduler.cpp:133-157 | a live fiber goes to EXEC with the callable it had; a callback entry gets a new fiber in EXEC that holds that callback; the entry of an ended fiber is dropped and counted down |
| SchedulerEffects.CallbackEntryRunsItsCallback | sylar/scheduler.cpp:141-145 | over any run the fiber made for a callback entry holds that callback until it ends normally or is reset |
| SchedulerEffects.FiberRunsItsCallable | sylar/fiber.cpp:49-71 | over any run a fiber holds exactly the callable it was created, started or last reset with, and none after a normal end; a throw keeps it |
| SchedulerEffects.SliceEffect | sylar/fiber.cpp:139-184 | YieldToReady marks the fiber READY, YieldToHold leaves its state to the worker, a normal end gives TERM and drops the callable, a throw gives EXCET and keeps it, and where the worker is then |
| SchedulerEffects.SettleEffect | sylar/scheduler.cpp:136-140 | a READY fiber's entry goes to the back of the queue unchanged; an ended fiber is finished; any other is put in HOLD and parked |
| SchedulerEffects.ListsMean | sylar/scheduler.cpp:133-157 | over any run a ticket is finished, parked or dropped exactly when a step met its fiber ended at the end of its slice, swapped out neither ended nor READY, or already ended when picked |
| SchedulerEffects.IdleEndsIffAllQuiet | sylar/scheduler.cpp:87-91 | a worker's idle fiber ends by no other step than a test of stopping() with auto_stop_ and stopping_ set, the queue empty, nobody counted active and the override true, and by that one always |
| SchedulerEffects.LeavesIffIdleEnded | sylar/scheduler.cpp:155-163 | a worker leaves the loop by no other step than a pass that found nothing, counts nothing down and finds its idle fiber ended; such a pass otherwise enters the idle fiber |
| SchedulerEffects.IdleEffect | sylar/scheduler.cpp:162-164 | each step of the idle fiber's round, on the worker and the idle counter |
| SchedulerEffects.EmptyPassEffect | sylar/scheduler.cpp:154-163 | a pass that found nothing, on the worker and both counters |
| SchedulerEffects.OutsideEffect | sylar/scheduler.h:52-57 | a submission goes to the back as given, a new fiber is in INIT with its callable, a reset one in INIT with the new callable |
| SchedulerEffects.FiberChoices | sylar/fiber.cpp:112-150 | a running fiber may yield exactly in EXEC and end normally exactly with a callable; a fiber may be reset exactly in INIT or TERM |
| SchedulerEffects.WorkerCanGoOn | sylar/scheduler.cpp:106-170 | in every reachable state a worker that has not left can take a step |
| SchedulerObject.Scheduler.ScanQueue | sylar/scheduler.cpp:107-129 | the locked scan loop takes exactly the first eligible entry out of the queue and counts it, or leaves queue and counters alone |
| SchedulerObject.Scheduler.Schedule | sylar/scheduler.h:52-57 | the entry goes to the back; the result says whether the queue was empty |
| SchedulerObject.Scheduler.ScheduleRange | sylar/scheduler.h:36-50 | the queue becomes the old queue followed by one unpinned entry per task in order; the result says whether the old queue was empty and something was queued |
| SchedulerObject.Scheduler.StartFiber | sylar/scheduler.cpp:133-134 | swaps in a fiber that has not ended; an ended one is dropped and counted down |
| SchedulerObject.Scheduler.StartCallback | sylar/scheduler.cpp:141-145 | a callback entry runs on a new fiber |
| SchedulerObject.Scheduler.SliceStep | sylar/fiber.cpp:139-184 | one step of a slice: yield, end, swap out, count down; the state the model's machine moves to |
| SchedulerObject.Scheduler.SettleEntry | sylar/scheduler.cpp:136-140 | a READY fiber's entry goes to the back of the queue, an ended one's is finished, any other fiber is put in HOLD and parked |
| SchedulerObject.Scheduler.FinishEmptyPass | sylar/scheduler.cpp:154-163 | count down, leave the loop, or enter the idle fiber |
| SchedulerObject.Scheduler.StepIdle | sylar/scheduler.cpp:214-219 | the idle fiber ends exactly when stopping() and its override hold, else dispatches and yields |
| Fibers.Fiber.MainFuncEnd | sylar/fiber.cpp:164-178 | a normal end clears the callable and gives TERM; an exception keeps it and gives EXCET |
| Fibers.Fiber.Reset | sylar/fiber.cpp:112-129 | a fiber in INIT or TERM gets a new callable and INIT |
| Fibers.Fiber.SwapIn | sylar/fiber.cpp:93-93 | the state write of swapIn: EXEC, with the callable kept; the current fiber is the worker's, in the model's Start step |
| Fibers.Fiber.YieldToReady | sylar/fiber.cpp:141-142 | the state write of YieldToReady: a fiber in EXEC becomes READY; the swap out is a step of its own |
| FiberEvents.OneWorkerPerFiberWithEvents | sylar/IOManager.cpp:116-122 | scheduler and event table together: when a fiber arms one event at a time, with nothing else about to wake it, and leaves by YieldToHold, no fiber is ever on two workers at once, in any interleaving of dispatch, cancel, delivery and the workers |
| FiberEvents.EventWakeupsAreDisciplined | sylar/IOManager.cpp:26-31 | every scheduler() call made for a fired event is one the scheduler can take, and keeps the rule of one outstanding wakeup per fiber |
| FiberEvents.AwaitedOnce | sylar/IOManager.cpp:116-122 | a fiber waiting for an event, armed or fired, waits for that one alone and nothing is queued to wake it |
| FiberEvents.WorldStepFits | sylar/IOManager.cpp:83-219 | every step of the two together keeps both invariants and the link between them |
| SchedulerWakeups.MayWakeKept | sylar/scheduler.cpp:107-158 | a fiber that may be woken still may be after any step that neither wakes it nor lets it yield to ready |
| FiberEvents.TouchDrains | sylar/IOManager.cpp:125-219 | del, cancel, cancelAll and dispatch never make a fiber awaited more often, in slots and among the fired continuations together |
| FiberEvents.AddAwaits | sylar/IOManager.cpp:83-124 | addEvent makes at most the fiber it is given awaited once more, and fires nothing |
| FdTableTheorems.RunSound | sylar/IOManager.cpp:76-219 | over any run of add, del, cancel, cancelAll and batch dispatch, with epoll_ctl free to fail at each call: no assertion fails, pending_Event_Size_ is the number of armed events, each slot is filled exactly when its bit is set, the kernel's interest masks are the event masks, and every successful addEvent is armed, scheduled once or discarded, exactly one of them |
| FdTableTheorems.StepSound | sylar/IOManager.cpp:83-219 | every operation on a sound table completes and leaves it sound |
| FdTableTheorems.BatchRefinesClear | sylar/IOManager.cpp:260-301 | batch dispatch, repeats and kernel failures included, is one set operation per descriptor: it keeps old minus ready (everything, for a hang-up or an error), and every continuation that left a slot was scheduled, each once |
| FdTableTheorems.DispatchRefinesClear | sylar/IOManager.cpp:261-300 | one report clears what it reports, or nothing when the kernel fails |
| FdTableTheorems.CancelRefinesClear | sylar/IOManager.cpp:157-184 | cancelEvent returns true exactly when the event is armed and the kernel does not fail; it then disarms that event alone and schedules its continuation |
| FdTableTheorems.CancelAllRefinesClear | sylar/IOManager.cpp:185-219 | cancelAll returns true exactly when something is armed and the kernel does not fail; it then disarms everything and schedules read before write |
| FdTableTheorems.ClearSound | sylar/IOManager.cpp:21-33 | disarming any set of events keeps counter, slots, kernel mask and the fate of every addEvent in agreement |
| FdTableTheorems.AddDesigned | sylar/IOManager.cpp:83-124 | addEvent never fails an assertion, for every descriptor from 0, and returns true exactly when the event is not armed and the kernel does not fail |
| FdTableTheorems.ArmSound | sylar/IOManager.cpp:109-123 | arming an event keeps the table sound |
| FdTableTheorems.DelDesigned | sylar/IOManager.cpp:125-156 | delEvent returns true exactly when the event is armed and the kernel does not fail; it disarms it and schedules nothing |
| FdTableTheorems.DelSound | sylar/IOManager.cpp:150-154 | deleting keeps the table sound, with the addEvent counted as discarded |
| FdTableTheorems.DelUndoesAdd | sylar/IOManager.cpp:83-156 | delEvent after addEvent, which may have grown the table, restores contexts, kernel masks, counter and schedule |
| FdTableTheorems.CancelFiresAdd | sylar/IOManager.cpp:83-184 | cancelEvent after addEvent, which may have grown the table, schedules exactly the callback, or the fiber, that addEvent armed, and restores the rest |
| FdTableTheorems.GrowthKeeps | sylar/IOManager.cpp:76-82 | growing keeps every context with its events, adds only idle contexts numbered by their index, and keeps the table sound |
| FdTableTheorems.GrownSound | sylar/IOManager.cpp:86-91 | after growing, the requested descriptor is in bounds, and the table has one and a half times its number of entries (one more than it for 0 and 1) |
| FdTable.BitsOfMasks | sylar/IOManager.cpp:98-103 | the two-flag masks of the model are the bit operations of the source on the values 0, 1, 4 and 5 |
| FdTableRuns.WrittenStepSoundIff | sylar/IOManager.cpp:76-301 | the code as it stands, every line as written: a call on a sound table keeps it sound, a batch after each report, if and only if delEvent, cancelEvent or cancelAll is refused, no report reaches anything armed, or addEvent need not grow the table or is for a descriptor of at least 2 with nothing armed anywhere |
| FdTableRuns.WrittenSoundRunDeliversNothing | sylar/IOManager.cpp:76-301 | as the code stands, a run that keeps the table sound throughout schedules nothing and discards nothing: it never delivers an event |
| FdTableRuns.WrittenDelWrapsCounter | sylar/IOManager.cpp:135-151 | as the code stands an event can be deleted twice, and with one event pending the second time wraps the counter to 2^64 - 1 |
| FdTableRuns.RunSoundIff | sylar/IOManager.cpp:76-301 | whichever lines are as written: a run keeps the table sound after every call and every report if and only if each call, on the table it meets, is harmless |
| FdTableRuns.StepSoundIff | sylar/IOManager.cpp:76-301 | the same for one call |
| FdTableDefects.EveryRunSoundIffDesigned | sylar/IOManager.cpp:76-301 | every run is sound if and only if all nine lines are as designed |
| FdTableDefects.DelSoundIff | sylar/IOManager.cpp:125-156 | for any lines: delEvent keeps the table sound if and only if it is refused, or lines 138 and 151-152 are as designed |
| FdTableDefects.WrittenFetchAbortsIffAccepted | sylar/IOManager.cpp:150-154 | with line 138 alone corrected, delEvent fails the assertion at line 10 exactly when it goes through, and is otherwise as designed |
| FdTableDefects.CancelSoundIff | sylar/IOManager.cpp:157-184 | for any lines: cancelEvent keeps the table sound if and only if it is refused, or lines 170 and 26-31 are as designed |
| FdTableDefects.CancelAllSoundIff | sylar/IOManager.cpp:185-219 | for any lines: cancelAll keeps the table sound if and only if it is refused, or lines 26-31 are as designed and 209 and 213 are or READ is armed |
| FdTableDefects.WrittenCancelAllAbortsIffNoRead | sylar/IOManager.cpp:209-217 | lines 209 and 213 as written, the others either way: cancelAll aborts exactly when it passes the kernel with READ not armed, and otherwise does what it does with those two lines corrected |
| FdTableDefects.DispatchSoundIff | sylar/IOManager.cpp:261-300 | for any lines: one report keeps the table sound if and only if it does not reach the kernel, or lines 26-31 are as designed, line 283 is or nothing stays armed on its descriptor, and lines 293-300 are or it names no unarmed event |
| FdTableDefects.WrittenFiringAbortsIffUnarmed | sylar/IOManager.cpp:293-300 | lines 293-300 as written, the others either way: dispatch aborts exactly when a report that reaches the kernel names an unarmed event too, and otherwise does what it does with those lines corrected |
| FdTableDefects.AddSoundIff | sylar/IOManager.cpp:76-124 | for any lines: addEvent keeps the table sound if and only if the table need not grow, or line 88 is as designed or the descriptor at least 2, and lines 76-82 are or nothing is armed |
| FdTableDefects.WrittenTriggerForbidsRearming | sylar/IOManager.cpp:112-115 | lines 26-31 as written with 170 corrected: after a cancel the next addEvent of that event fails the assertion |
| FdTableDefects.WrittenGrowthSoundIffIdle | sylar/IOManager.cpp:76-82 | the written loop keeps the table sound exactly when nothing is armed anywhere |
| FdTableDefects.WrittenSizeCoversIffNotStandard | sylar/IOManager.cpp:87-90 | line 88 as written: the descriptor is in bounds after growing exactly when it is neither 0 nor 1 |
| IOManagerObject.IOManager.AddEvent | sylar/IOManager.cpp:83-124 | the object's contexts, kernel masks and counter change as the model's addEvent says, or an assertion fails where the model aborts; contexts are the old objects or new ones |
| IOManagerObject.IOManager.ArmEvent | sylar/IOManager.cpp:92-123 | the part under the context's lock |
| IOManagerObject.IOManager.Grow | sylar/IOManager.cpp:76-82 | the resize loop: as designed each existing context stays the same object at its index; every other one is new |
| IOManagerObject.IOManager.DelEvent | sylar/IOManager.cpp:125-156 | the object changes as the model's delEvent says |
| IOManagerObject.IOManager.CancelEvent | sylar/IOManager.cpp:157-184 | the object changes as the model's cancelEvent says |
| IOManagerObject.IOManager.CancelAllEvents | sylar/IOManager.cpp:185-219 | the object changes as the model's cancelAll says |
| IOManagerObject.IOManager.FireReady | sylar/IOManager.cpp:281-300 | the epoll_ctl call and the triggers for the events found ready |
| IOManagerObject.IOManager.DispatchOne | sylar/IOManager.cpp:261-300 | one round of the dispatch loop |
| IOManagerObject.IOManager.DispatchBatch | sylar/IOManager.cpp:260-301 | the dispatch loop over any batch, stopping where an assertion fails |
| IOManagerObject.FdContext.TriggerEvent | sylar/IOManager.cpp:21-33 | the bit is cleared, the slot's continuation handed over, callback before fiber |
| TimerTheorems.BeforeIsStrictTotal | sylar/timer.cpp:68-82 | the intended (deadline, address) order is a strict total order |
| TimerTheorems.WrittenOrderIffOneDeadline | sylar/timer.cpp:78-81 | line 78 as written orders a set of timers as intended exactly when all share one deadline |
| TimerTheorems.WrittenOrderIsWeakIff | sylar/timer.cpp:78-81 | the written comparator is a strict weak order, as std::set demands, on exactly those sets of timers in which, of any three by address, the middle one is due strictly between the outer two whenever the first is due before the last |
| TimerTheorems.WrittenOrderConfuses | sylar/timer.cpp:78-81 | to the written order two timers are equivalent exactly when the one at the lower address is due strictly earlier |
| TimerTheorems.SortedUnique | sylar/timer.h:30-33 | the set's order is a function of its members |
| TimerTheorems.FindIsIndex | sylar/timer.cpp:27-28 | find by the comparator finds the timer exactly when it is in the set |
| TimerTheorems.EraseSorted | sylar/timer.cpp:29-29 | erasing removes exactly one timer and keeps the order |
| TimerTheorems.InsertSorted | sylar/timer.cpp:105-105 | inserting adds exactly one timer and keeps the order |
| TimerTheorems.AddEffect | sylar/timer.cpp:95-112 | addTimer adds the timer at now + ms and touches no other |
| TimerTheorems.FrontIffEarliest | sylar/timer.cpp:105-110 | the new timer comes to the front exactly when it is before every other |
| TimerTheorems.CancelEffect | sylar/timer.cpp:23-34 | cancel returns true exactly when the timer was in the set; afterwards it is dead and everything else is as it was |
| TimerTheorems.RearmEffect | sylar/timer.cpp:44-49 | erase, move the deadline, insert: the members stay, the set stays sorted |
| TimerTheorems.ResetEffect | sylar/timer.cpp:35-52 | reset moves exactly a live timer that is in the set, when the period changes or from_now is given |
| TimerTheorems.ResetReturnsUnchanged | sylar/timer.cpp:35-52 | reset returns a value exactly when the period is unchanged without from_now or there is no callback; it is false and nothing has changed |
| TimerTheorems.RefreshEffect | sylar/timer.cpp:54-66 | refresh moves a live timer in the set to now + its period; as written it also drops its callback |
| TimerTheorems.WrittenRefreshSilencesIffInSet | sylar/timer.cpp:54-66 | line 57 as written leaves an empty callback in the set exactly when the timer is in the set |
| TimerTheorems.TakenIsDue | sylar/timer.cpp:154-162 | a pass takes everything if now < previous and (previous < 3600000 or now < previous - 3600000); otherwise exactly the deadlines before now, and those at now whose address is not above the probe's |
| TimerTheorems.ExpireEffect | sylar/timer.cpp:144-182 | the prefix is delivered in order with the callbacks it had, its recurring timers are back at now + period in 64 bits, its one-shots are dead, everything else is untouched, and the clock is kept unless the set was empty |
| TimerTheorems.EarlyIffRollover | sylar/timer.cpp:154-162 | a pass delivers something early exactly when it is a rollover and some timer is not due |
| TimerTheorems.NothingOverdueIffNoOverflow | sylar/timer.cpp:154-179 | after a pass no deadline lies before now, if and only if no recurring timer it took overflows 64 bits |
| TimerTheorems.WrittenProbeTakesSameIff | sylar/timer.cpp:16-19 | with the probe's deadline lost, a pass takes what the designed one takes exactly when it is a rollover, or every timer not after the probe at now is not after a probe at 0 either |
| TimerTheorems.NextTimerIsMinimum | sylar/timer.cpp:126-142 | getNextTImer is the least remaining time over all timers in the set, saturated at 0, and all ones when the set is empty |
| TimerTheorems.RunSettled | sylar/timer.cpp:8-211 | in every state of every run the set is sorted, a timer outside it has no callback, and a one-shot was delivered at most once and not while still in the set |
| TimerTheorems.RunOrdered | sylar/timer.cpp:68-82 | in every state of every run the set lists its timers by deadline, those with one deadline by address |
| TimerTheorems.PreviousIsLastClock | sylar/timer.cpp:183-191 | over any run the clock a pass compares its own with is that of the last pass over a set that was not empty |
| TimerTheorems.OneShotOnce | sylar/timer.cpp:171-178 | a one-shot is delivered at most once over any run |
| TimerTheorems.DeadForever | sylar/timer.cpp:23-52 | "no callback and not in the set" is absorbing, and nothing of such a timer is delivered |
| TimerTheorems.NothingAfterCancel | sylar/timer.cpp:23-34 | nothing of a timer is delivered after cancel |
| TimerTheorems.NothingEarly | sylar/timer.cpp:144-191 | over any run, whichever lines are as written, in which no pass over a non-empty set reads a clock more than an hour below that of the last such pass (or below it at all in the first hour), every callback is delivered at or after its stored deadline |
| TimerTheorems.NothingBeforeArmedTimeIffItFits | sylar/timer.cpp:144-191 | over the same runs a callback is delivered no earlier than the time its timer was last armed for, if and only if that time fits into 64 bits |
| TimerSet.LowerBound | sylar/timer.cpp:105-105 | where the ordered set inserts and finds: everything earlier in the set is before the key, the next is not |
| TimerSet.UpperBound | sylar/timer.cpp:159-160 | upper_bound: nothing earlier in the set is after the key, the next is |
| TimerObjects.TimerManager.AddTimer | sylar/timer.cpp:95-112 | the object's set and timers change as the model's addTimer says; atFront says whether the new timer is the first |
| TimerObjects.TimerManager.CancelTimer | sylar/timer.cpp:23-34 | the object changes, and the result is, as the model's cancel says |
| TimerObjects.TimerManager.ResetTimer | sylar/timer.cpp:35-52 | the object changes as the model's reset says; the result is false on the returning paths and absent on the one without a return |
| TimerObjects.TimerManager.RefreshTimer | sylar/timer.cpp:54-66 | the object changes as the model's refresh says; the result is false |
| TimerObjects.TimerManager.ListExpired | sylar/timer.cpp:144-182 | the pass and its loop; what it returns is the callbacks delivered, in order |
| TimerObjects.TimerManager.DeliverFirst | sylar/timer.cpp:165-179 | the taken prefix leaves the set and is delivered |
| TimerObjects.TimerManager.DeliverAll | sylar/timer.cpp:171-179 | the delivery loop over the taken prefix |
| TimerObjects.TimerManager.CountExpired | sylar/timer.cpp:154-162 | how far the prefix reaches |
| TimerObjects.TimerManager.GetNextTimer | sylar/timer.cpp:126-142 | the model's getNextTImer |
| TimerCallbacks.EmptyDeliveryIffEmptied | sylar/timer.cpp:54-66 | over any run, a delivery has no callback (which the scheduler's assertion forbids) if and only if its timer was added without one or, with line 57 as written, was refreshed while in the set |
| TimerCallbacks.SilentIffEmptied | sylar/timer.cpp:54-66 | over any run, a timer in the set has no callback exactly in those cases |
| TimerCallbacks.EveryDeliveryHasCallback | sylar/timer.cpp:171-178 | with line 57 as designed and every timer added with a callback, no empty callback is ever delivered |
| LogPatternTheorems.RoundTripIffWellFormed | sylar/log.cpp:260-327 | a token list survives printing and parsing, without error, if and only if it is well formed |
| LogPatternTheorems.PrintParse | sylar/log.cpp:260-327 | whatever a pattern without an unclosed brace parses to is well formed and prints as that pattern |
| LogPatternTheorems.ParsePrint | sylar/log.cpp:260-327 | parsing a printed well-formed list gives it back, whatever literal text precedes it |
| LogPatternMeaning.AcceptedIffPrinted | sylar/log.cpp:260-358 | a pattern is accepted without error if and only if it is the print of a well-formed list whose directives are among the eleven m p r c t n d f l F N |
| LogPatternTheorems.PrintIsInjective | sylar/log.cpp:260-327 | two well-formed lists that print alike are equal |
| LogPatternMeaning.SimpleRoundTrip | sylar/log.cpp:260-358 | the design's case: the eleven directives and non-empty, '%'-free, non-adjacent literals that do not start with a letter or brace after a directive come back exactly, compile without error to a text item per literal and a field item per directive, and format as the concatenation of literals and fields |
| LogPatternMeaning.CompiledItems | sylar/log.cpp:345-358 | any pattern compiles to one item per token: a literal's text, a known directive's field with its format, an unknown one's name as text; it is an error exactly when a brace is not closed or a directive is not one of the eleven |
| LogPatternMeaning.FormatIsText | sylar/log.cpp:140-147 | format writes, for any pattern, the texts of its tokens in order: literals as they are, fields for the eleven directives, names of others |
| LogPatternMeaning.FormatOfPrinted | sylar/log.cpp:140-147 | on a printed well-formed list those are the texts of the list's own tokens |
| LogPatternMeaning.DefaultPattern | sylar/log.cpp:43-47 | the default pattern is accepted and compiles to its ten fields with the text between them |
| LogPatternTheorems.CharacterClasses | sylar/log.cpp:282-300 | the characters the parser takes for letters, names and formats, by ASCII code |
| LogPatternTheorems.ErrorIffUnclosed | sylar/log.cpp:311-316 | a parse reports an error exactly when it left a "pattern error" entry |
| LogPatternTheorems.NoCharacterLost | sylar/log.cpp:262-327 | whatever the pattern, accepted or not, its tokens hold each of its characters as often as it occurs |
| LogPatternMeaning.PercentAtEndIsRejected | sylar/log.cpp:265-310 | every pattern that ends in '%' is an error, a doubled '%' included, since only its first half becomes text |
| LogFormatterObject.LogFormatter.Init | sylar/log.cpp:260-358 | the index loops of init leave the items and the error flag that the recursive parser gives |
| LogFormatterObject.LogFormatter.Tokenize | sylar/log.cpp:262-327 | the token loop computes the recursive parse of the whole pattern |
| LogFormatterObject.LogFormatter.ScanDirective | sylar/log.cpp:276-302 | the inner loop's status and indices are the shape of the text after a '%' |
| LogFormatterObject.LogFormatter.Format | sylar/log.cpp:140-147 | the loop's text is the rendering of the compiled pattern |
| LogConfigTheorems.RegistryAgrees | sylar/log.cpp:424-469 | after any run of setVal and getLogger that completes: every currently defined name has exactly its level, its appenders in order, and the last usable formatter since the name was last introduced, else the default; every removed name has no appenders and level 100; every other name is as it was |
| LogConfigTheorems.RunCompletesIff | sylar/log.cpp:446-468 | a run completes if and only if every appender ever configured is of kind 1 or 2 and, as line 464 is written, no name is ever removed |
| LogConfigTheorems.ChangeCompletesIff | sylar/log.cpp:431-468 | the same for one change, from any registry that holds the old definitions' names |
| LogConfigTheorems.ChangeAt | sylar/log.cpp:431-468 | a change treats each name by its old and its new definition alone, whatever the order of the definitions |
| LogConfigTheorems.ConfigureDescribes | sylar/log.cpp:442-455 | configuring one logger completes exactly when its appenders are of known kinds; then level, appenders in order and formatter are the definition's |
| LogConfigTheorems.SameConfigurationSameLogger | sylar/log.cpp:431-458 | two runs that end in one configuration leave the same logger under each name it gives a usable formatter, whatever came before |
| LogConfigTheorems.SetValTwice | sylar/config.h:388-399 | setting the same value again changes nothing |
| LogConfigTheorems.EventReaches | sylar/log.cpp:49-62 | after any run, an event sent to a defined name is written by exactly the appenders its definition lists for that level, in order; with none listed it goes through the null root; a removed name writes nothing |
| LogConfigTheorems.NullRootIff | sylar/log.cpp:58-60 | an event sent to every logger goes through a null root exactly when some definition in force has no appenders and a level that the event reaches |
| LogConfigTheorems.LogOutcome | sylar/log.cpp:49-62 | below the logger's level nothing is written; else the appenders write if there are any; else the event goes to the root, or through the null root |
| LogConfigTheorems.RequestedGoesToRoot | sylar/log.cpp:401-408 | after any run, an event for a logger that getLogger made and no configuration defined goes to the root from level 1 on and nowhere below |
| LogConfigTheorems.FirstPatternIsAccepted | sylar/log.cpp:43-47 | the pattern of such a logger is the accepted default |
| LogConfigTheorems.AddedLast | sylar/log.cpp:89-95 | an added appender comes last and keeps its own formatter if it has one, else gets the logger's |
| LogManagerObject.LoggerManager.Set | sylar/config.h:388-399 | the callback's loops and the assignment of the value change the registered loggers in place as the model's setVal says; false where the model aborts |
| LogManagerObject.LoggerManager.RunCallback | sylar/log.cpp:424-469 | the callback's two loops change the registered loggers in place as the model's callback says |
| LogManagerObject.LoggerManager.ApplyAll | sylar/log.cpp:432-458 | the loop over the new definitions |
| LogManagerObject.LoggerManager.DropAll | sylar/log.cpp:460-468 | the loop over the old definitions |
| LogManagerObject.LoggerManager.Introduce | sylar/log.cpp:437-457 | a new definition's logger is made, configured and registered |
| LogManagerObject.LoggerManager.Modify | sylar/log.cpp:440-455 | a known definition's logger is changed in place and no other is |
| LogManagerObject.LoggerManager.Get | sylar/log.cpp:401-408 | getLogger: the registered logger, else a new one with the root |
| LogManagerObject.Logger.Reconfigure | sylar/log.cpp:442-455 | the appender loop; false where a null appender is dereferenced |
| LogManagerObject.Logger.Add | sylar/log.cpp:89-95 | an appender without a formatter gets the logger's |
| LogManagerObject.Logger.SetPattern | sylar/log.h:163-169 | the pattern is taken exactly when it has no error |
| LogManagerObject.Logger.Write | sylar/log.cpp:49-62 | which appenders write, or that the root, or a null root, is called |

## Left out

- Real epoll, pipes, `fcntl`, sockets, files and reads: foreign calls. Only the interest masks and success or failure of `epoll_ctl` are kept, and what `epoll_wait` reports is an argument.
- `swapcontext`, stacks, thread-local storage, pthread locks and semaphores: a swap is a change of a worker's position and a fiber's state, and a locked region is one step. A dispatched report is atomic on its descriptor although `idle` takes no lock there.
- Delivery of wakeups through `tickle`: `hasIdleThreads` is always true (scheduler.h:116), so no liveness that depends on it is claimed. `tickel_me_` (scheduler.cpp:104) only feeds `tickle`.
- That no armed event remains when all workers have left: the last fiber may arm one after every idle fiber has ended.
- The caller's own thread as a worker, `call`, `back` and restarting after `stop`: not wired up in scheduler.cpp:176-199. A worker's index stands for its thread id.
- The idle fiber's own round is reduced to check, dispatch and yield; what `IOManager::stopping` adds to the base test is an argument of that step.
- Fibers, callbacks and timers are numbered; their destruction, reference counts and the reuse of an address are not modelled.
- Copies of `timers_` made for readers: `cancel`, `reset` and `refresh` change the shared set without the uniqueness check, and `cancel` and `refresh` (timer.cpp:23-34, 54-66) hold only the timer's own mutex while they do, so that they can race with the manager. The model makes each of them one atomic step. `getNextTImer` is one atomic read.
- `addContionTimer` (timer.cpp:121-124): it neither inserts nor returns its timer.
- `Timer::reset` reaches the end of a non-void function on one path (timer.cpp:51); what its caller then sees is not modelled.
- What `std::set` does under the comparator as written: outside the sets named by `WrittenOrderIsWeakIff` it is undefined, so only the comparison itself is studied.
- Event arguments other than READ or WRITE alone, `addEvent` from a thread without a scheduler, and descriptors or table sizes beyond `int`.
- EPOLLET and the bits of HUP and ERR inside interest masks: only the two event bits are compared.
- Reports that arrive for a context which the written growth loop replaced: in the model a report names its descriptor, not a context.
- An assertion that fails, an index out of bounds and a null dereference are all an abort; what the process leaves behind is not described.
- Other callbacks on configuration variables, adding and removing callbacks, YAML and lexical conversions, configuration files: library wrappers.
- Definitions are kept in any order rather than in name order; the results do not depend on it (`ChangeAt`).
- The levels read from text, date formatting, the stream an appender writes to, thread and fiber ids in events: an appender is where and from what level it writes.
- `getLogger` is modelled after the manager has been built, so that its root exists; other code that changes a registered logger directly is not.
- The debug line at log.cpp:435 and the message that `setFormatter` always prints.
