/** The scheduler as a state machine: N workers, one shared queue, one step per locked region, context
    switch or shared write of Scheduler::run (sylar/scheduler.cpp:87-219, sylar/scheduler.h:24-57). */
module SchedulerModel {
  import opened Options
  import opened Fibers

  /** The thread argument of an entry that any worker may run. */
  const ANY_THREAD := -1

  datatype Task = FiberTask(id: nat) | CbTask(cb: nat)

  /** A queue entry. `ticket` numbers accepted entries; it is bookkeeping that the program does not have. */
  datatype Entry = Entry(task: Task, thread: int, ticket: nat)

  datatype Pc =
    | AtScan                // top of the loop, before the locked scan
    | Picked(e: Entry)      // entry erased and counted active
    | Running(e: Entry)     // on the fiber's own stack
    | Leaving(e: Entry)     // the fiber has decided how it leaves and is about to swap out
    | Back(e: Entry)        // back on the worker's stack, still counted active
    | Settling(e: Entry)    // no longer counted active, entry not yet requeued, parked or forgotten
    | NothingPicked         // the scan found no eligible entry
    | IdleChecking          // in the idle fiber, about to ask stopping()
    | IdleDispatching       // in the idle fiber, stopping() was false
    | IdleLeaving           // about to leave the idle fiber's accounting
    | Exited                // left the loop

  datatype Current = MainFiber | PoolFiber(id: nat) | IdleFiber

  /** A worker's locals: its position, Current_Fiber, the flag is_activate, and its idle fiber's state. */
  datatype Worker = Worker(pc: Pc, current: Current, isActivate: bool, idle: State)

  /** Line 105 of scheduler.cpp declares is_activate outside the loop. As designed it describes one pass. */
  datatype Lines = Lines(flagPerPass: bool)

  const DESIGNED := Lines(true)

  datatype Sched = Sched(
    queue: seq<Entry>,
    fibers: map<nat, FiberRec>,
    workers: seq<Worker>,
    active: int,
    idle: int,
    autoStop: bool,
    stopping: bool,
    issued: nat,          // tickets handed out so far
    parked: seq<nat>,     // tickets whose fiber was left in HOLD
    finished: seq<nat>,   // tickets whose fiber ended
    dropped: seq<nat>)    // tickets picked when their fiber had already ended

  /** What happens outside the pool. */
  datatype OutsideStep =
    | Submit(task: Task, thread: int)           // scheduler()
    | Create(id: nat, cb: nat)                  // a new Fiber
    | Reset(id: nat, newCb: Option<nat>)        // Fiber::reset
    | StopRequested                             // stop() sets auto_stop_
    | StopAnnounced                             // stop() sets stopping_

  /** What happens during one slice of a fiber, on its stack and just after. */
  datatype SliceStep =
    | YieldReady
    | YieldHold
    | Finish(threw: bool)
    | SwapOut
    | Decrement                                 // lines 135 and 146

  /** The idle fiber's round. `quiet` is what an override of stopping() adds to the base test. */
  datatype IdleStep = Check(quiet: bool) | IdleYield | Leave

  datatype Step =
    | Outside(o: OutsideStep)
    | Scan(w: nat)                              // lines 107-129
    | Start(w: nat, newId: nat)                 // line 133: swap in, make a fiber for a callback, or drop
    | Wake(w: nat, task: Task, thread: int)     // scheduler() called by a running fiber or the idle fiber
    | Slice(w: nat, a: SliceStep)
    | Settle(w: nat)                            // lines 136-140 and 148-153
    | EmptyPass(w: nat)                         // lines 155-163
    | Idle(w: nat, i: IdleStep)

  function Init(n: nat): Sched {
    Sched([], map[], seq(n, _ => Worker(AtScan, MainFiber, false, INIT)), 0, 0, false, false, 0, [], [], [])
  }

  /** The base Scheduler::stopping(). */
  predicate Stopping(s: Sched) {
    s.autoStop && s.stopping && s.queue == [] && s.active == 0
  }

  /** The loop's two `continue` tests (lines 113 and 119). */
  predicate Eligible(e: Entry, fibers: map<nat, FiberRec>, w: nat) {
    && (e.thread == ANY_THREAD || e.thread == w)
    && !(e.task.FiberTask? && e.task.id in fibers && fibers[e.task.id].state == EXEC)
  }

  /** Index of the first entry worker w may take, or the queue's length. */
  function FirstEligible(q: seq<Entry>, fibers: map<nat, FiberRec>, w: nat): (k: nat)
    ensures k <= |q|
    ensures forall i :: 0 <= i < k ==> !Eligible(q[i], fibers, w)
    ensures k < |q| ==> Eligible(q[k], fibers, w)
  {
    if q == [] then 0
    else if Eligible(q[0], fibers, w) then 0
    else 1 + FirstEligible(q[1..], fibers, w)
  }

  predicate CanUse(s: Sched, task: Task) {
    task.FiberTask? ==> task.id in s.fibers
  }

  /** The fiber whose slice worker w is in, from swap-in until its entry is settled. */
  predicate InSlice(pc: Pc) {
    pc.Running? || pc.Leaving? || pc.Back? || pc.Settling?
  }

  predicate RunsFiber(s: Sched, w: nat) {
    && w < |s.workers| && InSlice(s.workers[w].pc)
    && s.workers[w].pc.e.task.FiberTask?
    && s.workers[w].pc.e.task.id in s.fibers
  }

  function SliceFiber(s: Sched, w: nat): FiberRec
    requires RunsFiber(s, w)
  {
    s.fibers[s.workers[w].pc.e.task.id]
  }

  predicate OutsideEnabled(s: Sched, o: OutsideStep) {
    match o
    case Submit(task, _) => CanUse(s, task)
    case Create(id, _) => id !in s.fibers
    case Reset(id, _) => id in s.fibers && (s.fibers[id].state == INIT || s.fibers[id].state == TERM)
    case StopRequested => true
    case StopAnnounced => s.autoStop
  }

  /** The EXEC tests are the assertions of YieldToReady and YieldToHold; an empty callable cannot end normally. */
  predicate SliceEnabled(s: Sched, w: nat, a: SliceStep) {
    && RunsFiber(s, w)
    && match a
       case YieldReady => s.workers[w].pc.Running? && SliceFiber(s, w).state == EXEC
       case YieldHold => s.workers[w].pc.Running? && SliceFiber(s, w).state == EXEC
       case Finish(threw) => s.workers[w].pc.Running? && (threw || SliceFiber(s, w).cb.Some?)
       case SwapOut => s.workers[w].pc.Leaving?
       case Decrement => s.workers[w].pc.Back?
  }

  predicate IdleEnabled(pc: Pc, i: IdleStep) {
    match i
    case Check(_) => pc.IdleChecking?
    case IdleYield => pc.IdleDispatching?
    case Leave => pc.IdleLeaving?
  }

  predicate StartEnabled(s: Sched, w: nat, newId: nat) {
    && w < |s.workers| && s.workers[w].pc.Picked? && CanUse(s, s.workers[w].pc.e.task)
    && (s.workers[w].pc.e.task.CbTask? ==> newId !in s.fibers)
  }

  /** When the program can take a step. */
  predicate Enabled(s: Sched, step: Step) {
    match step
    case Outside(o) => OutsideEnabled(s, o)
    case Scan(w) => w < |s.workers| && s.workers[w].pc.AtScan?
    case Start(w, newId) => StartEnabled(s, w, newId)
    case Wake(w, task, _) =>
      && w < |s.workers| && (s.workers[w].pc.Running? || s.workers[w].pc.IdleDispatching?)
      && CanUse(s, task)
    case Slice(w, a) => SliceEnabled(s, w, a)
    case Settle(w) => RunsFiber(s, w) && s.workers[w].pc.Settling?
    case EmptyPass(w) => w < |s.workers| && s.workers[w].pc.NothingPicked?
    case Idle(w, i) => w < |s.workers| && IdleEnabled(s.workers[w].pc, i)
  }

  function Put(s: Sched, w: nat, wk: Worker): Sched
    requires w < |s.workers|
  {
    s.(workers := s.workers[w := wk])
  }

  function Push(s: Sched, task: Task, thread: int): Sched {
    s.(queue := s.queue + [Entry(task, thread, s.issued)], issued := s.issued + 1)
  }

  /** Lines 107-129. */
  function ScanNext(lines: Lines, s: Sched, w: nat): Sched
    requires w < |s.workers|
  {
    var k := FirstEligible(s.queue, s.fibers, w);
    var wk := s.workers[w];
    if k < |s.queue| then
      Put(s.(queue := s.queue[..k] + s.queue[k + 1..], active := s.active + 1),
          w, wk.(pc := Picked(s.queue[k]), isActivate := true))
    else
      Put(s, w, wk.(pc := NothingPicked, isActivate := wk.isActivate && !lines.flagPerPass))
  }

  /** Lines 133-134, 141-145, and 154-157 for an entry whose fiber has already ended. The assignment at 147
      is made here: nobody reads the flag before the next pass. */
  function StartNext(s: Sched, w: nat, newId: nat): Sched
    requires StartEnabled(s, w, newId)
  {
    var wk := s.workers[w];
    var e := wk.pc.e;
    match e.task
    case FiberTask(id) =>
      if !Ended(s.fibers[id].state) then
        Put(s.(fibers := s.fibers[id := s.fibers[id].(state := EXEC)]),
            w, wk.(pc := Running(e), current := PoolFiber(id)))
      else
        Put(s.(active := s.active - 1, dropped := s.dropped + [e.ticket]), w, wk.(pc := AtScan))
    case CbTask(cb) =>
      Put(s.(fibers := s.fibers[newId := Created(cb).(state := EXEC)]),
          w, wk.(pc := Running(e.(task := FiberTask(newId))), current := PoolFiber(newId), isActivate := false))
  }

  /** Lines 136-140: the entry of a READY fiber goes to the back, a fiber that merely swapped out is parked. */
  function SettleNext(s: Sched, w: nat): Sched
    requires RunsFiber(s, w)
  {
    var wk := s.workers[w];
    var e := wk.pc.e;
    var f := SliceFiber(s, w);
    var s' := Put(s, w, wk.(pc := AtScan));
    if f.state == READY then s'.(queue := s.queue + [e])
    else if Ended(f.state) then s'.(finished := s.finished + [e.ticket])
    else s'.(fibers := s.fibers[e.task.id := f.(state := HOLD)], parked := s.parked + [e.ticket])
  }

  /** Lines 155-163, reached with no entry in hand. */
  function EmptyPassNext(s: Sched, w: nat): Sched
    requires w < |s.workers|
  {
    var wk := s.workers[w];
    if wk.isActivate then Put(s.(active := s.active - 1), w, wk.(pc := AtScan))
    else if wk.idle == TERM then Put(s, w, wk.(pc := Exited))
    else Put(s.(idle := s.idle + 1), w, wk.(pc := IdleChecking, current := IdleFiber, idle := EXEC))
  }

  function OutsideNext(s: Sched, o: OutsideStep): Sched
    requires OutsideEnabled(s, o)
  {
    match o
    case Submit(task, thread) => Push(s, task, thread)
    case Create(id, cb) => s.(fibers := s.fibers[id := Created(cb)])
    case Reset(id, newCb) => s.(fibers := s.fibers[id := FiberRec(INIT, newCb)])
    case StopRequested => s.(autoStop := true)
    case StopAnnounced => s.(stopping := true)
  }

  function SliceNext(s: Sched, w: nat, a: SliceStep): Sched
    requires SliceEnabled(s, w, a)
  {
    var wk := s.workers[w];
    var e := wk.pc.e;
    var f := SliceFiber(s, w);
    match a
    case YieldReady =>
      Put(s.(fibers := s.fibers[e.task.id := f.(state := READY)]), w, wk.(pc := Leaving(e)))
    case YieldHold => Put(s, w, wk.(pc := Leaving(e)))
    case Finish(threw) =>
      Put(s.(fibers := s.fibers[e.task.id := Finished(f, threw)]), w, wk.(pc := Leaving(e)))
    case SwapOut => Put(s, w, wk.(pc := Back(e), current := MainFiber))
    case Decrement => Put(s.(active := s.active - 1), w, wk.(pc := Settling(e)))
  }

  function IdleNext(s: Sched, w: nat, i: IdleStep): Sched
    requires w < |s.workers| && IdleEnabled(s.workers[w].pc, i)
  {
    var wk := s.workers[w];
    match i
    case Check(quiet) =>
      if Stopping(s) && quiet then Put(s, w, wk.(pc := IdleLeaving, current := MainFiber, idle := TERM))
      else Put(s, w, wk.(pc := IdleDispatching))
    case IdleYield => Put(s, w, wk.(pc := IdleLeaving, current := MainFiber))
    case Leave => Put(s.(idle := s.idle - 1), w, wk.(pc := AtScan))
  }

  function Next(lines: Lines, s: Sched, step: Step): Sched
    requires Enabled(s, step)
  {
    match step
    case Outside(o) => OutsideNext(s, o)
    case Scan(w) => ScanNext(lines, s, w)
    case Start(w, newId) => StartNext(s, w, newId)
    case Wake(_, task, thread) => Push(s, task, thread)
    case Slice(w, a) => SliceNext(s, w, a)
    case Settle(w) => SettleNext(s, w)
    case EmptyPass(w) => EmptyPassNext(s, w)
    case Idle(w, i) => IdleNext(s, w, i)
  }

  /** A finite run: states[0] --steps[0]--> states[1] --> ... */
  ghost predicate IsRun(lines: Lines, states: seq<Sched>, steps: seq<Step>) {
    && |states| == |steps| + 1
    && forall i :: 0 <= i < |steps| ==>
         Enabled(states[i], steps[i]) && states[i + 1] == Next(lines, states[i], steps[i])
  }

  ghost predicate StartsAt(states: seq<Sched>, n: nat) {
    states != [] && states[0] == Init(n)
  }
}
