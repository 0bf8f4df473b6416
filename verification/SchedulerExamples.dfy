/** Concrete runs: each shows that a hypothesis of SchedulerTheorems, or a correction of a line, cannot be dropped. */
module SchedulerExamples {
  import opened Options
  import opened Fibers
  import opened SchedulerModel
  import opened SchedulerInvariants
  import opened SchedulerTheorems

  /** s can be reached by n workers, with no outside producer once stop() has been requested. */
  ghost predicate Reachable(lines: Lines, n: nat, s: Sched) {
    exists states, steps :: Run(lines, n, states, steps) && ProducersStop(states, steps) && states[|steps|] == s
  }

  lemma Begin(lines: Lines, n: nat)
    ensures Reachable(lines, n, Init(n))
  {
    assert Run(lines, n, [Init(n)], []) && ProducersStop([Init(n)], []);
  }

  lemma Then(lines: Lines, n: nat, s: Sched, step: Step)
    requires Reachable(lines, n, s) && Enabled(s, step) && NoLateProducer(s, step)
    ensures Reachable(lines, n, Next(lines, s, step))
  {
    var states, steps :| Run(lines, n, states, steps) && ProducersStop(states, steps) && states[|steps|] == s;
    var states', steps' := states + [Next(lines, s, step)], steps + [step];
    assert Run(lines, n, states', steps') && ProducersStop(states', steps');
    assert states'[|steps'|] == Next(lines, s, step);
  }

  const READY_WORKER := Worker(AtScan, MainFiber, false, INIT)

  function Entry0(t: nat): Entry {
    Entry(FiberTask(0), ANY_THREAD, t)
  }

  /** n workers and one fiber that has been submitted once. */
  function Submitted(ws: seq<Worker>): Sched {
    Sched([Entry0(0)], map[0 := Created(0)], ws, 0, 0, false, false, 1, [], [], [])
  }

  lemma SubmitOne(lines: Lines, n: nat)
    ensures Reachable(lines, n, Submitted(Init(n).workers))
  {
    Begin(lines, n);
    Then(lines, n, Init(n), Outside(Create(0, 0)));
    var s := OutsideNext(Init(n), Create(0, 0));
    Then(lines, n, s, Outside(Submit(FiberTask(0), ANY_THREAD)));
    assert OutsideNext(s, Submit(FiberTask(0), ANY_THREAD)) == Submitted(Init(n).workers);
  }

  // ---------- a few steps at a time ----------

  /** Worker w takes the first entry, whose live fiber it may run, and swaps it in. */
  function Took(s: Sched, w: nat): Sched
    requires w < |s.workers| && s.queue != [] && s.queue[0].task.FiberTask? && s.queue[0].task.id in s.fibers
  {
    var e := s.queue[0];
    s.(queue := s.queue[1..], active := s.active + 1,
       fibers := s.fibers[e.task.id := s.fibers[e.task.id].(state := EXEC)],
       workers := s.workers[w := s.workers[w].(pc := Running(e), current := PoolFiber(e.task.id), isActivate := true)])
  }

  lemma Take(lines: Lines, n: nat, s: Sched, w: nat) returns (s': Sched)
    requires Reachable(lines, n, s) && w < |s.workers| && s.workers[w].pc.AtScan? && s.queue != []
    requires s.queue[0].task.FiberTask? && s.queue[0].task.id in s.fibers && Eligible(s.queue[0], s.fibers, w)
    requires !Ended(s.fibers[s.queue[0].task.id].state)
    ensures s' == Took(s, w) && Reachable(lines, n, s')
  {
    Then(lines, n, s, Scan(w));
    var s1 := ScanNext(lines, s, w);
    assert s1 == s.(queue := s.queue[1..], active := s.active + 1,
                    workers := s.workers[w := s.workers[w].(pc := Picked(s.queue[0]), isActivate := true)]);
    Then(lines, n, s1, Start(w, 0));
    s' := StartNext(s1, w, 0);
    assert s'.workers == Took(s, w).workers;
  }

  /** The state after worker w's fiber has yielded or finished and the worker has counted down. */
  function SliceOver(s: Sched, w: nat, rec: FiberRec): Sched
    requires RunsFiber(s, w)
  {
    var e := s.workers[w].pc.e;
    s.(active := s.active - 1, fibers := s.fibers[e.task.id := rec],
       workers := s.workers[w := s.workers[w].(pc := Settling(e), current := MainFiber)])
  }

  lemma EndSlice(lines: Lines, n: nat, s: Sched, w: nat, a: SliceStep) returns (s': Sched)
    requires Reachable(lines, n, s) && SliceEnabled(s, w, a) && (a == YieldReady || a == Finish(false))
    ensures s' == SliceOver(s, w, if a.YieldReady? then SliceFiber(s, w).(state := READY) else FiberRec(TERM, None))
    ensures Reachable(lines, n, s')
  {
    Then(lines, n, s, Slice(w, a));
    var s1 := SliceNext(s, w, a);
    Then(lines, n, s1, Slice(w, SwapOut));
    var s2 := SliceNext(s1, w, SwapOut);
    Then(lines, n, s2, Slice(w, Decrement));
    s' := SliceNext(s2, w, Decrement);
  }

  lemma Settled(lines: Lines, n: nat, s: Sched, w: nat) returns (s': Sched)
    requires Reachable(lines, n, s) && Enabled(s, Settle(w))
    ensures s' == SettleNext(s, w) && Reachable(lines, n, s')
  {
    Then(lines, n, s, Settle(w));
    s' := SettleNext(s, w);
  }

  // ---------- line 105 ----------

  /** A lone worker that has run its one fiber to the end. */
  function Ran(wk: Worker, finished: seq<nat>): Sched {
    Sched([], map[0 := FiberRec(TERM, None)], [wk], 0, 0, false, false, 1, [], finished, [])
  }

  lemma RunsUntilSettling(lines: Lines)
    ensures Reachable(lines, 1, Ran(SETTLING, []))
  {
    SubmitOne(lines, 1);
    var s := Take(lines, 1, Submitted(Init(1).workers), 0);
    s := EndSlice(lines, 1, s, 0, Finish(false));
    assert s == Ran(SETTLING, []);
  }

  lemma RunsToTheEnd(lines: Lines)
    ensures Reachable(lines, 1, Ran(BUSY_WORKER, [0]))
  {
    RunsUntilSettling(lines);
    var s := Settled(lines, 1, Ran(SETTLING, []), 0);
    assert s == Ran(BUSY_WORKER, [0]);
  }

  /** As written, a worker that has run a fiber entry counts down once more when it finds the queue empty. */
  lemma WrittenFlagMiscounts() returns (s: Sched)
    ensures Reachable(Lines(false), 1, s) && s.active == -1 && !CountersExact(s)
  {
    var lines := Lines(false);
    RunsToTheEnd(lines);
    Then(lines, 1, Ran(BUSY_WORKER, [0]), Scan(0));
    s := Ran(BUSY_WORKER.(pc := NothingPicked), [0]);
    assert s == ScanNext(lines, Ran(BUSY_WORKER, [0]), 0);
    Then(lines, 1, s, EmptyPass(0));
    s := EmptyPassNext(s, 0);
  }

  /** The counters are exact in every state of every run if and only if the flag is reset on each pass. */
  lemma CountersExactIffFlagPerPass(lines: Lines)
    ensures (forall n: nat, states, steps, i ::
               Run(lines, n, states, steps) && 0 <= i < |states| ==> CountersExact(states[i]))
            <==> lines.flagPerPass
  {
    if lines.flagPerPass {
      forall n: nat, states, steps, i | Run(lines, n, states, steps) && 0 <= i < |states|
        ensures CountersExact(states[i])
      {
        CountersAt(n, states, steps, i);
      }
    } else {
      var s := WrittenFlagMiscounts();
      var states, steps :| Run(lines, 1, states, steps) && ProducersStop(states, steps) && states[|steps|] == s;
      assert !CountersExact(states[|steps|]);
    }
  }

  // ---------- the wakeup discipline ----------

  const BUSY_WORKER := Worker(AtScan, MainFiber, true, INIT)
  const SETTLING := Worker(Settling(Entry0(0)), MainFiber, true, INIT)
  const RUNNING := Worker(Running(Entry0(0)), PoolFiber(0), true, INIT)

  function Two(queue: seq<Entry>, st: State, w0: Worker, w1: Worker, active: int, stop: bool, issued: nat): Sched {
    Sched(queue, map[0 := FiberRec(st, Some(0))], [w0, w1], active, 0, stop, stop, issued, [], [], [])
  }

  function Picker(t: nat): Worker {
    READY_WORKER.(pc := Picked(Entry0(t)), isActivate := true)
  }

  lemma SubmittedTwice()
    ensures Reachable(DESIGNED, 2, Two([Entry0(0), Entry0(1)], INIT, READY_WORKER, READY_WORKER, 0, false, 2))
  {
    SubmitOne(DESIGNED, 2);
    Then(DESIGNED, 2, Submitted(Init(2).workers), Outside(Submit(FiberTask(0), ANY_THREAD)));
    assert Two([Entry0(0), Entry0(1)], INIT, READY_WORKER, READY_WORKER, 0, false, 2) ==
           OutsideNext(Submitted(Init(2).workers), Submit(FiberTask(0), ANY_THREAD));
  }

  lemma BothPicked()
    ensures Reachable(DESIGNED, 2, Two([], INIT, Picker(0), Picker(1), 2, false, 2))
  {
    SubmittedTwice();
    var s := Two([Entry0(0), Entry0(1)], INIT, READY_WORKER, READY_WORKER, 0, false, 2);
    Then(DESIGNED, 2, s, Scan(0));
    var s1 := Two([Entry0(1)], INIT, Picker(0), READY_WORKER, 1, false, 2);
    assert s1 == ScanNext(DESIGNED, s, 0);
    Then(DESIGNED, 2, s1, Scan(1));
    assert Two([], INIT, Picker(0), Picker(1), 2, false, 2) == ScanNext(DESIGNED, s1, 1);
  }

  /** Two wakeups outstanding: the fiber runs on two workers. */
  lemma TwoWakeupsRunTwice() returns (s: Sched)
    ensures Reachable(DESIGNED, 2, s) && |s.workers| == 2 && Executes(s.workers[0], 0) && Executes(s.workers[1], 0)
  {
    BothPicked();
    var s1 := Two([], INIT, Picker(0), Picker(1), 2, false, 2);
    Then(DESIGNED, 2, s1, Start(0, 0));
    var s2 := Two([], EXEC, RUNNING, Picker(1), 2, false, 2);
    assert s2 == StartNext(s1, 0, 0);
    Then(DESIGNED, 2, s2, Start(1, 0));
    s := StartNext(s2, 1, 0);
  }

  lemma OneRuns()
    ensures Reachable(DESIGNED, 2, Two([], EXEC, RUNNING, READY_WORKER, 1, false, 1))
  {
    SubmitOne(DESIGNED, 2);
    var s := Submitted(Init(2).workers);
    assert s == Two([Entry0(0)], INIT, READY_WORKER, READY_WORKER, 0, false, 1);
    s := Take(DESIGNED, 2, s, 0);
    assert s == Two([], EXEC, RUNNING, READY_WORKER, 1, false, 1);
  }

  /** A wakeup outstanding at a YieldToReady: another worker enters the fiber before the first has left it. */
  lemma YieldReadyWithWakeupRunsTwice() returns (s: Sched)
    ensures Reachable(DESIGNED, 2, s) && |s.workers| == 2 && Executes(s.workers[0], 0) && Executes(s.workers[1], 0)
  {
    OneRuns();
    s := Two([], EXEC, RUNNING, READY_WORKER, 1, false, 1);
    Then(DESIGNED, 2, s, Wake(0, FiberTask(0), ANY_THREAD));
    s := Two([Entry0(1)], EXEC, RUNNING, READY_WORKER, 1, false, 2);
    Then(DESIGNED, 2, s, Slice(0, YieldReady));
    s := Two([Entry0(1)], READY, RUNNING.(pc := Leaving(Entry0(0))), READY_WORKER, 1, false, 2);
    s := Take(DESIGNED, 2, s, 1);
  }

  const LEAVING := RUNNING.(pc := Leaving(Entry0(0)))

  /** A wakeup of a READY fiber that its worker is about to requeue: the same. */
  lemma WakeBeforeRequeueRunsTwice() returns (s: Sched)
    ensures Reachable(DESIGNED, 2, s) && |s.workers| == 2 && Executes(s.workers[0], 0) && Executes(s.workers[1], 0)
  {
    OneRuns();
    Then(DESIGNED, 2, Two([], EXEC, RUNNING, READY_WORKER, 1, false, 1), Slice(0, YieldReady));
    Then(DESIGNED, 2, Two([], READY, LEAVING, READY_WORKER, 1, false, 1), Outside(Submit(FiberTask(0), ANY_THREAD)));
    s := Take(DESIGNED, 2, Two([Entry0(1)], READY, LEAVING, READY_WORKER, 1, false, 2), 1);
  }

  lemma ResetWhileLeaving()
    ensures Reachable(DESIGNED, 2, Two([], INIT, LEAVING, READY_WORKER, 1, false, 1))
  {
    OneRuns();
    var s := Two([], EXEC, RUNNING, READY_WORKER, 1, false, 1);
    Then(DESIGNED, 2, s, Slice(0, Finish(false)));
    s := SliceNext(s, 0, Finish(false));
    Then(DESIGNED, 2, s, Outside(Reset(0, Some(0))));
    assert OutsideNext(s, Reset(0, Some(0))) == Two([], INIT, LEAVING, READY_WORKER, 1, false, 1);
  }

  /** A reset of a fiber whose worker has not settled it: a second worker enters it before the first has left. */
  lemma EarlyResetRunsTwice() returns (s: Sched)
    ensures Reachable(DESIGNED, 2, s) && |s.workers| == 2 && Executes(s.workers[0], 0) && Executes(s.workers[1], 0)
  {
    ResetWhileLeaving();
    Then(DESIGNED, 2, Two([], INIT, LEAVING, READY_WORKER, 1, false, 1), Outside(Submit(FiberTask(0), ANY_THREAD)));
    s := Take(DESIGNED, 2, Two([Entry0(1)], INIT, LEAVING, READY_WORKER, 1, false, 2), 1);
  }

  // ---------- the window between decrement and requeue ----------

  lemma WindowReached()
    ensures Reachable(DESIGNED, 2, Two([], READY, SETTLING, READY_WORKER, 0, true, 1))
  {
    OneRuns();
    var s := EndSlice(DESIGNED, 2, Two([], EXEC, RUNNING, READY_WORKER, 1, false, 1), 0, YieldReady);
    assert s == Two([], READY, SETTLING, READY_WORKER, 0, false, 1);
    Then(DESIGNED, 2, s, Outside(StopRequested));
    s := OutsideNext(s, StopRequested);
    Then(DESIGNED, 2, s, Outside(StopAnnounced));
    assert OutsideNext(s, StopAnnounced) == Two([], READY, SETTLING, READY_WORKER, 0, true, 1);
  }

  const ENDED_IDLE := Worker(AtScan, MainFiber, false, TERM)

  /** Worker w, at its scan with an empty queue, sees stopping() true and comes back with its idle fiber ended. */
  lemma IdleOnce(s: Sched, w: nat)
    requires Reachable(DESIGNED, 2, s) && w < |s.workers| && s.workers[w].pc.AtScan? && s.workers[w].idle != TERM
    requires Stopping(s)
    ensures Reachable(DESIGNED, 2, s.(workers := s.workers[w := ENDED_IDLE]))
  {
    Then(DESIGNED, 2, s, Scan(w));
    var t := ScanNext(DESIGNED, s, w);
    Then(DESIGNED, 2, t, EmptyPass(w));
    t := EmptyPassNext(t, w);
    Then(DESIGNED, 2, t, Idle(w, Check(true)));
    t := IdleNext(t, w, Check(true));
    Then(DESIGNED, 2, t, Idle(w, Leave));
    t := IdleNext(t, w, Leave);
    assert t == s.(workers := s.workers[w := ENDED_IDLE]);
  }

  /** Worker w, at its scan with nothing eligible and its idle fiber ended, leaves the loop. */
  lemma Leaves(s: Sched, w: nat)
    requires Reachable(DESIGNED, 2, s) && w < |s.workers| && s.workers[w].pc.AtScan? && s.workers[w].idle == TERM
    requires FirstEligible(s.queue, s.fibers, w) == |s.queue|
    ensures Reachable(DESIGNED, 2, s.(workers := s.workers[w := s.workers[w].(pc := Exited, isActivate := false)]))
  {
    Then(DESIGNED, 2, s, Scan(w));
    var t := ScanNext(DESIGNED, s, w);
    Then(DESIGNED, 2, t, EmptyPass(w));
    t := EmptyPassNext(t, w);
    assert t == s.(workers := s.workers[w := s.workers[w].(pc := Exited, isActivate := false)]);
  }

  /** stopping() can be true, and a worker can leave, while a READY fiber is about to go back into the queue. */
  lemma StopsDuringWindow() returns (s: Sched)
    ensures Reachable(DESIGNED, 2, s) && Stopping(s) && |s.workers| == 2
    ensures s.workers[1].pc.Exited? && s.workers[0].pc.Settling? && RunsFiber(s, 0) && SliceFiber(s, 0).state == READY
  {
    WindowReached();
    s := Two([], READY, SETTLING, READY_WORKER, 0, true, 1);
    IdleOnce(s, 1);
    assert s.workers[1 := ENDED_IDLE] == [SETTLING, ENDED_IDLE];
    s := Two([], READY, SETTLING, ENDED_IDLE, 0, true, 1);
    Leaves(s, 1);
    s := s.(workers := s.workers[1 := ENDED_IDLE.(pc := Exited)]);
  }

  /** Worker 1, its idle fiber ended but not gone, takes the READY fiber and reaches the window itself. */
  lemma WindowHandedOver()
    ensures Reachable(DESIGNED, 2, Two([], READY, BUSY_WORKER, SETTLING.(idle := TERM), 0, true, 1))
  {
    WindowReached();
    var s := Two([], READY, SETTLING, READY_WORKER, 0, true, 1);
    IdleOnce(s, 1);
    assert s.workers[1 := ENDED_IDLE] == [SETTLING, ENDED_IDLE];
    s := Settled(DESIGNED, 2, Two([], READY, SETTLING, ENDED_IDLE, 0, true, 1), 0);
    assert s == Two([Entry0(0)], READY, BUSY_WORKER, ENDED_IDLE, 0, true, 1);
    s := Take(DESIGNED, 2, s, 1);
    assert s == Two([], EXEC, BUSY_WORKER, RUNNING.(idle := TERM), 1, true, 1);
    s := EndSlice(DESIGNED, 2, s, 1, YieldReady);
    assert s == Two([], READY, BUSY_WORKER, SETTLING.(idle := TERM), 0, true, 1);
  }

  /** Meanwhile worker 0 sees stopping() and leaves. */
  lemma Handover()
    ensures Reachable(DESIGNED, 2, Two([], READY, ENDED_IDLE.(pc := Exited), SETTLING.(idle := TERM), 0, true, 1))
  {
    WindowHandedOver();
    var s := Two([], READY, BUSY_WORKER, SETTLING.(idle := TERM), 0, true, 1);
    IdleOnce(s, 0);
    assert s.workers[0 := ENDED_IDLE] == [ENDED_IDLE, SETTLING.(idle := TERM)];
    s := Two([], READY, ENDED_IDLE, SETTLING.(idle := TERM), 0, true, 1);
    Leaves(s, 0);
    assert s.workers[0 := ENDED_IDLE.(pc := Exited)] == [ENDED_IDLE.(pc := Exited), SETTLING.(idle := TERM)];
  }

  const GONE := ENDED_IDLE.(pc := Exited)

  lemma PinsToTheGoneWorker()
    ensures Reachable(DESIGNED, 2, Two([Entry(CbTask(9), 0, 1)], EXEC, GONE, RUNNING.(idle := TERM), 1, true, 2))
  {
    Handover();
    var s := Settled(DESIGNED, 2, Two([], READY, GONE, SETTLING.(idle := TERM), 0, true, 1), 1);
    assert s == Two([Entry0(0)], READY, GONE, ENDED_IDLE.(isActivate := true), 0, true, 1);
    s := Take(DESIGNED, 2, s, 1);
    assert s == Two([], EXEC, GONE, RUNNING.(idle := TERM), 1, true, 1);
    Then(DESIGNED, 2, s, Wake(1, CbTask(9), 0));
    assert Push(s, CbTask(9), 0) == Two([Entry(CbTask(9), 0, 1)], EXEC, GONE, RUNNING.(idle := TERM), 1, true, 2);
  }

  /** With pinned work the queue need not drain: the fiber pins a callback to the worker that has left. */
  lemma PinnedWorkIsStranded() returns (s: Sched)
    ensures Reachable(DESIGNED, 2, s) && AllPassed(s) && s.queue == [Entry(CbTask(9), 0, 1)]
  {
    PinsToTheGoneWorker();
    s := Two([Entry(CbTask(9), 0, 1)], EXEC, GONE, RUNNING.(idle := TERM), 1, true, 2);
    s := EndSlice(DESIGNED, 2, s, 1, Finish(false));
    assert s.workers == [GONE, SETTLING.(idle := TERM)];
    s := Settled(DESIGNED, 2, s, 1);
    assert s.workers == [GONE, ENDED_IDLE.(isActivate := true)];
    Leaves(s, 1);
    s := s.(workers := [GONE, GONE]);
  }

  // ---------- late producers ----------

  function Stopped(w0: Worker, w1: Worker): Sched {
    Sched([], map[], [w0, w1], 0, 0, true, true, 0, [], [], [])
  }

  lemma StoppedAtOnce()
    ensures Reachable(DESIGNED, 2, Stopped(READY_WORKER, READY_WORKER))
  {
    Begin(DESIGNED, 2);
    Then(DESIGNED, 2, Init(2), Outside(StopRequested));
    var s := OutsideNext(Init(2), StopRequested);
    Then(DESIGNED, 2, s, Outside(StopAnnounced));
    assert Init(2).workers == [READY_WORKER, READY_WORKER];
  }

  lemma EveryoneLeaves()
    ensures Reachable(DESIGNED, 2, Stopped(GONE, GONE))
  {
    StoppedAtOnce();
    IdleOnce(Stopped(READY_WORKER, READY_WORKER), 0);
    assert [READY_WORKER, READY_WORKER][0 := ENDED_IDLE] == [ENDED_IDLE, READY_WORKER];
    Leaves(Stopped(ENDED_IDLE, READY_WORKER), 0);
    assert [ENDED_IDLE, READY_WORKER][0 := GONE] == [GONE, READY_WORKER];
    IdleOnce(Stopped(GONE, READY_WORKER), 1);
    assert [GONE, READY_WORKER][1 := ENDED_IDLE] == [GONE, ENDED_IDLE];
    Leaves(Stopped(GONE, ENDED_IDLE), 1);
    assert [GONE, ENDED_IDLE][1 := GONE] == [GONE, GONE];
  }

  /** A producer outside the pool that submits after everyone has left: its unpinned entry is never picked. */
  lemma LateWorkIsStranded() returns (states: seq<Sched>, steps: seq<Step>)
    ensures Run(DESIGNED, 2, states, steps) && AllPassed(states[|steps|])
    ensures states[|steps|].queue == [Entry(CbTask(9), ANY_THREAD, 0)]
  {
    EveryoneLeaves();
    var s, late := Stopped(GONE, GONE), Outside(Submit(CbTask(9), ANY_THREAD));
    var states0, steps0 :|
      Run(DESIGNED, 2, states0, steps0) && ProducersStop(states0, steps0) && states0[|steps0|] == s;
    states, steps := states0 + [OutsideNext(s, late.o)], steps0 + [late];
  }
}
