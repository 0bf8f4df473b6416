/** What holds in every state of every run of the scheduler, for any number of workers and any interleaving. */
module SchedulerTheorems {
  import opened Counting
  import opened Options
  import opened Fibers
  import opened SchedulerModel
  import opened SchedulerInvariants

  ghost predicate Run(lines: Lines, n: nat, states: seq<Sched>, steps: seq<Step>) {
    IsRun(lines, states, steps) && StartsAt(states, n)
  }

  /** Callers keep one outstanding wakeup per fiber throughout the run. */
  ghost predicate Disciplined(states: seq<Sched>, steps: seq<Step>) {
    |states| == |steps| + 1
    && forall i :: 0 <= i < |steps| ==> Enabled(states[i], steps[i]) && OneWakeup(states[i], steps[i])
  }

  ghost predicate ProducersStop(states: seq<Sched>, steps: seq<Step>) {
    |states| == |steps| + 1 && forall i :: 0 <= i < |steps| ==> NoLateProducer(states[i], steps[i])
  }

  // ---------- lifting ----------

  lemma {:induction false} StructureAt(lines: Lines, n: nat, states: seq<Sched>, steps: seq<Step>, i: nat)
    requires Run(lines, n, states, steps) && i < |states|
    ensures Structure(states[i]) && |states[i].workers| == n && PinnedAtHome(states[i])
  {
    if i > 0 {
      StructureAt(lines, n, states, steps, i - 1);
      assert Enabled(states[i - 1], steps[i - 1]);
      StructureKept(lines, states[i - 1], steps[i - 1]);
      PinnedKept(lines, states[i - 1], steps[i - 1]);
    }
  }

  lemma {:induction false} ExclusiveAt(lines: Lines, n: nat, states: seq<Sched>, steps: seq<Step>, i: nat)
    requires Run(lines, n, states, steps) && Disciplined(states, steps) && i < |states|
    ensures AllExclusive(states[i])
  {
    if i > 0 {
      ExclusiveAt(lines, n, states, steps, i - 1);
      StructureAt(lines, n, states, steps, i - 1);
      assert Enabled(states[i - 1], steps[i - 1]);
      ExclusiveKept(lines, states[i - 1], steps[i - 1]);
    }
  }

  // ---------- shutdown ----------

  lemma {:induction false} DrainAt(lines: Lines, n: nat, states: seq<Sched>, steps: seq<Step>, i: nat)
    requires Run(lines, n, states, steps) && ProducersStop(states, steps) && n > 0 && i < |states|
    ensures AllPassed(states[i]) ==> OnlyPinnedLeft(states[i])
  {
    StructureAt(lines, n, states, steps, i);
    if i > 0 {
      DrainAt(lines, n, states, steps, i - 1);
      StructureAt(lines, n, states, steps, i - 1);
      assert Enabled(states[i - 1], steps[i - 1]) && NoLateProducer(states[i - 1], steps[i - 1]);
      DrainKept(lines, states[i - 1], steps[i - 1]);
    } else {
      assert !Passed(states[0].workers[0]);
    }
  }

  ghost predicate Unpinned(step: Step) {
    && (step.Wake? ==> step.thread == ANY_THREAD)
    && (step.Outside? && step.o.Submit? ==> step.o.thread == ANY_THREAD)
  }

  ghost predicate EntriesUnpinned(s: Sched) {
    && (forall i :: 0 <= i < |s.queue| ==> s.queue[i].thread == ANY_THREAD)
    && (forall w :: 0 <= w < |s.workers| && Holds(s.workers[w].pc) ==> s.workers[w].pc.e.thread == ANY_THREAD)
  }

  /** A step queues nothing but an entry it was given or one that was held. */
  lemma QueueOrigin(lines: Lines, s: Sched, step: Step, i: nat)
    requires Enabled(s, step) && EntriesUnpinned(s) && Unpinned(step) && i < |Next(lines, s, step).queue|
    ensures Next(lines, s, step).queue[i].thread == ANY_THREAD
  {
    hide StartNext, SliceNext, SettleNext, IdleNext, EmptyPassNext, SliceEnabled, StartEnabled;
    hide MovesOne, KeepsEntry;
    match step
    case EmptyPass(w) => EmptyPassMoves(s, w);
    case Idle(w, a) => IdleMoves(s, w, a);
    case Start(w, newId) => StartMoves(s, w, newId);
    case Slice(w, a) => SliceMoves(s, w, a);
    case Settle(w) => SettleMoves(s, w);
    case _ =>
  }

  lemma UnpinnedKept(lines: Lines, s: Sched, step: Step)
    requires EntriesUnpinned(s) && Enabled(s, step) && Unpinned(step)
    ensures EntriesUnpinned(Next(lines, s, step))
  {
    hide Next;
    var s' := Next(lines, s, step);
    WorkersStay(lines, s, step);
    forall i | 0 <= i < |s'.queue| ensures s'.queue[i].thread == ANY_THREAD {
      QueueOrigin(lines, s, step, i);
    }
    forall w | 0 <= w < |s'.workers| && Holds(s'.workers[w].pc) ensures s'.workers[w].pc.e.thread == ANY_THREAD {
      HeldOrigin(lines, s, step, w);
    }
  }

  lemma {:induction false} UnpinnedAt(lines: Lines, n: nat, states: seq<Sched>, steps: seq<Step>, i: nat)
    requires Run(lines, n, states, steps) && i < |states|
    requires forall j :: 0 <= j < |steps| ==> Unpinned(steps[j])
    ensures EntriesUnpinned(states[i])
  {
    if i > 0 {
      UnpinnedAt(lines, n, states, steps, i - 1);
      assert Enabled(states[i - 1], steps[i - 1]) && Unpinned(steps[i - 1]);
      UnpinnedKept(lines, states[i - 1], steps[i - 1]);
    }
  }

  /** Shutdown drains the queue: once every worker has passed its final empty scan, nobody holds an entry and
      nothing is queued but entries pinned to a thread. */
  lemma ShutdownDrains(lines: Lines, n: nat, states: seq<Sched>, steps: seq<Step>, i: nat)
    requires Run(lines, n, states, steps) && ProducersStop(states, steps) && n > 0 && i < |states|
    requires AllPassed(states[i])
    ensures OnlyPinnedLeft(states[i])
    ensures forall w :: 0 <= w < |states[i].workers| ==> !Holds(states[i].workers[w].pc)
  {
    DrainAt(lines, n, states, steps, i);
    forall w | 0 <= w < |states[i].workers| ensures !Holds(states[i].workers[w].pc) {
      assert Passed(states[i].workers[w]);
    }
  }

  /** With only unpinned work the queue is empty. */
  lemma UnpinnedShutdownDrainsAll(lines: Lines, n: nat, states: seq<Sched>, steps: seq<Step>, i: nat)
    requires Run(lines, n, states, steps) && ProducersStop(states, steps) && n > 0 && i < |states|
    requires AllPassed(states[i]) && forall j :: 0 <= j < |steps| ==> Unpinned(steps[j])
    ensures states[i].queue == []
  {
    var first := if states[i].queue == [] then None else Some(states[i].queue[0]);
    ShutdownDrains(lines, n, states, steps, i);
    UnpinnedAt(lines, n, states, steps, i);
  }

  // ---------- counters ----------

  lemma {:induction false} CountersAt(n: nat, states: seq<Sched>, steps: seq<Step>, i: nat)
    requires Run(DESIGNED, n, states, steps) && i < |states|
    ensures CountersExact(states[i]) && FlagsFit(states[i])
  {
    if i == 0 {
      CountSome(states[0].workers, ActiveWorker);
      CountSome(states[0].workers, IdleWorker);
    } else {
      CountersAt(n, states, steps, i - 1);
      assert Enabled(states[i - 1], steps[i - 1]);
      CountersKept(states[i - 1], steps[i - 1]);
    }
  }

  /** How many of the first i steps went through the branch at line 155. */
  function Miscounted(states: seq<Sched>, steps: seq<Step>, i: nat): nat
    requires i < |states| == |steps| + 1
    requires forall k :: 0 <= k < |steps| ==> Enabled(states[k], steps[k])
  {
    if i == 0 then 0 else Miscounted(states, steps, i - 1) + One(Miscounts(states[i - 1], steps[i - 1]))
  }

  /** Whatever the lines, the active counter falls short by exactly the passes that counted down twice. */
  lemma {:induction false} ExcessAt(lines: Lines, n: nat, states: seq<Sched>, steps: seq<Step>, i: nat)
    requires Run(lines, n, states, steps) && i < |states|
    ensures Excess(states[i]) + Miscounted(states, steps, i) == 0 && IdleExcess(states[i]) == 0
  {
    hide Next, Enabled, Miscounts;
    if i == 0 {
      CountSome(states[0].workers, ActiveWorker);
      CountSome(states[0].workers, IdleWorker);
    } else {
      ExcessAt(lines, n, states, steps, i - 1);
      ExcessStep(lines, states[i - 1], steps[i - 1]);
    }
  }

  lemma {:induction false} NoneMiscounted(states: seq<Sched>, steps: seq<Step>, i: nat)
    requires i < |states| == |steps| + 1
    requires forall k :: 0 <= k < |steps| ==> Enabled(states[k], steps[k])
    ensures Miscounted(states, steps, i) == 0 <==> forall k :: 0 <= k < i ==> !Miscounts(states[k], steps[k])
  {
    hide Enabled, Miscounts;
    if i > 0 {
      NoneMiscounted(states, steps, i - 1);
    }
  }

  /** With the lines written either way, the counters are exact in a state of a run if and only if no pass before it
      found nothing while its flag was still set. A counter once wrong stays wrong. */
  lemma CountersExactIffNoStaleFlag(lines: Lines, n: nat, states: seq<Sched>, steps: seq<Step>, i: nat)
    requires Run(lines, n, states, steps) && i < |states|
    ensures CountersExact(states[i]) <==>
            forall k :: 0 <= k < i ==> !(steps[k].EmptyPass? && states[k].workers[steps[k].w].isActivate)
  {
    hide Next;
    ExcessAt(lines, n, states, steps, i);
    NoneMiscounted(states, steps, i);
    forall k | 0 <= k < i
      ensures Miscounts(states[k], steps[k]) <==> steps[k].EmptyPass? && states[k].workers[steps[k].w].isActivate
    {
      assert Enabled(states[k], steps[k]);
    }
  }

  /** When stopping() is true, the only entries still held are past the decrement and not yet settled. */
  lemma StoppingLeavesOnlySettling(n: nat, states: seq<Sched>, steps: seq<Step>, i: nat, w: nat)
    requires Run(DESIGNED, n, states, steps) && i < |states| && w < |states[i].workers|
    requires Stopping(states[i]) && Holds(states[i].workers[w].pc)
    ensures states[i].workers[w].pc.Settling?
  {
    CountersAt(n, states, steps, i);
    CountSome(states[i].workers, ActiveWorker);
    assert !ActiveWorker(states[i].workers[w]);
  }

  // ---------- tickets ----------

  lemma {:induction false} EveryTicketInOnePlace(lines: Lines, n: nat, states: seq<Sched>, steps: seq<Step>, i: nat,
                                                 t: nat)
    requires Run(lines, n, states, steps) && i < |states|
    ensures Places(states[i], t) == One(t < states[i].issued)
  {
    if i == 0 {
      CountSome(states[0].workers, HolderOf(t));
    } else {
      EveryTicketInOnePlace(lines, n, states, steps, i - 1, t);
      assert Enabled(states[i - 1], steps[i - 1]);
      TicketStep(lines, states[i - 1], steps[i - 1], t);
    }
  }

  // ---------- one worker per fiber ----------

  /** On the fiber's own stack. */
  predicate Executes(wk: Worker, f: nat) {
    (wk.pc.Running? || wk.pc.Leaving?) && wk.pc.e.task == FiberTask(f)
  }

  lemma OneSlicer(s: Sched, v: nat, w: nat, f: nat)
    requires Structure(s) && AllExclusive(s) && v < |s.workers| && w < |s.workers| && InSliceOf(s.workers[v], f)
    ensures InSliceOf(s.workers[w], f) ==> v == w
    ensures f in s.fibers && (s.workers[v].pc.Running? ==> s.fibers[f].state == EXEC)
  {
    assert WorkerFits(s, s.workers[v]);
    assert Exclusive(s, f);
    CountSome(s.workers, RunnerOf(f));
    if s.workers[v].pc.Running? {
      assert RunnerOf(f)(s.workers[v]);
    }
    if v != w && InSliceOf(s.workers[w], f) {
      assert SlicerOf(f)(s.workers[v]) && SlicerOf(f)(s.workers[w]);
      CountTwo(s.workers, SlicerOf(f), if v < w then v else w, if v < w then w else v);
    }
  }

  /** No fiber is on two workers at once, not even between a yield and the end of its slice, and the
      assertions of YieldToReady and YieldToHold hold wherever a fiber can reach them. */
  lemma OneWorkerPerFiber(lines: Lines, n: nat, states: seq<Sched>, steps: seq<Step>, i: nat, v: nat, w: nat, f: nat)
    requires Run(lines, n, states, steps) && Disciplined(states, steps) && i < |states|
    requires v < |states[i].workers| && w < |states[i].workers| && InSliceOf(states[i].workers[v], f)
    ensures InSliceOf(states[i].workers[w], f) ==> v == w
    ensures f in states[i].fibers
    ensures states[i].workers[v].pc.Running? ==> states[i].fibers[f].state == EXEC
  {
    ExclusiveAt(lines, n, states, steps, i);
    StructureAt(lines, n, states, steps, i);
    OneSlicer(states[i], v, w, f);
  }

  // ---------- lifecycle ----------

  predicate Resets(step: Step, f: nat) {
    step.Outside? && step.o.Reset? && step.o.id == f
  }

  /** Some worker is on f's stack that was not there before. */
  predicate Enters(s: Sched, s': Sched, f: nat) {
    exists v :: 0 <= v < |s'.workers| && Executes(s'.workers[v], f) && !(v < |s.workers| && Executes(s.workers[v], f))
  }

  lemma NobodyStarts(s: Sched, w: nat, newId: nat, f: nat)
    requires StartEnabled(s, w, newId) && f in s.fibers && Ended(s.fibers[f].state)
    ensures !Enters(s, StartNext(s, w, newId), f)
  {
  }

  lemma NobodyEntersInSlice(s: Sched, w: nat, a: SliceStep, f: nat)
    requires SliceEnabled(s, w, a)
    ensures !Enters(s, SliceNext(s, w, a), f)
  {
  }

  lemma NobodyEntersElsewhere(lines: Lines, s: Sched, step: Step, f: nat)
    requires Enabled(s, step) && !step.Start? && !step.Slice?
    ensures !Enters(s, Next(lines, s, step), f)
  {
    hide CanUse, Ended, Stopping;
  }

  /** No step takes a worker onto the stack of an ended fiber. */
  lemma NobodyEnters(lines: Lines, s: Sched, step: Step, f: nat)
    requires Enabled(s, step) && f in s.fibers && Ended(s.fibers[f].state)
    ensures !Enters(s, Next(lines, s, step), f)
  {
    hide Enters, ScanNext, StartNext, SliceNext, SettleNext, IdleNext, EmptyPassNext;
    match step
    case Start(w, newId) => NobodyStarts(s, w, newId, f);
    case Slice(w, a) => NobodyEntersInSlice(s, w, a, f);
    case _ => NobodyEntersElsewhere(lines, s, step, f);
  }

  /** Whatever callers do, a step other than a reset leaves an ended fiber ended. */
  lemma EndedStays(lines: Lines, s: Sched, step: Step, f: nat)
    requires Enabled(s, step) && !Resets(step, f) && f in s.fibers && Ended(s.fibers[f].state)
    ensures f in Next(lines, s, step).fibers && Ended(Next(lines, s, step).fibers[f].state)
  {
    hide ScanNext, IdleNext, EmptyPassNext, CanUse;
    match step
    case EmptyPass(w) => EmptyPassMoves(s, w);
    case Idle(w, a) => IdleMoves(s, w, a);
    case Scan(w) => ScanKeepsFibers(lines, s, w);
    case _ =>
  }

  /** In every run an ended fiber stays ended, and no worker enters it, until someone resets it. */
  lemma {:induction false} EndedIsFinal(lines: Lines, n: nat, states: seq<Sched>, steps: seq<Step>, i: nat, j: nat,
                                        f: nat)
    requires Run(lines, n, states, steps) && i <= j < |states|
    requires f in states[i].fibers && Ended(states[i].fibers[f].state)
    requires forall k :: i <= k < j ==> !Resets(steps[k], f)
    ensures f in states[j].fibers && Ended(states[j].fibers[f].state)
    ensures forall k :: i <= k < j ==> !Enters(states[k], states[k + 1], f)
  {
    hide Enters, Next, Enabled;
    if i < j {
      EndedIsFinal(lines, n, states, steps, i, j - 1, f);
      var s, step := states[j - 1], steps[j - 1];
      assert Enabled(s, step) && !Resets(step, f) && states[j - 1 + 1] == Next(lines, s, step);
      EndedStays(lines, s, step, f);
      NobodyEnters(lines, s, step, f);
    }
  }

  lemma EndedSlice(s: Sched, w: nat, a: SliceStep, f: nat)
    requires SliceEnabled(s, w, a) && f in s.fibers && Exclusive(s, f) && Ended(s.fibers[f].state)
    ensures f in SliceNext(s, w, a).fibers && SliceNext(s, w, a).fibers[f] == s.fibers[f]
  {
    CountSome(s.workers, RunnerOf(f));
    assert !RunnerOf(f)(s.workers[w]);
  }

  lemma EndedStart(s: Sched, w: nat, newId: nat, f: nat)
    requires StartEnabled(s, w, newId) && f in s.fibers && Ended(s.fibers[f].state)
    ensures f in StartNext(s, w, newId).fibers && StartNext(s, w, newId).fibers[f] == s.fibers[f]
  {
  }

  lemma EndedStep(lines: Lines, s: Sched, step: Step, f: nat)
    requires AllExclusive(s) && Enabled(s, step) && !Resets(step, f)
    requires f in s.fibers && Ended(s.fibers[f].state)
    ensures f in Next(lines, s, step).fibers && Next(lines, s, step).fibers[f] == s.fibers[f]
  {
    hide ScanNext, StartNext, SliceNext, IdleNext, EmptyPassNext, Exclusive, CanUse;
    assert Exclusive(s, f);
    match step
    case EmptyPass(w) => EmptyPassMoves(s, w);
    case Idle(w, a) => IdleMoves(s, w, a);
    case Slice(w, a) => EndedSlice(s, w, a, f);
    case Start(w, newId) => EndedStart(s, w, newId, f);
    case Scan(w) => ScanKeepsFibers(lines, s, w);
    case _ =>
  }

  /** With one wakeup per fiber, an ended fiber keeps its whole record until someone resets it. */
  lemma {:induction false} EndedKeepsRecord(lines: Lines, n: nat, states: seq<Sched>, steps: seq<Step>, i: nat, j: nat,
                                            f: nat)
    requires Run(lines, n, states, steps) && Disciplined(states, steps) && i <= j < |states|
    requires f in states[i].fibers && Ended(states[i].fibers[f].state)
    requires forall k :: i <= k < j ==> !Resets(steps[k], f)
    ensures f in states[j].fibers && states[j].fibers[f] == states[i].fibers[f]
  {
    hide Next, Enabled, OneWakeup, Exclusive;
    if i < j {
      EndedKeepsRecord(lines, n, states, steps, i, j - 1, f);
      ExclusiveAt(lines, n, states, steps, j - 1);
      assert Enabled(states[j - 1], steps[j - 1]) && !Resets(steps[j - 1], f);
      EndedStep(lines, states[j - 1], steps[j - 1], f);
    }
  }

  /** A fiber in TERM has no callable. */
  ghost predicate TermHasNoCallable(s: Sched) {
    forall f :: f in s.fibers && s.fibers[f].state == TERM ==> s.fibers[f].cb.None?
  }

  lemma TermStep(lines: Lines, s: Sched, step: Step)
    requires TermHasNoCallable(s) && Enabled(s, step)
    ensures TermHasNoCallable(Next(lines, s, step))
  {
    hide ScanNext, IdleNext, EmptyPassNext, CanUse;
    match step
    case EmptyPass(w) => EmptyPassMoves(s, w);
    case Idle(w, a) => IdleMoves(s, w, a);
    case Scan(w) => ScanKeepsFibers(lines, s, w);
    case _ =>
  }

  /** In every state of every run the callable of a fiber that ended normally is gone. */
  lemma {:induction false} CallableDroppedAtEnd(lines: Lines, n: nat, states: seq<Sched>, steps: seq<Step>, i: nat)
    requires Run(lines, n, states, steps) && i < |states|
    ensures TermHasNoCallable(states[i])
  {
    if i > 0 {
      CallableDroppedAtEnd(lines, n, states, steps, i - 1);
      assert Enabled(states[i - 1], steps[i - 1]);
      TermStep(lines, states[i - 1], steps[i - 1]);
    }
  }

  /** Between slices a worker's current fiber is its main fiber, during one it is the fiber it runs. */
  lemma CurrentFiberRestored(lines: Lines, n: nat, states: seq<Sched>, steps: seq<Step>, i: nat, w: nat)
    requires Run(lines, n, states, steps) && i < |states| && w < |states[i].workers|
    ensures var wk := states[i].workers[w];
            && (wk.current == MainFiber <==>
                  !(wk.pc.Running? || wk.pc.Leaving? || wk.pc.IdleChecking? || wk.pc.IdleDispatching?))
            && (forall f :: Executes(wk, f) ==> wk.current == PoolFiber(f))
  {
    StructureAt(lines, n, states, steps, i);
    assert WorkerFits(states[i], states[i].workers[w]);
  }

  // ---------- no overtaking ----------

  predicate IsPick(s: Sched, step: Step)
    requires Enabled(s, step)
  {
    step.Scan? && FirstEligible(s.queue, s.fibers, step.w) < |s.queue|
  }

  /** The scan skips e because its fiber is executing. */
  predicate Blocked(s: Sched, e: Entry) {
    e.task.FiberTask? && e.task.id in s.fibers && s.fibers[e.task.id].state == EXEC
  }

  /** Entry with ticket t is at index k, may run anywhere, and its fiber is not executing. */
  predicate WaitsAt(s: Sched, t: nat, k: nat) {
    k < |s.queue| && s.queue[k].ticket == t && s.queue[k].thread == ANY_THREAD && !Blocked(s, s.queue[k])
  }

  /** The step is a scan that takes the entry with ticket t. */
  predicate PicksTicket(s: Sched, step: Step, t: nat)
    requires Enabled(s, step)
  {
    IsPick(s, step) && s.queue[FirstEligible(s.queue, s.fibers, step.w)].ticket == t
  }

  /** If ticket t is queued, its fiber is not executing. */
  ghost predicate Free(s: Sched, t: nat) {
    forall q :: 0 <= q < |s.queue| && s.queue[q].ticket == t ==> !Blocked(s, s.queue[q])
  }

  /** How many of the first j steps from i on pick an entry. */
  function Picks(states: seq<Sched>, steps: seq<Step>, i: nat, j: nat): nat
    requires i <= j < |states| == |steps| + 1
    requires forall k :: 0 <= k < |steps| ==> Enabled(states[k], steps[k])
  {
    if i == j then 0 else Picks(states, steps, i, j - 1) + One(IsPick(states[j - 1], steps[j - 1]))
  }

  /** A step that does not pick t leaves it where it was, or one place closer for each pick. */
  lemma StepOvertakes(lines: Lines, s: Sched, step: Step, t: nat, k: nat)
    requires Enabled(s, step) && WaitsAt(s, t, k)
    ensures var s' := Next(lines, s, step);
            if IsPick(s, step) && FirstEligible(s.queue, s.fibers, step.w) == k then
              s'.workers[step.w].pc == Picked(s.queue[k])
            else k >= One(IsPick(s, step)) && |s'.queue| > k - One(IsPick(s, step))
                 && s'.queue[k - One(IsPick(s, step))] == s.queue[k]
  {
    if step.Scan? {
      assert Eligible(s.queue[k], s.fibers, step.w);
    }
  }

  ghost predicate Waits(s: Sched, t: nat) {
    exists k: nat :: WaitsAt(s, t, k)
  }

  lemma OnePlaceNearer(lines: Lines, n: nat, states: seq<Sched>, steps: seq<Step>, j: nat, t: nat, k: nat)
    requires Run(lines, n, states, steps) && 0 < j < |states| && WaitsAt(states[j - 1], t, k) && Waits(states[j], t)
    ensures var picks := One(IsPick(states[j - 1], steps[j - 1]));
            picks <= k && WaitsAt(states[j], t, k - picks)
  {
    hide Next;
    var m: nat :| WaitsAt(states[j], t, m);
    var s, step := states[j - 1], steps[j - 1];
    assert Enabled(s, step) && states[j] == Next(lines, s, step);
    StepOvertakes(lines, s, step, t, k);
    WorkersStay(lines, s, step);
    OnlyOnePlace(lines, n, states, steps, j, t, m);
    if step.Scan? {
      assert HolderOf(t)(states[j].workers[step.w]) <==>
             Holds(states[j].workers[step.w].pc) && states[j].workers[step.w].pc.e.ticket == t;
    }
  }

  /** No starvation by overtaking: while an unpinned entry waits, with its fiber off the processors, every pick
      by whichever worker brings it one place nearer. It sees at most as many picks as its index. */
  lemma {:induction false} EveryPickBringsItNearer(lines: Lines, n: nat, states: seq<Sched>, steps: seq<Step>,
                                                   i: nat, j: nat, t: nat, k: nat)
    requires Run(lines, n, states, steps) && i <= j < |states| && WaitsAt(states[i], t, k)
    requires forall m :: i <= m <= j ==> Waits(states[m], t)
    ensures Picks(states, steps, i, j) <= k
    ensures WaitsAt(states[j], t, k - Picks(states, steps, i, j))
  {
    hide Next, Enabled, IsPick;
    if i < j {
      hide WaitsAt, Waits;
      EveryPickBringsItNearer(lines, n, states, steps, i, j - 1, t, k);
      OnePlaceNearer(lines, n, states, steps, j, t, k - Picks(states, steps, i, j - 1));
    }
  }

  lemma PickedOrNearer(lines: Lines, s: Sched, step: Step, t: nat, k: nat)
    requires Enabled(s, step) && WaitsAt(s, t, k) && Free(Next(lines, s, step), t) && !PicksTicket(s, step, t)
    ensures One(IsPick(s, step)) <= k && WaitsAt(Next(lines, s, step), t, k - One(IsPick(s, step)))
  {
    hide Next, Enabled, Blocked;
    StepOvertakes(lines, s, step, t, k);
  }

  lemma {:induction false} PickedOrWaits(lines: Lines, n: nat, states: seq<Sched>, steps: seq<Step>,
                                         i: nat, j: nat, t: nat, k: nat)
    requires Run(lines, n, states, steps) && i <= j < |states| && WaitsAt(states[i], t, k)
    requires forall m :: i <= m <= j ==> Free(states[m], t)
    ensures (exists m :: i <= m < j && PicksTicket(states[m], steps[m], t))
            || (Picks(states, steps, i, j) <= k && WaitsAt(states[j], t, k - Picks(states, steps, i, j)))
  {
    hide Next, Enabled, IsPick, WaitsAt, Free, PicksTicket;
    if i < j {
      PickedOrWaits(lines, n, states, steps, i, j - 1, t, k);
      var s, step := states[j - 1], steps[j - 1];
      if !exists m :: i <= m < j && PicksTicket(states[m], steps[m], t) {
        assert !PicksTicket(s, step, t);
        assert Enabled(s, step) && Free(states[j], t) && states[j] == Next(lines, s, step);
        PickedOrNearer(lines, s, step, t, k - Picks(states, steps, i, j - 1));
      }
    }
  }

  /** An unpinned entry at index k whose fiber is off the processors while it is queued is one of the next k + 1
      entries to be picked. */
  lemma PickedWithin(lines: Lines, n: nat, states: seq<Sched>, steps: seq<Step>, i: nat, j: nat, t: nat, k: nat)
    requires Run(lines, n, states, steps) && i <= j < |states| && WaitsAt(states[i], t, k)
    requires forall m :: i <= m <= j ==> Free(states[m], t)
    requires Picks(states, steps, i, j) > k
    ensures exists m :: i <= m < j && PicksTicket(states[m], steps[m], t)
  {
    PickedOrWaits(lines, n, states, steps, i, j, t, k);
  }

  /** A queued ticket is nowhere else: at no other index and in no worker's hands. */
  lemma OnlyOnePlace(lines: Lines, n: nat, states: seq<Sched>, steps: seq<Step>, i: nat, t: nat, m: nat)
    requires Run(lines, n, states, steps) && i < |states| && m < |states[i].queue| && states[i].queue[m].ticket == t
    ensures forall k :: 0 <= k < |states[i].queue| && states[i].queue[k].ticket == t ==> k == m
    ensures forall w :: 0 <= w < |states[i].workers| ==> !HolderOf(t)(states[i].workers[w])
  {
    var s := states[i];
    EveryTicketInOnePlace(lines, n, states, steps, i, t);
    assert EntryWith(t)(s.queue[m]);
    CountSome(s.queue, EntryWith(t));
    CountSome(s.workers, HolderOf(t));
    forall k | 0 <= k < |s.queue| && s.queue[k].ticket == t ensures k == m {
      if m != k {
        CountTwo(s.queue, EntryWith(t), if m < k then m else k, if m < k then k else m);
      }
    }
  }
}
