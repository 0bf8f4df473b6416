/** The scheduler and the event table together: fibers that wait for events through addEvent without a callback and
    are woken by what dispatch and cancel schedule (sylar/IOManager.cpp:116-122, 26-31). The table's lines are as
    designed. */
module FiberEvents {
  import opened Counting
  import opened Options
  import opened SchedulerModel
  import opened SchedulerInvariants
  import opened SchedulerTheorems
  import opened SchedulerWakeups
  import T = FdTable
  import TT = FdTableTheorems

  /** `flying` holds the continuations that a trigger has taken out of their slots and not yet given to scheduler(). */
  datatype World = World(s: Sched, t: T.Table, flying: seq<T.Fired>)

  datatype WorldStep =
    | Other(step: Step)                                   // a step of the scheduler
    | Arm(w: nat, fd: nat, e: T.Event, fault: bool)       // the fiber running on w arms an event for itself
    | ArmCallback(fd: nat, e: T.Event, cb: nat, fault: bool)
    | Touch(op: T.Op)                                     // del, cancel, cancelAll or dispatch
    | Deliver(w: nat, k: nat)                             // worker w gives one continuation to scheduler()

  // ---------- how often a fiber is awaited ----------

  predicate WaitsFor(slot: T.Slot, f: nat) {
    slot.cb.None? && slot.fiber == Some(f)
  }

  /** The armed slots of x that wait with fiber f. */
  function Held(f: nat): T.Fd -> nat {
    (x: T.Fd) => One(x.event.read && WaitsFor(x.read, f)) + One(x.event.write && WaitsFor(x.write, f))
  }

  function ResumeOf(f: nat): T.Fired -> bool {
    (x: T.Fired) => x.what == T.Resume(f)
  }

  /** How many events, armed or fired, will wake f. */
  function Awaited(m: World, f: nat): nat {
    Sum(m.t.fds, Held(f)) + Count(m.flying, ResumeOf(f))
  }

  // ---------- steps ----------

  function TaskOf(c: T.Continuation): Task {
    match c
    case Callback(cb) => CbTask(cb)
    case Resume(f) => FiberTask(f)
  }

  predicate RunsSomething(s: Sched, w: nat) {
    w < |s.workers| && s.workers[w].pc.Running? && s.workers[w].pc.e.task.FiberTask?
  }

  predicate WorldEnabled(m: World, step: WorldStep) {
    match step
    case Other(st) => Enabled(m.s, st)
    case Arm(w, _, _, _) => RunsSomething(m.s, w)
    case ArmCallback(_, _, _, _) => true
    case Touch(op) => !op.AddEvent?
    case Deliver(w, k) =>
      k < |m.flying| && w < |m.s.workers| && (m.s.workers[w].pc.Running? || m.s.workers[w].pc.IdleDispatching?)
  }

  /** The table after a call; a failed assertion, which designed lines exclude, leaves it. */
  function After(t: T.Table, o: T.Outcome): T.Table {
    if o.Done? then o.t else t
  }

  function NewlyFired(t: T.Table, t': T.Table): seq<T.Fired> {
    if |t.scheduled| <= |t'.scheduled| then t'.scheduled[|t.scheduled|..] else []
  }

  /** The scheduler() call that delivers one continuation. */
  function WakeOf(m: World, w: nat, k: nat): Step
    requires k < |m.flying|
  {
    Wake(w, TaskOf(m.flying[k].what), ANY_THREAD)
  }

  function WorldNext(lines: Lines, m: World, step: WorldStep): World
    requires WorldEnabled(m, step)
  {
    match step
    case Other(st) => m.(s := Next(lines, m.s, st))
    case Arm(w, fd, e, fault) =>
      m.(t := After(m.t, T.Add(T.DESIGNED, m.t, fd, e, None, m.s.workers[w].pc.e.task.id, fault)))
    case ArmCallback(fd, e, cb, fault) => m.(t := After(m.t, T.Add(T.DESIGNED, m.t, fd, e, Some(cb), 0, fault)))
    case Touch(op) =>
      var t' := After(m.t, T.Apply(T.DESIGNED, m.t, op));
      m.(t := t', flying := m.flying + NewlyFired(m.t, t'))
    case Deliver(w, k) =>
      World(Push(m.s, TaskOf(m.flying[k].what), ANY_THREAD), m.t, m.flying[..k] + m.flying[k + 1..])
  }

  // ---------- what fibers and their callers owe ----------

  /** A fiber arms one event at a time, when nothing else is going to wake it; until the event has woken it nobody else
      does and it leaves by YieldToHold. Other wakeups are disciplined. */
  ghost predicate Obeys(m: World, step: WorldStep)
    requires WorldEnabled(m, step)
  {
    match step
    case Other(st) => OneWakeup(m.s, st) && forall f :: Disturbs(m.s, st, f) ==> Awaited(m, f) == 0
    case Arm(w, _, _, _) =>
      var f := m.s.workers[w].pc.e.task.id;
      Wakeups(m.s, f) == 0 && Awaited(m, f) == 0
    case _ => true
  }

  // ---------- the invariant ----------

  /** An awaited fiber is awaited once, exists, and may be woken now. */
  predicate LinkedTo(m: World, f: nat) {
    Awaited(m, f) <= 1 && (Awaited(m, f) == 1 ==> f in m.s.fibers && MayWake(m.s, f))
  }

  ghost predicate WorldFits(m: World) {
    && Structure(m.s) && AllExclusive(m.s) && TT.Sound(m.t)
    && forall f :: LinkedTo(m, f)
  }

  // ---------- table calls move awaited fibers from slots to flight ----------

  /** Clearing events moves each fiber that waited for them into what is scheduled. */
  lemma ClearMovesFiber(t: T.Table, i: nat, m: T.Mask, f: nat)
    requires TT.CountsFit(t) && i < |t.fds|
    ensures var t' := TT.Clear(t, i, m);
            && t.scheduled <= t'.scheduled
            && Sum(t'.fds, Held(f)) + Count(t'.scheduled, ResumeOf(f)) ==
                 Sum(t.fds, Held(f)) + Count(t.scheduled, ResumeOf(f))
  {
    var x := t.fds[i];
    assert TT.FdFits(x, i);
    SumUpdate(t.fds, i, TT.ClearFd(x, m), Held(f));
    var hit := x.event.And(m);
    var s1 := t.scheduled + (if hit.read then T.Fires(x.read) else []);
    if hit.read {
      CountAppend(t.scheduled, T.Fires(x.read)[0], ResumeOf(f));
    }
    if hit.write {
      CountAppend(s1, T.Fires(x.write)[0], ResumeOf(f));
    }
    assert t.scheduled + [] == t.scheduled && s1 + [] == s1;
  }

  /** t' follows from t by calls that arm nothing: each fiber is awaited at most as often, in slots and in flight. */
  predicate Drains(t: T.Table, t': T.Table, f: nat) {
    && t.scheduled <= t'.scheduled
    && Sum(t'.fds, Held(f)) + Count(t'.scheduled, ResumeOf(f)) <= Sum(t.fds, Held(f)) + Count(t.scheduled, ResumeOf(f))
  }

  lemma {:induction false} BatchDrains(t: T.Table, batch: seq<T.Report>, f: nat)
    requires TT.Sound(t)
    ensures var o := T.DispatchAll(T.DESIGNED, t, batch); o.Done? && TT.Sound(o.t) && Drains(t, o.t, f)
  {
    hide TT.Sound, T.Dispatch, TT.Clear;
    if batch != [] {
      var r := batch[|batch| - 1];
      BatchDrains(t, batch[..|batch| - 1], f);
      var t1 := T.DispatchAll(T.DESIGNED, t, batch[..|batch| - 1]).t;
      TT.DispatchRefinesClear(t1, r);
      if r.Report? && r.fd < |t1.fds| && !r.fault {
        SoundCounts(t1);
        TT.ClearSound(t1, r.fd, TT.Reported(r));
        ClearMovesFiber(t1, r.fd, TT.Reported(r), f);
      }
    }
  }

  lemma SoundCounts(t: T.Table)
    requires TT.Sound(t)
    ensures TT.CountsFit(t)
  {
  }

  lemma DelDrains(t: T.Table, fd: nat, e: T.Event, fault: bool, f: nat)
    requires TT.Sound(t)
    ensures var o := T.Del(T.DESIGNED, t, fd, e, fault); o.Done? && Drains(t, o.t, f)
  {
    hide T.Del;
    TT.DelDesigned(t, fd, e, fault);
    if fd < |t.fds| && t.fds[fd].event.Has(e) && !fault {
      SumUpdate(t.fds, fd, TT.ClearFd(t.fds[fd], T.Only(e)), Held(f));
    }
  }

  lemma TouchDrains(t: T.Table, op: T.Op, f: nat)
    requires TT.Sound(t) && !op.AddEvent?
    ensures var o := T.Apply(T.DESIGNED, t, op); o.Done? && Drains(t, o.t, f)
  {
    hide TT.Sound, T.Del, T.Cancel, T.CancelAll, T.DispatchAll, TT.Clear;
    match op
    case DelEvent(fd, e, fault) => DelDrains(t, fd, e, fault, f);
    case CancelEvent(fd, e, fault) =>
      TT.CancelRefinesClear(t, fd, e, fault);
      SoundCounts(t);
      if fd < |t.fds| {
        ClearMovesFiber(t, fd, T.Only(e), f);
      }
    case CancelAllEvents(fd, fault) =>
      TT.CancelAllRefinesClear(t, fd, fault);
      SoundCounts(t);
      if fd < |t.fds| {
        ClearMovesFiber(t, fd, t.fds[fd].event, f);
      }
    case Batch(batch) => BatchDrains(t, batch, f);
  }

  lemma GrownHolds(t: T.Table, fd: nat, f: nat)
    requires TT.Sound(t)
    ensures Sum(TT.Grown(t, fd).fds, Held(f)) == Sum(t.fds, Held(f))
  {
    var fds := TT.Grown(t, fd).fds;
    if |t.fds| <= fd {
      TT.GrowthKeeps(t, T.GrowTo(T.DESIGNED, fd));
      assert fds == t.fds + fds[|t.fds|..];
      SumConcat(t.fds, fds[|t.fds|..], Held(f));
      SumZero(fds[|t.fds|..], Held(f));
    }
  }

  /** addEvent makes at most the fiber it is given awaited once more, and fires nothing. */
  lemma AddAwaits(t: T.Table, fd: nat, e: T.Event, cb: Option<nat>, current: nat, fault: bool, f: nat)
    requires TT.Sound(t)
    ensures var o := T.Add(T.DESIGNED, t, fd, e, cb, current, fault);
            && o.Done? && TT.Sound(o.t) && o.t.scheduled == t.scheduled
            && Sum(o.t.fds, Held(f)) <= Sum(t.fds, Held(f)) + One(cb.None? && current == f)
  {
    TT.StepSound(t, T.AddEvent(fd, e, cb, current, fault));
    TT.AddDesigned(t, fd, e, cb, current, fault);
    TT.GrownSound(t, fd);
    GrownHolds(t, fd, f);
    var g := TT.Grown(t, fd);
    if !g.fds[fd].event.Has(e) && !fault {
      assert TT.FdFits(g.fds[fd], fd);
      SumUpdate(g.fds, fd, TT.Arm(g, fd, e, cb, current).fds[fd], Held(f));
    }
  }

  // ---------- each step keeps the invariant ----------

  lemma OtherFits(lines: Lines, m: World, step: Step)
    requires WorldFits(m) && Enabled(m.s, step) && Obeys(m, Other(step))
    ensures WorldFits(m.(s := Next(lines, m.s, step)))
  {
    hide Next, Structure, AllExclusive, TT.Sound, MayWake, Disturbs, OneWakeup;
    StructureKept(lines, m.s, step);
    ExclusiveKept(lines, m.s, step);
    forall f ensures LinkedTo(m.(s := Next(lines, m.s, step)), f) {
      assert LinkedTo(m, f);
      if Awaited(m, f) == 1 {
        assert !Disturbs(m.s, step, f);
        MayWakeKept(lines, m.s, step, f);
      }
    }
  }

  lemma ArmFits(lines: Lines, m: World, step: WorldStep)
    requires WorldFits(m) && (step.Arm? || step.ArmCallback?) && WorldEnabled(m, step) && Obeys(m, step)
    ensures WorldFits(WorldNext(lines, m, step))
  {
    hide Structure, AllExclusive, TT.Sound, T.Add;
    var cb := if step.Arm? then None else Some(step.cb);
    var current := if step.Arm? then m.s.workers[step.w].pc.e.task.id else 0;
    if step.Arm? {
      OneSlicer(m.s, step.w, step.w, current);
    }
    AddAwaits(m.t, step.fd, step.e, cb, current, step.fault, 0);
    forall f ensures LinkedTo(WorldNext(lines, m, step), f) {
      assert LinkedTo(m, f);
      AddAwaits(m.t, step.fd, step.e, cb, current, step.fault, f);
    }
  }

  lemma TouchFits(lines: Lines, m: World, op: T.Op)
    requires WorldFits(m) && !op.AddEvent?
    ensures WorldFits(WorldNext(lines, m, Touch(op)))
  {
    hide Structure, AllExclusive, TT.Sound, T.Apply, MayWake;
    TT.StepSound(m.t, op);
    var t' := T.Apply(T.DESIGNED, m.t, op).t;
    forall f ensures LinkedTo(WorldNext(lines, m, Touch(op)), f) {
      assert LinkedTo(m, f);
      TouchDrains(m.t, op, f);
      assert t'.scheduled == m.t.scheduled + NewlyFired(m.t, t');
      CountConcat(m.t.scheduled, NewlyFired(m.t, t'), ResumeOf(f));
      CountConcat(m.flying, NewlyFired(m.t, t'), ResumeOf(f));
    }
  }

  /** The scheduler() call that delivers a continuation can be made and is disciplined. */
  lemma DeliverDisciplined(m: World, w: nat, k: nat)
    requires WorldFits(m) && WorldEnabled(m, Deliver(w, k))
    ensures Enabled(m.s, WakeOf(m, w, k)) && OneWakeup(m.s, WakeOf(m, w, k))
  {
    hide Structure, AllExclusive, TT.Sound, MayWake;
    var c := m.flying[k].what;
    if c.Resume? {
      assert LinkedTo(m, c.fiber);
      assert ResumeOf(c.fiber)(m.flying[k]);
      CountSome(m.flying, ResumeOf(c.fiber));
    }
  }

  lemma DeliverFits(lines: Lines, m: World, w: nat, k: nat)
    requires WorldFits(m) && WorldEnabled(m, Deliver(w, k))
    ensures WorldFits(WorldNext(lines, m, Deliver(w, k)))
  {
    hide Structure, AllExclusive, TT.Sound, MayWake;
    DeliverDisciplined(m, w, k);
    StructureKept(lines, m.s, WakeOf(m, w, k));
    ExclusiveKept(lines, m.s, WakeOf(m, w, k));
    forall f ensures LinkedTo(WorldNext(lines, m, Deliver(w, k)), f) {
      assert LinkedTo(m, f);
      CountRemove(m.flying, k, ResumeOf(f));
      if Awaited(m, f) == 1 && TaskOf(m.flying[k].what) != FiberTask(f) {
        PushKeepsMayWake(m.s, TaskOf(m.flying[k].what), ANY_THREAD, f);
      }
    }
  }

  lemma WorldStepFits(lines: Lines, m: World, step: WorldStep)
    requires WorldFits(m) && WorldEnabled(m, step) && Obeys(m, step)
    ensures WorldFits(WorldNext(lines, m, step))
  {
    hide WorldFits, Obeys;
    match step
    case Other(st) => OtherFits(lines, m, st);
    case Touch(op) => TouchFits(lines, m, op);
    case Deliver(w, k) => DeliverFits(lines, m, w, k);
    case _ => ArmFits(lines, m, step);
  }

  // ---------- runs ----------

  /** A run of n workers and an empty table in which fibers and callers obey. */
  ghost predicate WorldRun(lines: Lines, n: nat, ms: seq<World>, steps: seq<WorldStep>) {
    && |ms| == |steps| + 1 && ms[0] == World(Init(n), T.EMPTY, [])
    && forall i :: 0 <= i < |steps| ==>
         WorldEnabled(ms[i], steps[i]) && Obeys(ms[i], steps[i]) && ms[i + 1] == WorldNext(lines, ms[i], steps[i])
  }

  lemma StartFits(n: nat)
    ensures WorldFits(World(Init(n), T.EMPTY, []))
  {
    TT.EmptySound();
  }

  lemma {:induction false} WorldAt(lines: Lines, n: nat, ms: seq<World>, steps: seq<WorldStep>, i: nat)
    requires WorldRun(lines, n, ms, steps) && i < |ms|
    ensures WorldFits(ms[i])
  {
    hide WorldFits, WorldNext, WorldEnabled, Obeys;
    if i == 0 {
      StartFits(n);
    } else {
      WorldAt(lines, n, ms, steps, i - 1);
      assert ms[i - 1 + 1] == WorldNext(lines, ms[i - 1], steps[i - 1]);
      WorldStepFits(lines, ms[i - 1], steps[i - 1]);
    }
  }

  /** Every scheduler() call made for an event, in any interleaving of workers, is a step the scheduler can take and one
      that keeps the rule of one outstanding wakeup per fiber. */
  lemma EventWakeupsAreDisciplined(lines: Lines, n: nat, ms: seq<World>, steps: seq<WorldStep>, i: nat)
    requires WorldRun(lines, n, ms, steps) && i < |steps| && steps[i].Deliver?
    ensures steps[i].k < |ms[i].flying|
    ensures var wake := WakeOf(ms[i], steps[i].w, steps[i].k);
            Enabled(ms[i].s, wake) && OneWakeup(ms[i].s, wake) && ms[i + 1].s == Next(lines, ms[i].s, wake)
  {
    hide WorldFits;
    WorldAt(lines, n, ms, steps, i);
    assert WorldEnabled(ms[i], steps[i]);
    DeliverDisciplined(ms[i], steps[i].w, steps[i].k);
  }

  /** With events waking fibers too, no fiber is ever on two workers at once. */
  lemma OneWorkerPerFiberWithEvents(lines: Lines, n: nat, ms: seq<World>, steps: seq<WorldStep>, i: nat,
                                    v: nat, w: nat, f: nat)
    requires WorldRun(lines, n, ms, steps) && i < |ms| && v < |ms[i].s.workers| && w < |ms[i].s.workers|
    requires InSliceOf(ms[i].s.workers[v], f) && InSliceOf(ms[i].s.workers[w], f)
    ensures v == w
  {
    WorldAt(lines, n, ms, steps, i);
    OneSlicer(ms[i].s, v, w, f);
  }

  /** A fiber that waits for an event waits for that one alone, and nothing else is queued to wake it. */
  lemma AwaitedOnce(lines: Lines, n: nat, ms: seq<World>, steps: seq<WorldStep>, i: nat, f: nat)
    requires WorldRun(lines, n, ms, steps) && i < |ms| && Awaited(ms[i], f) > 0
    ensures Awaited(ms[i], f) == 1 && f in ms[i].s.fibers && Wakeups(ms[i].s, f) == 0
  {
    WorldAt(lines, n, ms, steps, i);
    assert LinkedTo(ms[i], f);
  }
}
