/** A fiber that may be woken stays so until it is woken or yields to ready. */
module SchedulerWakeups {
  import opened Counting
  import opened Fibers
  import opened SchedulerModel
  import opened SchedulerInvariants

  /** The step wakes f, or lets it yield to ready. */
  predicate Disturbs(s: Sched, step: Step, f: nat) {
    || (step.Outside? && step.o.Submit? && step.o.task == FiberTask(f))
    || (step.Wake? && step.task == FiberTask(f))
    || (step.Slice? && step.a.YieldReady? && step.w < |s.workers| && Holds(s.workers[step.w].pc)
        && s.workers[step.w].pc.e.task == FiberTask(f))
  }

  lemma PushKeepsMayWake(s: Sched, task: Task, thread: int, f: nat)
    requires f in s.fibers && MayWake(s, f) && task != FiberTask(f)
    ensures MayWake(Push(s, task, thread), f)
  {
    CountAppend(s.queue, Entry(task, thread, s.issued), EntryOf(f));
  }

  lemma OutsideKeepsMayWake(s: Sched, o: OutsideStep, f: nat)
    requires OutsideEnabled(s, o) && f in s.fibers && MayWake(s, f) && !Disturbs(s, Outside(o), f)
    ensures f in OutsideNext(s, o).fibers && MayWake(OutsideNext(s, o), f)
  {
    if o.Submit? {
      PushKeepsMayWake(s, o.task, o.thread, f);
    }
  }

  lemma ScanKeepsMayWake(lines: Lines, s: Sched, w: nat, f: nat)
    requires Enabled(s, Scan(w)) && f in s.fibers && MayWake(s, f)
    ensures f in ScanNext(lines, s, w).fibers && MayWake(ScanNext(lines, s, w), f)
  {
    if FirstEligible(s.queue, s.fibers, w) < |s.queue| {
      ScanKeepsWakeups(lines, s, w, f);
    } else {
      hide MayWake;
      MoveKeepsMayWake(s, ScanNext(lines, s, w), w, f);
    }
  }

  /** No worker has just picked an entry for a fiber that may be woken. */
  lemma NotPicked(s: Sched, w: nat, f: nat)
    requires f in s.fibers && MayWake(s, f) && w < |s.workers|
    ensures !PickerOf(f)(s.workers[w])
  {
    CountSome(s.workers, PickerOf(f));
  }

  /** Worker w moved without picking or entering f, and f is not READY where it was not. */
  lemma MoveKeepsMayWake(s: Sched, s': Sched, w: nat, f: nat)
    requires w < |s.workers| == |s'.workers| && s'.workers == s.workers[w := s'.workers[w]]
    requires f in s.fibers && MayWake(s, f) && Count(s'.queue, EntryOf(f)) == Count(s.queue, EntryOf(f))
    requires f in s'.fibers && (s'.fibers[f].state == READY ==> s.fibers[f].state == READY)
    requires !PickerOf(f)(s'.workers[w]) && (InSliceOf(s'.workers[w], f) ==> InSliceOf(s.workers[w], f))
    ensures MayWake(s', f)
  {
    WorkerCounts(s, w, s'.workers[w], f);
  }

  lemma StartKeepsMayWake(s: Sched, w: nat, newId: nat, f: nat)
    requires StartEnabled(s, w, newId) && f in s.fibers && MayWake(s, f)
    ensures f in StartNext(s, w, newId).fibers && MayWake(StartNext(s, w, newId), f)
  {
    hide MayWake;
    NotPicked(s, w, f);
    assert s.workers[w].pc.e.task != FiberTask(f);
    MoveKeepsMayWake(s, StartNext(s, w, newId), w, f);
  }

  lemma SliceKeepsMayWake(s: Sched, w: nat, a: SliceStep, f: nat)
    requires SliceEnabled(s, w, a) && f in s.fibers && MayWake(s, f) && !Disturbs(s, Slice(w, a), f)
    ensures f in SliceNext(s, w, a).fibers && MayWake(SliceNext(s, w, a), f)
  {
    hide MayWake;
    MoveKeepsMayWake(s, SliceNext(s, w, a), w, f);
  }

  /** A fiber that may be woken is not in a slice that will requeue it. */
  lemma NotRequeued(s: Sched, w: nat, f: nat)
    requires Enabled(s, Settle(w)) && f in s.fibers && MayWake(s, f) && s.workers[w].pc.e.task == FiberTask(f)
    ensures s.fibers[f].state != READY
  {
    CountSome(s.workers, SlicerOf(f));
    assert SlicerOf(f)(s.workers[w]);
  }

  lemma SettleKeepsMayWake(s: Sched, w: nat, f: nat)
    requires Enabled(s, Settle(w)) && f in s.fibers && MayWake(s, f)
    ensures f in SettleNext(s, w).fibers && MayWake(SettleNext(s, w), f)
  {
    hide MayWake;
    var e := s.workers[w].pc.e;
    CountAppend(s.queue, e, EntryOf(f));
    if e.task == FiberTask(f) {
      NotRequeued(s, w, f);
    }
    MoveKeepsMayWake(s, SettleNext(s, w), w, f);
  }

  /** Whatever happens to a fiber that may be woken, it still may be, unless it is woken or yields to ready. */
  lemma MayWakeKept(lines: Lines, s: Sched, step: Step, f: nat)
    requires Enabled(s, step) && f in s.fibers && MayWake(s, f) && !Disturbs(s, step, f)
    ensures f in Next(lines, s, step).fibers && MayWake(Next(lines, s, step), f)
  {
    hide ScanNext, StartNext, SliceNext, SettleNext, IdleNext, EmptyPassNext, OutsideNext, MayWake;
    var s' := Next(lines, s, step);
    match step
    case Outside(o) => OutsideKeepsMayWake(s, o, f);
    case Wake(_, task, thread) => PushKeepsMayWake(s, task, thread, f);
    case Scan(w) => ScanKeepsMayWake(lines, s, w, f);
    case Start(w, newId) => StartKeepsMayWake(s, w, newId, f);
    case Slice(w, a) => SliceKeepsMayWake(s, w, a, f);
    case Settle(w) => SettleKeepsMayWake(s, w, f);
    case EmptyPass(w) => EmptyPassMoves(s, w); MoveKeepsMayWake(s, s', w, f);
    case Idle(w, i) => IdleMoves(s, w, i); MoveKeepsMayWake(s, s', w, f);
  }
}
