/** What a ticket stands for: through every run an entry keeps the task and the thread it was accepted with. */
module SchedulerTickets {
  import opened SchedulerModel
  import opened SchedulerInvariants
  import opened SchedulerTheorems

  /** Some worker holds e. */
  predicate HeldIn(s: Sched, e: Entry) {
    exists w :: 0 <= w < |s.workers| && Holds(s.workers[w].pc) && s.workers[w].pc.e == e
  }

  predicate Present(s: Sched, e: Entry) {
    e in s.queue || HeldIn(s, e)
  }

  /** The step accepts e: a submission of e's task for e's thread, given e's ticket. */
  predicate Accepts(s: Sched, step: Step, e: Entry) {
    && e.ticket == s.issued
    && (|| (step.Outside? && step.o == Submit(e.task, e.thread))
        || (step.Wake? && step.task == e.task && step.thread == e.thread))
  }

  /** The step makes a fiber for the callback of a held entry, and e is that entry with the fiber in its place. */
  predicate Converts(s: Sched, step: Step, e: Entry) {
    && step.Start? && step.w < |s.workers| && s.workers[step.w].pc.Picked? && s.workers[step.w].pc.e.task.CbTask?
    && e == s.workers[step.w].pc.e.(task := FiberTask(step.newId))
  }

  lemma PresentPush(s: Sched, task: Task, thread: int, e: Entry)
    requires Present(Push(s, task, thread), e)
    ensures Present(s, e) || e == Entry(task, thread, s.issued)
  {
    if HeldIn(Push(s, task, thread), e) {
      assert HeldIn(s, e);
    }
  }

  /** Worker w moved: what is held now was held before, or w took it. */
  lemma HeldByMove(s: Sched, s': Sched, w: nat, e: Entry)
    requires w < |s.workers| == |s'.workers| && s'.workers == s.workers[w := s'.workers[w]]
    requires HeldIn(s', e)
    ensures HeldIn(s, e) || (Holds(s'.workers[w].pc) && s'.workers[w].pc.e == e)
  {
    var v :| 0 <= v < |s'.workers| && Holds(s'.workers[v].pc) && s'.workers[v].pc.e == e;
    if v != w {
      assert Holds(s.workers[v].pc) && s.workers[v].pc.e == e;
    }
  }

  lemma PresentScan(lines: Lines, s: Sched, w: nat, e: Entry)
    requires w < |s.workers| && Present(ScanNext(lines, s, w), e)
    ensures Present(s, e)
  {
    var s' := ScanNext(lines, s, w);
    if HeldIn(s', e) {
      HeldByMove(s, s', w, e);
    }
  }

  lemma PresentStart(s: Sched, w: nat, newId: nat, e: Entry)
    requires StartEnabled(s, w, newId) && Present(StartNext(s, w, newId), e)
    ensures Present(s, e) || Converts(s, Start(w, newId), e)
  {
    var s' := StartNext(s, w, newId);
    if HeldIn(s', e) {
      HeldByMove(s, s', w, e);
      assert Holds(s.workers[w].pc);
    }
  }

  lemma PresentMove(s: Sched, s': Sched, w: nat, e: Entry)
    requires MovesOne(s, s', w) && s'.queue == s.queue && Present(s', e)
    requires Holds(s'.workers[w].pc) ==> Holds(s.workers[w].pc) && s'.workers[w].pc.e == s.workers[w].pc.e
    ensures Present(s, e)
  {
    if HeldIn(s', e) {
      HeldByMove(s, s', w, e);
    }
  }

  lemma PresentSettle(s: Sched, w: nat, e: Entry)
    requires RunsFiber(s, w) && Present(SettleNext(s, w), e)
    ensures Present(s, e)
  {
    var s' := SettleNext(s, w);
    assert HeldIn(s, s.workers[w].pc.e);
    if HeldIn(s', e) {
      HeldByMove(s, s', w, e);
    }
  }

  lemma PresentOutside(s: Sched, o: OutsideStep, e: Entry)
    requires OutsideEnabled(s, o) && Present(OutsideNext(s, o), e)
    ensures Present(s, e) || Accepts(s, Outside(o), e)
  {
    if o.Submit? {
      PresentPush(s, o.task, o.thread, e);
    } else if HeldIn(OutsideNext(s, o), e) {
      assert HeldIn(s, e);
    }
  }

  /** An entry that is somewhere was there before as it is, or the step accepted it, or gave its callback a fiber. */
  lemma PresentStep(lines: Lines, s: Sched, step: Step, e: Entry)
    requires Enabled(s, step) && Present(Next(lines, s, step), e)
    ensures Present(s, e) || Accepts(s, step, e) || Converts(s, step, e)
  {
    hide ScanNext, StartNext, SliceNext, SettleNext, IdleNext, EmptyPassNext, OutsideNext, Present, Converts;
    var s' := Next(lines, s, step);
    match step
    case Outside(o) => PresentOutside(s, o, e);
    case Wake(_, task, thread) => PresentPush(s, task, thread, e);
    case Scan(w) => PresentScan(lines, s, w, e);
    case Start(w, newId) => PresentStart(s, w, newId, e);
    case Slice(w, a) => SliceMoves(s, w, a); PresentMove(s, s', w, e);
    case Settle(w) => PresentSettle(s, w, e);
    case EmptyPass(w) => EmptyPassMoves(s, w); PresentMove(s, s', w, e);
    case Idle(w, i) => IdleMoves(s, w, i); PresentMove(s, s', w, e);
  }

  /** One of the first i steps accepted e. */
  ghost predicate AcceptedBefore(states: seq<Sched>, steps: seq<Step>, i: nat, e: Entry)
    requires i < |states| == |steps| + 1
  {
    exists k :: 0 <= k < i && Accepts(states[k], steps[k], e)
  }

  /** One of the first i steps made e out of a callback entry accepted before it. */
  ghost predicate ConvertedBefore(states: seq<Sched>, steps: seq<Step>, i: nat, e: Entry)
    requires i < |states| == |steps| + 1
  {
    exists k :: 0 <= k < i && Converts(states[k], steps[k], e)
                && AcceptedBefore(states, steps, k, states[k].workers[steps[k].w].pc.e)
  }

  lemma AcceptedLater(states: seq<Sched>, steps: seq<Step>, i: nat, e: Entry)
    requires 0 < i < |states| == |steps| + 1
    ensures AcceptedBefore(states, steps, i - 1, e) ==> AcceptedBefore(states, steps, i, e)
    ensures ConvertedBefore(states, steps, i - 1, e) ==> ConvertedBefore(states, steps, i, e)
    ensures Accepts(states[i - 1], steps[i - 1], e) ==> AcceptedBefore(states, steps, i, e)
  {
    hide Accepts, Converts;
  }

  /** A picked callback entry has not been converted: conversion leaves a fiber in it. */
  lemma ConvertedIsFiber(states: seq<Sched>, steps: seq<Step>, i: nat, e: Entry)
    requires i < |states| == |steps| + 1 && e.task.CbTask?
    ensures !ConvertedBefore(states, steps, i, e)
  {
  }

  /** An entry that is queued or held carries the ticket, the thread and the task it was accepted with, except that a
      callback is replaced by the fiber that was made to run it. */
  lemma {:induction false} TicketKeepsItsTask(lines: Lines, n: nat, states: seq<Sched>, steps: seq<Step>, i: nat,
                                              e: Entry)
    requires Run(lines, n, states, steps) && i < |states| && Present(states[i], e)
    ensures AcceptedBefore(states, steps, i, e) || ConvertedBefore(states, steps, i, e)
  {
    hide Next, Enabled, Accepts;
    if i > 0 {
      var s, step := states[i - 1], steps[i - 1];
      assert Enabled(s, step) && states[i - 1 + 1] == Next(lines, s, step);
      hide Present;
      PresentStep(lines, s, step, e);
      AcceptedLater(states, steps, i, e);
      if Present(s, e) {
        TicketKeepsItsTask(lines, n, states, steps, i - 1, e);
      } else if Converts(s, step, e) {
        var e0 := s.workers[step.w].pc.e;
        PickedIsPresent(s, step.w);
        TicketKeepsItsTask(lines, n, states, steps, i - 1, e0);
        ConvertedIsFiber(states, steps, i - 1, e0);
        assert ConvertedBefore(states, steps, i, e);
      }
    }
  }

  lemma PickedIsPresent(s: Sched, w: nat)
    requires w < |s.workers| && s.workers[w].pc.Picked?
    ensures Present(s, s.workers[w].pc.e)
  {
    assert HeldIn(s, s.workers[w].pc.e);
  }
}
