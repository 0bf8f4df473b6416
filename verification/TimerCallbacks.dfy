/** Which deliveries carry no callback: those of timers added without one or, as line 57 of timer.cpp is written,
    refreshed while in the set. */
module TimerCallbacks {
  import opened TimerSet
  import opened TimerTheorems

  /** The step adds timer id without a callback, or drops its callback and leaves it in the set. */
  predicate Empties(lines: Lines, m: Manager, op: Op, id: nat) {
    || (op.AddTimer? && op.id == id && op.cb.None? && id !in m.recs)
    || (op.RefreshTimer? && op.id == id && id in m.order && !lines.refreshKeeps)
  }

  /** What a step means for the callback of a timer that is in the set after it. */
  predicate KeepsOrEmpties(lines: Lines, m: Manager, op: Op, m': Manager, id: nat) {
    id in m'.order ==>
      && id in m'.recs && (id in m.order || (id !in m.recs && op.AddTimer? && op.id == id))
      && (m'.recs[id].cb.None? <==> (id in m.order && id in m.recs && m.recs[id].cb.None?) || Empties(lines, m, op, id))
  }

  lemma StepKeeps(lines: Lines, m: Manager, op: Op, id: nat)
    requires Fits(m)
    ensures KeepsOrEmpties(lines, m, op, Apply(lines, m, op), id)
  {
    hide Insert, Find, Expire, Taken, Sorted;
    MembersKnown(m);
    match op
    case AddTimer(x, ms, cb, recurring, now) =>
      if x !in m.recs {
        AddEffect(m, x, ms, cb, recurring, now);
      }
    case CancelTimer(x) =>
      if x in m.recs {
        CancelEffect(m, x);
      }
    case ResetTimer(x, ms, fromNow, now) =>
      if x in m.recs {
        ResetEffect(m, x, ms, fromNow, now);
      }
    case RefreshTimer(x, now) =>
      if x in m.recs {
        RefreshEffect(lines, m, x, now);
      }
    case ExpireTimers(now, probe) => ExpireEffect(lines, m, now, probe);
  }

  /** Timers are never forgotten. */
  lemma StepRemembers(lines: Lines, m: Manager, op: Op)
    requires Fits(m)
    ensures m.recs.Keys <= Apply(lines, m, op).recs.Keys
  {
    hide Expire, Insert, Find, Sorted;
    MembersKnown(m);
    match op
    case ExpireTimers(now, probe) => ExpireEffect(lines, m, now, probe);
    case _ =>
  }

  /** One of the first i steps emptied timer id. */
  ghost predicate EmptiedBefore(lines: Lines, states: seq<Manager>, ops: seq<Op>, i: nat, id: nat)
    requires i < |states| == |ops| + 1
  {
    exists k :: 0 <= k < i && Empties(lines, states[k], ops[k], id)
  }

  lemma {:induction false} EmptiedIsKnown(lines: Lines, states: seq<Manager>, ops: seq<Op>, i: nat, id: nat)
    requires IsRun(lines, states, ops) && i < |states|
    ensures EmptiedBefore(lines, states, ops, i, id) ==> id in states[i].recs
  {
    hide Settled;
    if i > 0 {
      EmptiedIsKnown(lines, states, ops, i - 1, id);
      RunSettled(lines, states, ops, i - 1);
      SettledFits(states[i - 1]);
      MembersKnown(states[i - 1]);
      StepRemembers(lines, states[i - 1], ops[i - 1]);
      assert states[i - 1 + 1] == Apply(lines, states[i - 1], ops[i - 1]);
      EmptiedGrows(lines, states, ops, i, id);
    }
  }

  lemma EmptiedGrows(lines: Lines, states: seq<Manager>, ops: seq<Op>, i: nat, id: nat)
    requires 0 < i < |states| == |ops| + 1
    ensures EmptiedBefore(lines, states, ops, i, id) <==>
            EmptiedBefore(lines, states, ops, i - 1, id) || Empties(lines, states[i - 1], ops[i - 1], id)
  {
    hide Empties;
  }

  /** In every state of every run, a timer in the set has no callback if and only if it was added without one or a
      written refresh met it there. */
  lemma {:induction false} SilentIffEmptied(lines: Lines, states: seq<Manager>, ops: seq<Op>, i: nat, id: nat)
    requires IsRun(lines, states, ops) && i < |states| && id in states[i].order
    ensures id in states[i].recs
    ensures states[i].recs[id].cb.None? <==> EmptiedBefore(lines, states, ops, i, id)
  {
    hide Settled, Apply, Empties;
    if i > 0 {
      var m, op := states[i - 1], ops[i - 1];
      RunSettled(lines, states, ops, i - 1);
      SettledFits(m);
      assert states[i - 1 + 1] == Apply(lines, m, op);
      StepKeeps(lines, m, op, id);
      EmptiedGrows(lines, states, ops, i, id);
      EmptiedIsKnown(lines, states, ops, i - 1, id);
      if id in m.order {
        SilentIffEmptied(lines, states, ops, i - 1, id);
      }
    }
  }

  /** A step's deliveries carry the callbacks of timers that were in the set. */
  lemma DeliveredWasInSet(lines: Lines, m: Manager, op: Op, d: nat)
    requires Settled(m) && |m.log| <= d < |Apply(lines, m, op).log|
    ensures var x := Apply(lines, m, op).log[d]; x.id in m.order && x.id in m.recs && x.cb == m.recs[x.id].cb
  {
    hide Settled, Sorted, Expire, Taken;
    SettledFits(m);
    MembersKnown(m);
    if op.ExpireTimers? {
      ExpireEffect(lines, m, op.now, op.probe);
      var taken := m.order[..Taken(lines, m, op.now, op.probe)];
      assert Apply(lines, m, op).log[d] == Deliveries(m.recs, taken, op.now)[d - |m.log|];
      assert taken[d - |m.log|] == m.order[d - |m.log|];
    } else {
      LogStep(lines, m, op);
    }
  }

  /** Delivery d, made by step i of a run, has no callback if and only if its timer was added without one or a written
      refresh met it in the set before that step. */
  lemma EmptyDeliveryIffEmptied(lines: Lines, states: seq<Manager>, ops: seq<Op>, i: nat, d: nat)
    requires IsRun(lines, states, ops) && i < |ops| && |states[i].log| <= d < |states[i + 1].log|
    ensures states[i + 1].log[d].cb.None? <==> EmptiedBefore(lines, states, ops, i, states[i + 1].log[d].id)
  {
    hide Settled, Apply;
    RunSettled(lines, states, ops, i);
    assert states[i + 1] == Apply(lines, states[i], ops[i]);
    DeliveredWasInSet(lines, states[i], ops[i], d);
    SilentIffEmptied(lines, states, ops, i, states[i + 1].log[d].id);
  }

  /** Every addTimer of the run gives a callback. */
  ghost predicate AddsCallbacks(ops: seq<Op>) {
    forall k :: 0 <= k < |ops| && ops[k].AddTimer? ==> ops[k].cb.Some?
  }

  lemma LogOnlyGrows(lines: Lines, m: Manager, op: Op)
    requires Settled(m)
    ensures m.log <= Apply(lines, m, op).log
  {
    hide Settled, Sorted, Expire, Taken;
    SettledFits(m);
    if op.ExpireTimers? {
      ExpireEffect(lines, m, op.now, op.probe);
    } else {
      LogStep(lines, m, op);
    }
  }

  /** With line 57 as designed and every timer added with a callback, no empty callback is ever delivered. */
  lemma {:induction false} EveryDeliveryHasCallback(lines: Lines, states: seq<Manager>, ops: seq<Op>, i: nat, d: nat)
    requires IsRun(lines, states, ops) && lines.refreshKeeps && AddsCallbacks(ops)
    requires i < |states| && d < |states[i].log|
    ensures states[i].log[d].cb.Some?
  {
    hide Settled, Apply;
    if i > 0 {
      RunSettled(lines, states, ops, i - 1);
      assert states[i - 1 + 1] == Apply(lines, states[i - 1], ops[i - 1]);
      LogOnlyGrows(lines, states[i - 1], ops[i - 1]);
      if d < |states[i - 1].log| {
        EveryDeliveryHasCallback(lines, states, ops, i - 1, d);
      } else {
        EmptyDeliveryIffEmptied(lines, states, ops, i - 1, d);
      }
    }
  }
}
