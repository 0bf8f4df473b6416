/** What each step does, in terms of the source's own tests and values, and what that means over runs: which entry a
    worker takes, pinned work included, which callable a fiber runs, and what the lists of tickets stand for. */
module SchedulerEffects {
  import opened Counting
  import opened Options
  import opened Fibers
  import opened SchedulerModel
  import opened SchedulerInvariants
  import opened SchedulerTheorems

  // ---------- the scan ----------

  /** Entry i is for any thread or for w's own, and not for a fiber that is executing. */
  predicate Mine(s: Sched, w: nat, i: nat) {
    && i < |s.queue| && (s.queue[i].thread == -1 || s.queue[i].thread == w)
    && !(&& s.queue[i].task.FiberTask? && s.queue[i].task.id in s.fibers
         && s.fibers[s.queue[i].task.id].state.EXEC?)
  }

  /** Everything but the queue, the active counter and worker w is as it was. */
  predicate OnlyScanned(s: Sched, s': Sched, w: nat) {
    && w < |s.workers| == |s'.workers| && s'.workers == s.workers[w := s'.workers[w]]
    && s' == s.(queue := s'.queue, active := s'.active, workers := s'.workers)
    && s'.workers[w].current == s.workers[w].current && s'.workers[w].idle == s.workers[w].idle
  }

  /** A scan takes the first entry that is the worker's, number k, that one alone, and counts it; when there is none,
      k is the length of the queue and the scan leaves queue and counter alone. */
  lemma ScanTakesFirstMine(lines: Lines, s: Sched, w: nat) returns (k: nat)
    requires Enabled(s, Scan(w))
    ensures k <= |s.queue| && (k < |s.queue| ==> Mine(s, w, k)) && forall i :: 0 <= i < k ==> !Mine(s, w, i)
    ensures var s' := Next(lines, s, Scan(w));
            && OnlyScanned(s, s', w)
            && if k < |s.queue| then
                 && s'.workers[w].pc == Picked(s.queue[k]) && s'.workers[w].isActivate
                 && s'.queue == s.queue[..k] + s.queue[k + 1..] && s'.active == s.active + 1
               else
                 && s'.workers[w].pc == NothingPicked && s'.queue == s.queue && s'.active == s.active
                 && (s'.workers[w].isActivate <==> s.workers[w].isActivate && !lines.flagPerPass)
  {
    k := FirstEligible(s.queue, s.fibers, w);
    forall i: nat | i < |s.queue| ensures Mine(s, w, i) <==> Eligible(s.queue[i], s.fibers, w) {
    }
  }

  // ---------- pinned work is reached ----------

  /** Entry with ticket t is at index k and is worker w's to take. */
  predicate MineAt(s: Sched, w: nat, t: nat, k: nat) {
    Mine(s, w, k) && s.queue[k].ticket == t
  }

  /** The step ends with worker v holding ticket t, just picked. */
  predicate HandsOver(s: Sched, step: Step, s': Sched, v: nat, t: nat) {
    step == Scan(v) && v < |s'.workers| && s'.workers[v].pc.Picked? && s'.workers[v].pc.e.ticket == t
  }

  /** Some worker has just picked ticket t. */
  predicate PickedBySome(s: Sched, step: Step, s': Sched, t: nat) {
    step.Scan? && HandsOver(s, step, s', step.w, t)
  }

  lemma QueueKept(lines: Lines, s: Sched, step: Step)
    requires Enabled(s, step) && !step.Scan?
    ensures s.queue <= Next(lines, s, step).queue
  {
    hide StartNext, SliceNext, SettleNext, IdleNext, EmptyPassNext;
    match step
    case Start(w, newId) => StartMoves(s, w, newId);
    case Slice(w, a) => SliceMoves(s, w, a);
    case Settle(w) => SettleMoves(s, w);
    case EmptyPass(w) => EmptyPassMoves(s, w);
    case Idle(w, i) => IdleMoves(s, w, i);
    case _ =>
  }

  /** The place of an entry that is worker w's: a step hands it over, or leaves it no later than it was, and one place
      earlier at least when the step is a scan of w. */
  lemma ScanBringsNearer(lines: Lines, s: Sched, v: nat, w: nat, t: nat, k: nat)
    requires Enabled(s, Scan(v)) && MineAt(s, w, t, k)
    ensures var s' := Next(lines, s, Scan(v));
            PickedBySome(s, Scan(v), s', t) ||
            exists j :: 0 <= j <= k - One(v == w) && j < |s'.queue| && s'.queue[j] == s.queue[k]
  {
    hide Next, OnlyScanned;
    var i := ScanTakesFirstMine(lines, s, v);
    var s' := Next(lines, s, Scan(v));
    if i < k {
      assert s'.queue[k - 1] == s.queue[k];
    } else if i > k {
      assert v != w;
      assert s'.queue[k] == s.queue[k];
    } else {
      assert s'.workers[v].pc == Picked(s.queue[k]);
    }
  }

  /** If ticket t is queued it is worker w's to take. */
  ghost predicate StaysMine(s: Sched, w: nat, t: nat) {
    forall i :: 0 <= i < |s.queue| && s.queue[i].ticket == t ==> Mine(s, w, i)
  }

  /** How many of the steps from i on scan the queue for w. */
  function Scans(steps: seq<Step>, w: nat, i: nat, j: nat): nat
    requires i <= j <= |steps|
  {
    if i == j then 0 else Scans(steps, w, i, j - 1) + One(steps[j - 1] == Scan(w))
  }

  lemma StepBringsNearer(lines: Lines, s: Sched, step: Step, w: nat, t: nat, k: nat)
    requires Enabled(s, step) && MineAt(s, w, t, k) && StaysMine(Next(lines, s, step), w, t)
    ensures var s' := Next(lines, s, step);
            PickedBySome(s, step, s', t) || exists j :: 0 <= j <= k - One(step == Scan(w)) && MineAt(s', w, t, j)
  {
    hide Next;
    var s' := Next(lines, s, step);
    if step.Scan? {
      ScanBringsNearer(lines, s, step.w, w, t, k);
      if !PickedBySome(s, step, s', t) {
        var j :| 0 <= j <= k - One(step.w == w) && j < |s'.queue| && s'.queue[j] == s.queue[k];
        assert MineAt(s', w, t, j);
      }
    } else {
      QueueKept(lines, s, step);
      assert s'.queue[k] == s.queue[k];
      assert MineAt(s', w, t, k);
    }
  }

  lemma {:induction false} TakenOrNearer(lines: Lines, n: nat, states: seq<Sched>, steps: seq<Step>, i: nat, j: nat,
                                         w: nat, t: nat, k: nat)
    requires Run(lines, n, states, steps) && i <= j < |states| && MineAt(states[i], w, t, k)
    requires forall m :: i <= m <= j ==> StaysMine(states[m], w, t)
    ensures (exists m :: i <= m < j && PickedBySome(states[m], steps[m], states[m + 1], t))
            || exists q :: 0 <= q <= k - Scans(steps, w, i, j) && MineAt(states[j], w, t, q)
  {
    hide Next, Enabled, MineAt, StaysMine, PickedBySome;
    if i < j {
      TakenOrNearer(lines, n, states, steps, i, j - 1, w, t, k);
      if !exists m :: i <= m < j - 1 && PickedBySome(states[m], steps[m], states[m + 1], t) {
        var q :| 0 <= q <= k - Scans(steps, w, i, j - 1) && MineAt(states[j - 1], w, t, q);
        assert Enabled(states[j - 1], steps[j - 1]) && states[j - 1 + 1] == Next(lines, states[j - 1], steps[j - 1]);
        StepBringsNearer(lines, states[j - 1], steps[j - 1], w, t, q);
        if !PickedBySome(states[j - 1], steps[j - 1], states[j - 1 + 1], t) {
          var r :| 0 <= r <= q - One(steps[j - 1] == Scan(w)) && MineAt(states[j], w, t, r);
        }
      }
    }
  }

  /** Pinned work is reached: an entry at index k that is worker w's, whether pinned to it or not, and stays so while it
      is queued, has been picked by the time w has scanned the queue k + 1 times. */
  lemma PickedWithinOwnScans(lines: Lines, n: nat, states: seq<Sched>, steps: seq<Step>, i: nat, j: nat,
                             w: nat, t: nat, k: nat)
    requires Run(lines, n, states, steps) && i <= j < |states| && MineAt(states[i], w, t, k)
    requires forall m :: i <= m <= j ==> StaysMine(states[m], w, t)
    requires Scans(steps, w, i, j) > k
    ensures exists m :: i <= m < j && PickedBySome(states[m], steps[m], states[m + 1], t)
  {
    TakenOrNearer(lines, n, states, steps, i, j, w, t, k);
  }

  /** If ticket t is queued, it is pinned to worker w and w may take it. */
  ghost predicate StaysPinned(s: Sched, w: nat, t: nat) {
    forall i :: 0 <= i < |s.queue| && s.queue[i].ticket == t ==> Mine(s, w, i) && s.queue[i].thread == w
  }

  lemma PickedByOwner(lines: Lines, s: Sched, step: Step, w: nat, t: nat)
    requires Enabled(s, step) && StaysPinned(s, w, t) && PickedBySome(s, step, Next(lines, s, step), t)
    ensures step == Scan(w)
  {
    hide Next, OnlyScanned;
    var k := ScanTakesFirstMine(lines, s, step.w);
    assert k < |s.queue| ==> s.queue[k].ticket == t;
  }

  /** An entry pinned to worker w at index k is picked, by w itself, by the time w has scanned the queue k + 1 times. */
  lemma PinnedPickedWithin(lines: Lines, n: nat, states: seq<Sched>, steps: seq<Step>, i: nat, j: nat,
                           w: nat, t: nat, k: nat)
    requires Run(lines, n, states, steps) && i <= j < |states| && MineAt(states[i], w, t, k)
    requires forall m :: i <= m <= j ==> StaysPinned(states[m], w, t)
    requires Scans(steps, w, i, j) > k
    ensures exists m :: i <= m < j && steps[m] == Scan(w) && PickedBySome(states[m], steps[m], states[m + 1], t)
  {
    hide Next, Enabled, MineAt, PickedBySome;
    PickedWithinOwnScans(lines, n, states, steps, i, j, w, t, k);
    var m :| i <= m < j && PickedBySome(states[m], steps[m], states[m + 1], t);
    assert Enabled(states[m], steps[m]) && states[m + 1] == Next(lines, states[m], steps[m]);
    PickedByOwner(lines, states[m], steps[m], w, t);
  }

  // ---------- the start of a slice ----------

  /** Lines 133-145 and 154-157: a live fiber runs, with the callable it had; a callback gets a new fiber that runs it;
      the entry of an ended fiber is dropped. */
  lemma StartEffect(lines: Lines, s: Sched, w: nat, newId: nat)
    requires Enabled(s, Start(w, newId))
    ensures var s', e := Next(lines, s, Start(w, newId)), s.workers[w].pc.e;
            && s'.queue == s.queue && |s'.workers| == |s.workers|
            && (forall v :: 0 <= v < |s.workers| && v != w ==> s'.workers[v] == s.workers[v])
            && s'.workers[w].idle == s.workers[w].idle
            && s'.workers[w].isActivate == (s.workers[w].isActivate && e.task.FiberTask?)
            && match e.task
               case CbTask(c) =>
                 && s'.fibers == s.fibers[newId := FiberRec(EXEC, Some(c))] && s'.active == s.active
                 && s'.workers[w].pc == Running(Entry(FiberTask(newId), e.thread, e.ticket))
                 && s'.workers[w].current == PoolFiber(newId) && s'.dropped == s.dropped
               case FiberTask(f) =>
                 if s.fibers[f].state == TERM || s.fibers[f].state == EXCET then
                   && s'.fibers == s.fibers && s'.active == s.active - 1
                   && s'.workers[w].pc == AtScan && s'.dropped == s.dropped + [e.ticket]
                 else
                   && s'.fibers == s.fibers[f := FiberRec(EXEC, s.fibers[f].cb)] && s'.active == s.active
                   && s'.workers[w].pc == Running(e)
                   && s'.workers[w].current == PoolFiber(f) && s'.dropped == s.dropped
  {
  }

  // ---------- the end of a slice ----------

  /** Lines 136-140: the entry of a READY fiber goes to the back of the queue, unchanged; an ended fiber is finished;
      any other is put in HOLD and parked. Nobody else's fiber is touched. */
  lemma SettleEffect(lines: Lines, s: Sched, w: nat)
    requires Enabled(s, Settle(w))
    ensures var s', e := Next(lines, s, Settle(w)), s.workers[w].pc.e;
            var f := e.task.id;
            && s'.workers == s.workers[w := s.workers[w].(pc := AtScan)]
            && (s.fibers[f].state == READY ==>
                  && s'.queue == s.queue + [e] && s'.fibers == s.fibers
                  && s'.finished == s.finished && s'.parked == s.parked)
            && (s.fibers[f].state == TERM || s.fibers[f].state == EXCET ==>
                  && s'.queue == s.queue && s'.fibers == s.fibers
                  && s'.finished == s.finished + [e.ticket] && s'.parked == s.parked)
            && (s.fibers[f].state == INIT || s.fibers[f].state == HOLD || s.fibers[f].state == EXEC ==>
                  && s'.queue == s.queue && s'.fibers == s.fibers[f := FiberRec(HOLD, s.fibers[f].cb)]
                  && s'.finished == s.finished && s'.parked == s.parked + [e.ticket])
            && s'.dropped == s.dropped && s'.active == s.active && s'.idle == s.idle
  {
  }

  /** The fiber of the entry worker w holds is in a state that p allows. */
  predicate HeldWith(s: Sched, w: nat, t: nat, p: State -> bool) {
    && w < |s.workers| && Holds(s.workers[w].pc) && s.workers[w].pc.e.ticket == t
    && s.workers[w].pc.e.task.FiberTask? && s.workers[w].pc.e.task.id in s.fibers
    && p(s.fibers[s.workers[w].pc.e.task.id].state)
  }

  const HAS_ENDED := (st: State) => st == TERM || st == EXCET
  const SWAPPED_OUT := (st: State) => st != TERM && st != EXCET && st != READY

  /** The step settles ticket t with its fiber ended, settles it with its fiber merely swapped out, or meets its fiber
      already ended. */
  predicate Finishes(s: Sched, step: Step, t: nat) {
    step.Settle? && HeldWith(s, step.w, t, HAS_ENDED)
  }

  predicate Parks(s: Sched, step: Step, t: nat) {
    step.Settle? && HeldWith(s, step.w, t, SWAPPED_OUT)
  }

  predicate Drops(s: Sched, step: Step, t: nat) {
    step.Start? && HeldWith(s, step.w, t, HAS_ENDED)
  }

  /** The steps outside slices touch no list, and no fiber but the one they create or reset. */
  lemma OtherStepsKeep(lines: Lines, s: Sched, step: Step)
    requires Enabled(s, step) && !step.Settle? && !step.Start? && !step.Slice?
    ensures var s' := Next(lines, s, step);
            && s'.finished == s.finished && s'.parked == s.parked && s'.dropped == s.dropped
            && s'.fibers == if step.Outside? then OutsideNext(s, step.o).fibers else s.fibers
  {
    hide CanUse, Ended, Stopping;
  }

  lemma ListsGrow(lines: Lines, s: Sched, step: Step, t: nat)
    requires Enabled(s, step)
    ensures var s' := Next(lines, s, step);
            && (t in s'.finished <==> t in s.finished || Finishes(s, step, t))
            && (t in s'.parked <==> t in s.parked || Parks(s, step, t))
            && (t in s'.dropped <==> t in s.dropped || Drops(s, step, t))
  {
    hide Next;
    match step
    case Settle(w) => SettleEffect(lines, s, w);
    case Start(w, newId) => StartLists(lines, s, w, newId);
    case Slice(w, a) => SliceEffect(lines, s, w, a);
    case _ => OtherStepsKeep(lines, s, step);
  }

  lemma StartLists(lines: Lines, s: Sched, w: nat, newId: nat)
    requires Enabled(s, Start(w, newId))
    ensures var s', e := Next(lines, s, Start(w, newId)), s.workers[w].pc.e;
            && s'.finished == s.finished && s'.parked == s.parked
            && s'.dropped == s.dropped + if HeldWith(s, w, e.ticket, HAS_ENDED) then [e.ticket] else []
  {
    StartEffect(lines, s, w, newId);
  }

  /** In every run a ticket is finished, parked or dropped exactly when a step met its fiber ended at the end of its
      slice, swapped out in a state that is neither ended nor READY, or already ended when it was picked. */
  lemma {:induction false} ListsMean(lines: Lines, n: nat, states: seq<Sched>, steps: seq<Step>, i: nat, t: nat)
    requires Run(lines, n, states, steps) && i < |states|
    ensures t in states[i].finished <==> exists k :: 0 <= k < i && Finishes(states[k], steps[k], t)
    ensures t in states[i].parked <==> exists k :: 0 <= k < i && Parks(states[k], steps[k], t)
    ensures t in states[i].dropped <==> exists k :: 0 <= k < i && Drops(states[k], steps[k], t)
  {
    hide Next, Enabled, Finishes, Parks, Drops;
    if i > 0 {
      ListsMean(lines, n, states, steps, i - 1, t);
      assert Enabled(states[i - 1], steps[i - 1]) && states[i - 1 + 1] == Next(lines, states[i - 1], steps[i - 1]);
      ListsGrow(lines, states[i - 1], steps[i - 1], t);
    }
  }

  // ---------- during a slice ----------

  /** The fiber's own steps: YieldToReady marks it READY, YieldToHold leaves its state, a normal end gives TERM and
      drops the callable, a throw gives EXCET and keeps it; the other two steps leave every fiber alone. */
  lemma SliceEffect(lines: Lines, s: Sched, w: nat, a: SliceStep)
    requires Enabled(s, Slice(w, a))
    ensures var s', f := Next(lines, s, Slice(w, a)), s.workers[w].pc.e.task.id;
            && s'.queue == s.queue && s'.active == s.active - One(a.Decrement?)
            && s'.fibers == match a
                            case YieldReady => s.fibers[f := FiberRec(READY, s.fibers[f].cb)]
                            case Finish(threw) =>
                              s.fibers[f := if threw then FiberRec(EXCET, s.fibers[f].cb) else FiberRec(TERM, None)]
                            case _ => s.fibers
    ensures var s' := Next(lines, s, Slice(w, a));
            s'.finished == s.finished && s'.parked == s.parked && s'.dropped == s.dropped && s'.idle == s.idle
    ensures var wk, e := s.workers[w], s.workers[w].pc.e;
            Next(lines, s, Slice(w, a)).workers ==
              s.workers[w := match a
                             case SwapOut => Worker(Back(e), MainFiber, wk.isActivate, wk.idle)
                             case Decrement => Worker(Settling(e), wk.current, wk.isActivate, wk.idle)
                             case _ => Worker(Leaving(e), wk.current, wk.isActivate, wk.idle)]
  {
  }

  // ---------- which callable a fiber runs ----------

  /** What step `step` does to f's callable: None when nothing, else the new one. */
  function Callable(s: Sched, step: Step, f: nat): Option<Option<nat>> {
    match step
    case Outside(o) =>
      if o.Create? && o.id == f then Some(Some(o.cb)) else if o.Reset? && o.id == f then Some(o.newCb) else None
    case Start(w, newId) =>
      if w < |s.workers| && s.workers[w].pc.Picked? && s.workers[w].pc.e.task.CbTask? && newId == f then
        Some(Some(s.workers[w].pc.e.task.cb))
      else None
    case Slice(w, a) =>
      if && w < |s.workers| && Holds(s.workers[w].pc) && s.workers[w].pc.e.task == FiberTask(f) && a == Finish(false)
      then Some(None) else None
    case _ => None
  }

  lemma CallableStep(lines: Lines, s: Sched, step: Step, f: nat)
    requires Enabled(s, step) && f in Next(lines, s, step).fibers
    ensures Next(lines, s, step).fibers[f].cb == match Callable(s, step, f)
                                                 case Some(cb) => cb
                                                 case None => if f in s.fibers then s.fibers[f].cb else None
    ensures f in s.fibers || Callable(s, step, f).Some?
  {
    hide Next;
    match step
    case Settle(w) => SettleEffect(lines, s, w);
    case Start(w, newId) => StartEffect(lines, s, w, newId);
    case Slice(w, a) => SliceEffect(lines, s, w, a);
    case _ => OtherStepsKeep(lines, s, step);
  }

  /** The callable that the first i steps left f with: the one it was created, started for or last reset with, or none
      after a normal end. */
  function LastCallable(states: seq<Sched>, steps: seq<Step>, i: nat, f: nat): Option<nat>
    requires i < |states| == |steps| + 1
  {
    if i == 0 then None
    else
      match Callable(states[i - 1], steps[i - 1], f)
      case Some(cb) => cb
      case None => LastCallable(states, steps, i - 1, f)
  }

  /** In every state of every run a fiber holds exactly that callable; in particular a callback entry's fiber holds the
      entry's callback until it ends normally or is reset. */
  lemma {:induction false} FiberRunsItsCallable(lines: Lines, n: nat, states: seq<Sched>, steps: seq<Step>, i: nat,
                                                f: nat)
    requires Run(lines, n, states, steps) && i < |states| && f in states[i].fibers
    ensures states[i].fibers[f].cb == LastCallable(states, steps, i, f)
  {
    hide Next, Enabled, Callable;
    if i > 0 {
      assert Enabled(states[i - 1], steps[i - 1]) && states[i - 1 + 1] == Next(lines, states[i - 1], steps[i - 1]);
      CallableStep(lines, states[i - 1], steps[i - 1], f);
      if f in states[i - 1].fibers {
        FiberRunsItsCallable(lines, n, states, steps, i - 1, f);
      }
    }
  }

  /** The step ends f's slice normally. */
  predicate EndsNormally(s: Sched, step: Step, f: nat) {
    && step.Slice? && step.a == Finish(false) && step.w < |s.workers| && Holds(s.workers[step.w].pc)
    && s.workers[step.w].pc.e.task == FiberTask(f)
  }

  lemma CallableKept(lines: Lines, s: Sched, step: Step, f: nat)
    requires Enabled(s, step) && f in s.fibers && !Resets(step, f) && !EndsNormally(s, step, f)
    ensures f in Next(lines, s, step).fibers && Next(lines, s, step).fibers[f].cb == s.fibers[f].cb
  {
    hide Next, CanUse;
    match step
    case Settle(w) => SettleEffect(lines, s, w);
    case Start(w, newId) => StartEffect(lines, s, w, newId);
    case Slice(w, a) => SliceEffect(lines, s, w, a);
    case _ => OtherStepsKeep(lines, s, step);
  }

  /** The fiber made for a callback entry holds that callback until it ends normally or is reset. */
  lemma {:induction false} CallbackEntryRunsItsCallback(lines: Lines, n: nat, states: seq<Sched>, steps: seq<Step>,
                                                        k: nat, j: nat, w: nat, f: nat, c: nat)
    requires Run(lines, n, states, steps) && k < j < |states| && steps[k] == Start(w, f) && w < |states[k].workers|
    requires states[k].workers[w].pc.Picked? && states[k].workers[w].pc.e.task == CbTask(c)
    requires forall m :: k < m < j ==> !Resets(steps[m], f) && !EndsNormally(states[m], steps[m], f)
    ensures f in states[j].fibers && states[j].fibers[f].cb == Some(c)
  {
    hide Next, Enabled, EndsNormally, Resets;
    var s, step := states[j - 1], steps[j - 1];
    assert Enabled(s, step) && states[j - 1 + 1] == Next(lines, s, step);
    if j == k + 1 {
      StartEffect(lines, s, w, f);
    } else {
      CallbackEntryRunsItsCallback(lines, n, states, steps, k, j - 1, w, f, c);
      assert !Resets(step, f) && !EndsNormally(s, step, f);
      CallableKept(lines, s, step, f);
    }
  }

  // ---------- outside the pool ----------

  /** A new fiber is in INIT with its callable; a reset puts it in INIT with the new one; a submission goes to the
      back of the queue as given. */
  lemma OutsideEffect(lines: Lines, s: Sched, o: OutsideStep)
    requires Enabled(s, Outside(o))
    ensures var s' := Next(lines, s, Outside(o));
            && s'.workers == s.workers && s'.active == s.active && s'.idle == s.idle
            && s'.fibers == (match o
                             case Create(id, cb) => s.fibers[id := FiberRec(INIT, Some(cb))]
                             case Reset(id, cb) => s.fibers[id := FiberRec(INIT, cb)]
                             case _ => s.fibers)
            && s'.queue == s.queue + (if o.Submit? then [Entry(o.task, o.thread, s.issued)] else [])
            && (s'.autoStop <==> s.autoStop || o.StopRequested?) && (s'.stopping <==> s.stopping || o.StopAnnounced?)
  {
  }

  // ---------- leaving ----------

  predicate SameIdle(wk: Worker, wk': Worker) {
    wk'.idle == wk.idle && (wk'.pc.Exited? ==> wk.pc.Exited?)
  }

  lemma IdleOnlyByIdle(lines: Lines, s: Sched, step: Step, v: nat)
    requires Enabled(s, step) && !step.Idle? && !step.EmptyPass? && v < |s.workers|
    ensures |Next(lines, s, step).workers| == |s.workers|
    ensures SameIdle(s.workers[v], Next(lines, s, step).workers[v])
  {
    hide CanUse, Ended, StartNext, SliceNext, SliceEnabled, StartEnabled;
    match step
    case Start(w, newId) => StartMoves(s, w, newId);
    case Slice(w, a) => SliceMoves(s, w, a);
    case _ =>
  }

  /** A worker's idle fiber ends in one step and in no other: a test of stopping() made with auto_stop_ and stopping_
      set, the queue empty, nobody counted active, and the override agreeing. */
  lemma IdleEndsIffAllQuiet(lines: Lines, s: Sched, step: Step, v: nat)
    requires Enabled(s, step) && v < |s.workers| && s.workers[v].idle != TERM
    ensures |Next(lines, s, step).workers| == |s.workers|
    ensures Next(lines, s, step).workers[v].idle == TERM <==>
            step == Idle(v, Check(true)) && s.autoStop && s.stopping && s.queue == [] && s.active == 0
  {
    if !step.Idle? && !step.EmptyPass? {
      IdleOnlyByIdle(lines, s, step, v);
    }
  }

  /** A worker leaves the loop in one step and in no other: a pass that found nothing, counts nothing down and finds the
      idle fiber ended; otherwise such a pass enters the idle fiber. */
  lemma LeavesIffIdleEnded(lines: Lines, s: Sched, step: Step, v: nat)
    requires Enabled(s, step) && v < |s.workers| && !s.workers[v].pc.Exited?
    ensures |Next(lines, s, step).workers| == |s.workers|
    ensures Next(lines, s, step).workers[v].pc.Exited? <==>
            step == EmptyPass(v) && !s.workers[v].isActivate && s.workers[v].idle == TERM
    ensures step == EmptyPass(v) && !s.workers[v].isActivate && s.workers[v].idle != TERM ==>
              var wk := Next(lines, s, step).workers[v];
              wk.pc == IdleChecking && wk.current == IdleFiber && Next(lines, s, step).idle == s.idle + 1
  {
    if !step.Idle? && !step.EmptyPass? {
      IdleOnlyByIdle(lines, s, step, v);
    }
  }

  /** The idle fiber's round: a test that fails goes on to dispatch, then it swaps out, then the worker counts down and
      scans again; none of it touches the queue or a fiber. */
  lemma IdleEffect(lines: Lines, s: Sched, w: nat, i: IdleStep)
    requires Enabled(s, Idle(w, i))
    ensures var s', wk := Next(lines, s, Idle(w, i)), s.workers[w];
            && s' == s.(idle := s.idle - One(i.Leave?), workers := s'.workers)
            && s'.workers == s.workers[w :=
                 match i
                 case Check(quiet) =>
                   if s.autoStop && s.stopping && s.queue == [] && s.active == 0 && quiet then
                     Worker(IdleLeaving, MainFiber, wk.isActivate, TERM)
                   else Worker(IdleDispatching, wk.current, wk.isActivate, wk.idle)
                 case IdleYield => Worker(IdleLeaving, MainFiber, wk.isActivate, wk.idle)
                 case Leave => Worker(AtScan, wk.current, wk.isActivate, wk.idle)]
  {
  }

  /** A pass that found nothing: count down if the flag is set, leave if the idle fiber has ended, else enter it. */
  lemma EmptyPassEffect(lines: Lines, s: Sched, w: nat)
    requires Enabled(s, EmptyPass(w))
    ensures var s', wk := Next(lines, s, EmptyPass(w)), s.workers[w];
            && s' == s.(active := s.active - One(wk.isActivate), idle := s'.idle, workers := s'.workers)
            && s'.idle == s.idle + One(!wk.isActivate && wk.idle != TERM)
            && s'.workers == s.workers[w :=
                 if wk.isActivate then Worker(AtScan, wk.current, true, wk.idle)
                 else if wk.idle == TERM then Worker(Exited, wk.current, false, TERM)
                 else Worker(IdleChecking, IdleFiber, false, EXEC)]
  {
  }

  // ---------- nobody is stuck ----------

  lemma {:induction false} FreshId(ids: set<nat>) returns (id: nat)
    ensures forall i :: i in ids ==> i < id
    decreases |ids|
  {
    id := 0;
    if ids != {} {
      var x :| x in ids;
      var rest := FreshId(ids - {x});
      id := if x < rest then rest else x + 1;
      forall i | i in ids ensures i < id {
        assert i == x || i in ids - {x};
      }
    }
  }

  /** Step `step` is worker w's. */
  predicate StepOf(step: Step, w: nat) {
    match step
    case Outside(_) => false
    case Wake(v, _, _) => false
    case Scan(v) => v == w
    case Start(v, _) => v == w
    case Slice(v, _) => v == w
    case Settle(v) => v == w
    case EmptyPass(v) => v == w
    case Idle(v, _) => v == w
  }

  /** In any state of any run a worker that has not left the loop can take a step. */
  lemma WorkerCanGoOn(lines: Lines, n: nat, states: seq<Sched>, steps: seq<Step>, i: nat, w: nat) returns (step: Step)
    requires Run(lines, n, states, steps) && i < |states| && w < |states[i].workers|
    requires !states[i].workers[w].pc.Exited?
    ensures StepOf(step, w) && Enabled(states[i], step)
  {
    var s := states[i];
    StructureAt(lines, n, states, steps, i);
    assert WorkerFits(s, s.workers[w]);
    match s.workers[w].pc
    case AtScan => step := Scan(w);
    case Picked(_) =>
      var id := FreshId(s.fibers.Keys);
      step := Start(w, id);
    case Running(_) => step := Slice(w, Finish(true));
    case Leaving(_) => step := Slice(w, SwapOut);
    case Back(_) => step := Slice(w, Decrement);
    case Settling(_) => step := Settle(w);
    case NothingPicked => step := EmptyPass(w);
    case IdleChecking => step := Idle(w, Check(true));
    case IdleDispatching => step := Idle(w, IdleYield);
    case IdleLeaving => step := Idle(w, Leave);
  }

  /** What a running fiber may do: yield either way exactly when it is in EXEC, throw, end normally exactly when it
      has a callable; and a fiber may be reset exactly when it is in INIT or TERM. */
  lemma FiberChoices(s: Sched, w: nat, f: nat, cb: Option<nat>)
    requires w < |s.workers| && s.workers[w].pc.Running? && s.workers[w].pc.e.task == FiberTask(f) && f in s.fibers
    ensures Enabled(s, Slice(w, YieldReady)) <==> s.fibers[f].state == EXEC
    ensures Enabled(s, Slice(w, YieldHold)) <==> s.fibers[f].state == EXEC
    ensures Enabled(s, Slice(w, Finish(true)))
    ensures Enabled(s, Slice(w, Finish(false))) <==> s.fibers[f].cb.Some?
    ensures Enabled(s, Outside(Reset(f, cb))) <==> s.fibers[f].state == INIT || s.fibers[f].state == TERM
  {
  }
}
