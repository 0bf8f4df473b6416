/** What every step of the scheduler keeps. Each invariant has its own step lemma; SchedulerTheorems lifts
    them to whole runs. */
module SchedulerInvariants {
  import opened Counting
  import opened Fibers
  import opened SchedulerModel

  // ---------- positions ----------

  predicate Holds(pc: Pc) {
    pc.Picked? || InSlice(pc)
  }

  /** Between the increment at line 125 and the decrement at 135, 146 or 156. */
  predicate CountedActive(pc: Pc) {
    pc.Picked? || pc.Running? || pc.Leaving? || pc.Back?
  }

  /** Between lines 162 and 164. */
  predicate CountedIdle(pc: Pc) {
    pc.IdleChecking? || pc.IdleDispatching? || pc.IdleLeaving?
  }

  predicate CurrentFits(wk: Worker) {
    wk.current ==
      if (wk.pc.Running? || wk.pc.Leaving?) && wk.pc.e.task.FiberTask? then PoolFiber(wk.pc.e.task.id)
      else if wk.pc.IdleChecking? || wk.pc.IdleDispatching? then IdleFiber
      else MainFiber
  }

  predicate InSliceOf(wk: Worker, f: nat) {
    InSlice(wk.pc) && wk.pc.e.task == FiberTask(f)
  }

  // ---------- structure ----------

  /** The worker's locals fit its position, and its idle fiber ends only after stop() was requested. */
  predicate WorkerFits(s: Sched, wk: Worker) {
    && (Holds(wk.pc) ==> CanUse(s, wk.pc.e.task))
    && (InSlice(wk.pc) ==> wk.pc.e.task.FiberTask?)
    && CurrentFits(wk)
    && (wk.pc.Exited? ==> wk.idle == TERM)
    && (wk.idle == TERM ==> s.autoStop && s.stopping)
  }

  /** A fiber marked EXEC is in some worker's slice. */
  ghost predicate ExecOwned(s: Sched) {
    forall f :: f in s.fibers && s.fibers[f].state == EXEC ==>
      exists w :: 0 <= w < |s.workers| && InSliceOf(s.workers[w], f)
  }

  ghost predicate Structure(s: Sched) {
    && (forall i :: 0 <= i < |s.queue| ==> CanUse(s, s.queue[i].task))
    && (forall w :: 0 <= w < |s.workers| ==> WorkerFits(s, s.workers[w]))
    && ExecOwned(s)
  }

  /** Worker w moved to wk; the queue may only have gained or lost entries over known fibers. */
  ghost predicate Moved(s: Sched, s': Sched, w: nat, wk: Worker) {
    && w < |s.workers|
    && s'.workers == s.workers[w := wk]
    && s.fibers.Keys <= s'.fibers.Keys
    && (s.autoStop ==> s'.autoStop) && (s.stopping ==> s'.stopping)
    && (forall i :: 0 <= i < |s'.queue| ==> CanUse(s', s'.queue[i].task))
  }

  lemma StructureByMove(s: Sched, s': Sched, w: nat, wk: Worker)
    requires Structure(s) && Moved(s, s', w, wk) && WorkerFits(s', wk)
    requires forall f :: f in s'.fibers && s'.fibers[f].state == EXEC ==>
      || InSliceOf(wk, f)
      || (f in s.fibers && s.fibers[f].state == EXEC && !InSliceOf(s.workers[w], f))
    ensures Structure(s')
  {
    forall v | 0 <= v < |s'.workers| ensures WorkerFits(s', s'.workers[v]) {
      if v != w {
        assert WorkerFits(s, s.workers[v]);
      }
    }
    forall f | f in s'.fibers && s'.fibers[f].state == EXEC
      ensures exists v :: 0 <= v < |s'.workers| && InSliceOf(s'.workers[v], f)
    {
      if InSliceOf(wk, f) {
        assert InSliceOf(s'.workers[w], f);
      } else {
        var v :| 0 <= v < |s.workers| && InSliceOf(s.workers[v], f);
        assert InSliceOf(s'.workers[v], f);
      }
    }
  }

  /** The steps that move no worker. */
  lemma StructureOutside(s: Sched, s': Sched)
    requires Structure(s) && s'.workers == s.workers
    requires s.fibers.Keys <= s'.fibers.Keys && (s.autoStop ==> s'.autoStop) && (s.stopping ==> s'.stopping)
    requires forall i :: 0 <= i < |s'.queue| ==> CanUse(s', s'.queue[i].task)
    requires forall f :: f in s'.fibers && s'.fibers[f].state == EXEC ==> f in s.fibers && s.fibers[f].state == EXEC
    ensures Structure(s')
  {
  }

  lemma StructureSlice(s: Sched, w: nat, a: SliceStep)
    requires Structure(s) && SliceEnabled(s, w, a)
    ensures Structure(SliceNext(s, w, a))
  {
    assert WorkerFits(s, s.workers[w]);
    var s' := SliceNext(s, w, a);
    StructureByMove(s, s', w, s'.workers[w]);
  }

  lemma StructureSettle(s: Sched, w: nat)
    requires Structure(s) && Enabled(s, Settle(w))
    ensures Structure(SettleNext(s, w))
  {
    assert WorkerFits(s, s.workers[w]);
    var s' := SettleNext(s, w);
    StructureByMove(s, s', w, s'.workers[w]);
  }

  lemma StructureScan(lines: Lines, s: Sched, w: nat)
    requires Structure(s) && Enabled(s, Scan(w))
    ensures Structure(ScanNext(lines, s, w))
  {
    assert WorkerFits(s, s.workers[w]);
    var s' := ScanNext(lines, s, w);
    StructureByMove(s, s', w, s'.workers[w]);
  }

  lemma StructureStart(s: Sched, w: nat, newId: nat)
    requires Structure(s) && StartEnabled(s, w, newId)
    ensures Structure(StartNext(s, w, newId))
  {
    assert WorkerFits(s, s.workers[w]);
    var s' := StartNext(s, w, newId);
    StructureByMove(s, s', w, s'.workers[w]);
  }

  lemma StructureIdle(s: Sched, w: nat, i: IdleStep)
    requires Structure(s) && Enabled(s, Idle(w, i))
    ensures Structure(IdleNext(s, w, i))
  {
    assert WorkerFits(s, s.workers[w]);
    var s' := IdleNext(s, w, i);
    StructureByMove(s, s', w, s'.workers[w]);
  }

  lemma StructureEmptyPass(s: Sched, w: nat)
    requires Structure(s) && Enabled(s, EmptyPass(w))
    ensures Structure(EmptyPassNext(s, w))
  {
    assert WorkerFits(s, s.workers[w]);
    var s' := EmptyPassNext(s, w);
    StructureByMove(s, s', w, s'.workers[w]);
  }

  lemma StructureKept(lines: Lines, s: Sched, step: Step)
    requires Structure(s) && Enabled(s, step)
    ensures Structure(Next(lines, s, step))
  {
    hide ScanNext, StartNext, SliceNext, SettleNext, IdleNext, EmptyPassNext;
    var s' := Next(lines, s, step);
    match step
    case Outside(o) => StructureOutside(s, s');
    case Wake(_, _, _) => StructureOutside(s, s');
    case Scan(w) => StructureScan(lines, s, w);
    case Start(w, newId) => StructureStart(s, w, newId);
    case Slice(w, a) => StructureSlice(s, w, a);
    case Settle(w) => StructureSettle(s, w);
    case EmptyPass(w) => StructureEmptyPass(s, w);
    case Idle(w, i) => StructureIdle(s, w, i);
  }

  // ---------- which worker moves ----------

  /** The step changed no worker but w, and did not end a scan. */
  predicate MovesOne(s: Sched, s': Sched, w: nat) {
    && w < |s.workers| == |s'.workers| && s'.workers == s.workers[w := s'.workers[w]]
    && !s'.workers[w].pc.NothingPicked?
  }

  /** What w holds afterwards it held before, with at most the task replaced. */
  predicate KeepsEntry(s: Sched, s': Sched, w: nat)
    requires MovesOne(s, s', w)
  {
    Holds(s'.workers[w].pc) ==>
      Holds(s.workers[w].pc) && s'.workers[w].pc.e == s.workers[w].pc.e.(task := s'.workers[w].pc.e.task)
  }

  lemma StartMoves(s: Sched, w: nat, newId: nat)
    requires StartEnabled(s, w, newId)
    ensures var s' := StartNext(s, w, newId);
            && MovesOne(s, s', w) && KeepsEntry(s, s', w) && s'.queue == s.queue
            && s'.fibers.Keys == s.fibers.Keys + (if s.workers[w].pc.e.task.CbTask? then {newId} else {})
            && s'.workers[w].idle == s.workers[w].idle && !s'.workers[w].pc.Exited?
  {
  }

  lemma SliceMoves(s: Sched, w: nat, a: SliceStep)
    requires SliceEnabled(s, w, a)
    ensures var s' := SliceNext(s, w, a);
            && MovesOne(s, s', w) && s'.queue == s.queue && s'.fibers.Keys == s.fibers.Keys
            && Holds(s.workers[w].pc) && Holds(s'.workers[w].pc) && s'.workers[w].pc.e == s.workers[w].pc.e
            && s'.workers[w].idle == s.workers[w].idle && !s'.workers[w].pc.Exited?
  {
  }

  lemma SettleMoves(s: Sched, w: nat)
    requires RunsFiber(s, w)
    ensures var s' := SettleNext(s, w);
            && MovesOne(s, s', w) && (s'.queue == s.queue || s'.queue == s.queue + [s.workers[w].pc.e])
            && s'.fibers.Keys == s.fibers.Keys && !Holds(s'.workers[w].pc) && !s'.workers[w].pc.Exited?
  {
  }

  lemma EmptyPassMoves(s: Sched, w: nat)
    requires w < |s.workers|
    ensures var s' := EmptyPassNext(s, w);
            MovesOne(s, s', w) && s'.queue == s.queue && s'.fibers == s.fibers && !Holds(s'.workers[w].pc)
  {
  }

  lemma IdleMoves(s: Sched, w: nat, i: IdleStep)
    requires w < |s.workers| && IdleEnabled(s.workers[w].pc, i)
    ensures var s' := IdleNext(s, w, i);
            && MovesOne(s, s', w) && s'.queue == s.queue && s'.fibers == s.fibers && !Holds(s'.workers[w].pc)
            && !s'.workers[w].pc.Exited?
  {
  }

  /** Only a scan and the steps of nobody inside the pool are not the move of one worker. */
  lemma StepMoves(lines: Lines, s: Sched, step: Step)
    requires Enabled(s, step)
    ensures match step
            case Outside(_) => Next(lines, s, step).workers == s.workers
            case Wake(_, _, _) => Next(lines, s, step).workers == s.workers
            case Scan(w) => Next(lines, s, step) == ScanNext(lines, s, w)
            case _ => MovesOne(s, Next(lines, s, step), step.w)
  {
    hide ScanNext, StartNext, SliceNext, SettleNext, IdleNext, EmptyPassNext, MovesOne, KeepsEntry, Holds;
    match step
    case Start(w, newId) => StartMoves(s, w, newId);
    case Slice(w, a) => SliceMoves(s, w, a);
    case Settle(w) => SettleMoves(s, w);
    case EmptyPass(w) => EmptyPassMoves(s, w);
    case Idle(w, i) => IdleMoves(s, w, i);
    case _ =>
  }

  // ---------- pinned entries ----------

  predicate AtHome(e: Entry, w: nat) {
    e.thread == ANY_THREAD || e.thread == w
  }

  /** A pinned entry is only ever held by the worker it names. */
  ghost predicate PinnedAtHome(s: Sched) {
    forall w: nat :: w < |s.workers| && Holds(s.workers[w].pc) ==> AtHome(s.workers[w].pc.e, w)
  }

  /** Where worker v's entry came from: it was held before, or this scan took it. */
  predicate FromBefore(s: Sched, v: nat, e: Entry) {
    && v < |s.workers|
    && Holds(s.workers[v].pc) && s.workers[v].pc.e.thread == e.thread
  }

  lemma HeldOrigin(lines: Lines, s: Sched, step: Step, v: nat)
    requires Enabled(s, step) && v < |s.workers| && |Next(lines, s, step).workers| == |s.workers|
    requires Holds(Next(lines, s, step).workers[v].pc)
    ensures var e := Next(lines, s, step).workers[v].pc.e;
            FromBefore(s, v, e) || (step == Scan(v) && e in s.queue && AtHome(e, v))
  {
    hide ScanNext, StartNext, SliceNext, SettleNext, IdleNext, EmptyPassNext, CanUse;
    hide SliceEnabled, StartEnabled, RunsFiber;
    match step
    case Scan(w) => HeldOriginScan(lines, s, w, v);
    case Start(w, newId) => StartMoves(s, w, newId);
    case Slice(w, a) => SliceMoves(s, w, a);
    case Settle(w) => SettleMoves(s, w);
    case EmptyPass(w) => EmptyPassMoves(s, w);
    case Idle(w, i) => IdleMoves(s, w, i);
    case _ =>
  }

  lemma HeldOriginScan(lines: Lines, s: Sched, w: nat, v: nat)
    requires Enabled(s, Scan(w)) && v < |s.workers| && Holds(ScanNext(lines, s, w).workers[v].pc)
    ensures var e := ScanNext(lines, s, w).workers[v].pc.e;
            FromBefore(s, v, e) || (w == v && e in s.queue && AtHome(e, v))
  {
  }

  lemma WorkersStay(lines: Lines, s: Sched, step: Step)
    requires Enabled(s, step)
    ensures |Next(lines, s, step).workers| == |s.workers|
  {
    hide Next;
    StepMoves(lines, s, step);
  }

  lemma PinnedKept(lines: Lines, s: Sched, step: Step)
    requires PinnedAtHome(s) && Enabled(s, step)
    ensures PinnedAtHome(Next(lines, s, step))
  {
    hide Next;
    var s' := Next(lines, s, step);
    WorkersStay(lines, s, step);
    forall w: nat | w < |s'.workers| && Holds(s'.workers[w].pc) ensures AtHome(s'.workers[w].pc.e, w) {
      HeldOrigin(lines, s, step, w);
    }
  }

  // ---------- the two counters ----------

  /** The flag tells an empty pass from a pass that picked something. */
  ghost predicate FlagsFit(s: Sched) {
    forall w :: 0 <= w < |s.workers| && s.workers[w].pc.NothingPicked? ==> !s.workers[w].isActivate
  }

  predicate ActiveWorker(wk: Worker) {
    CountedActive(wk.pc)
  }

  predicate IdleWorker(wk: Worker) {
    CountedIdle(wk.pc)
  }

  ghost predicate CountersExact(s: Sched) {
    && s.active == Count(s.workers, ActiveWorker)
    && s.idle == Count(s.workers, IdleWorker)
  }

  /** How far active_threads_count_ is from the number of workers it should count. */
  function Excess(s: Sched): int {
    s.active - Count(s.workers, ActiveWorker)
  }

  function IdleExcess(s: Sched): int {
    s.idle - Count(s.workers, IdleWorker)
  }

  /** The branch at line 155: a pass that found nothing counts down for an earlier one. */
  predicate Miscounts(s: Sched, step: Step)
    requires Enabled(s, step)
  {
    step.EmptyPass? && s.workers[step.w].isActivate
  }

  lemma ExcessByMove(s: Sched, s': Sched, w: nat, wk: Worker)
    requires w < |s.workers| && s'.workers == s.workers[w := wk]
    ensures Excess(s') == Excess(s) + (s'.active - s.active)
                          - One(CountedActive(wk.pc)) + One(CountedActive(s.workers[w].pc))
    ensures IdleExcess(s') == IdleExcess(s) + (s'.idle - s.idle)
                              - One(CountedIdle(wk.pc)) + One(CountedIdle(s.workers[w].pc))
  {
    CountUpdate(s.workers, w, wk, ActiveWorker);
    CountUpdate(s.workers, w, wk, IdleWorker);
  }

  lemma ExcessScan(lines: Lines, s: Sched, w: nat)
    requires Enabled(s, Scan(w))
    ensures Excess(ScanNext(lines, s, w)) == Excess(s) && IdleExcess(ScanNext(lines, s, w)) == IdleExcess(s)
  {
    var s' := ScanNext(lines, s, w);
    ExcessByMove(s, s', w, s'.workers[w]);
  }

  lemma ExcessStart(s: Sched, w: nat, newId: nat)
    requires StartEnabled(s, w, newId)
    ensures Excess(StartNext(s, w, newId)) == Excess(s) && IdleExcess(StartNext(s, w, newId)) == IdleExcess(s)
  {
    var s' := StartNext(s, w, newId);
    ExcessByMove(s, s', w, s'.workers[w]);
  }

  lemma ExcessSlice(s: Sched, w: nat, a: SliceStep)
    requires SliceEnabled(s, w, a)
    ensures Excess(SliceNext(s, w, a)) == Excess(s) && IdleExcess(SliceNext(s, w, a)) == IdleExcess(s)
  {
    var s' := SliceNext(s, w, a);
    ExcessByMove(s, s', w, s'.workers[w]);
  }

  lemma ExcessSettle(s: Sched, w: nat)
    requires Enabled(s, Settle(w))
    ensures Excess(SettleNext(s, w)) == Excess(s) && IdleExcess(SettleNext(s, w)) == IdleExcess(s)
  {
    var s' := SettleNext(s, w);
    ExcessByMove(s, s', w, s'.workers[w]);
  }

  lemma ExcessEmptyPass(s: Sched, w: nat)
    requires Enabled(s, EmptyPass(w))
    ensures Excess(EmptyPassNext(s, w)) == Excess(s) - One(s.workers[w].isActivate)
    ensures IdleExcess(EmptyPassNext(s, w)) == IdleExcess(s)
  {
    var s' := EmptyPassNext(s, w);
    ExcessByMove(s, s', w, s'.workers[w]);
  }

  lemma ExcessIdle(s: Sched, w: nat, i: IdleStep)
    requires Enabled(s, Idle(w, i))
    ensures Excess(IdleNext(s, w, i)) == Excess(s) && IdleExcess(IdleNext(s, w, i)) == IdleExcess(s)
  {
    var s' := IdleNext(s, w, i);
    ExcessByMove(s, s', w, s'.workers[w]);
  }

  /** Whatever the lines, each step through the branch at line 155 takes one too many off the active counter, and
      nothing else moves either counter away from the workers, or back. */
  lemma ExcessStep(lines: Lines, s: Sched, step: Step)
    requires Enabled(s, step)
    ensures Excess(Next(lines, s, step)) == Excess(s) - One(Miscounts(s, step))
    ensures IdleExcess(Next(lines, s, step)) == IdleExcess(s)
  {
    hide ScanNext, StartNext, SliceNext, SettleNext, IdleNext, EmptyPassNext;
    match step
    case Outside(_) =>
    case Wake(_, _, _) =>
    case Scan(w) => ExcessScan(lines, s, w);
    case Start(w, newId) => ExcessStart(s, w, newId);
    case Slice(w, a) => ExcessSlice(s, w, a);
    case Settle(w) => ExcessSettle(s, w);
    case EmptyPass(w) => ExcessEmptyPass(s, w);
    case Idle(w, i) => ExcessIdle(s, w, i);
  }

  /** With the flag reset on each pass, no empty pass reaches line 156. */
  lemma FlagsKept(s: Sched, step: Step)
    requires FlagsFit(s) && Enabled(s, step)
    ensures FlagsFit(Next(DESIGNED, s, step)) && !Miscounts(s, step)
  {
    hide Next;
    StepMoves(DESIGNED, s, step);
  }

  lemma CountersKept(s: Sched, step: Step)
    requires CountersExact(s) && FlagsFit(s) && Enabled(s, step)
    ensures CountersExact(Next(DESIGNED, s, step)) && FlagsFit(Next(DESIGNED, s, step))
  {
    ExcessStep(DESIGNED, s, step);
    FlagsKept(s, step);
  }

  // ---------- tickets ----------

  function EntryWith(t: nat): Entry -> bool {
    (e: Entry) => e.ticket == t
  }

  function HolderOf(t: nat): Worker -> bool {
    (wk: Worker) => Holds(wk.pc) && wk.pc.e.ticket == t
  }

  function Is(t: nat): nat -> bool {
    (u: nat) => u == t
  }

  /** In how many places ticket t is: queued, held, parked, finished or dropped. */
  function Places(s: Sched, t: nat): nat {
    Count(s.queue, EntryWith(t)) + Count(s.workers, HolderOf(t))
    + Count(s.parked, Is(t)) + Count(s.finished, Is(t)) + Count(s.dropped, Is(t))
  }

  lemma PlacesPush(s: Sched, task: Task, thread: int, t: nat)
    ensures Places(Push(s, task, thread), t) == Places(s, t) + One(t == s.issued)
  {
    CountAppend(s.queue, Entry(task, thread, s.issued), EntryWith(t));
  }

  lemma PlacesScan(lines: Lines, s: Sched, w: nat, t: nat)
    requires Enabled(s, Scan(w))
    ensures Places(ScanNext(lines, s, w), t) == Places(s, t) && ScanNext(lines, s, w).issued == s.issued
  {
    CountUpdate(s.workers, w, ScanNext(lines, s, w).workers[w], HolderOf(t));
    var k := FirstEligible(s.queue, s.fibers, w);
    if k < |s.queue| {
      CountRemove(s.queue, k, EntryWith(t));
    }
  }

  /** Places after worker w has moved to wk. */
  lemma PlacesUpdate(s: Sched, s': Sched, w: nat, wk: Worker, t: nat)
    requires w < |s.workers| && s'.workers == s.workers[w := wk]
    ensures Places(s', t) - Places(s, t) ==
            One(HolderOf(t)(wk)) - One(HolderOf(t)(s.workers[w]))
            + Count(s'.queue, EntryWith(t)) - Count(s.queue, EntryWith(t))
            + Count(s'.parked, Is(t)) - Count(s.parked, Is(t))
            + Count(s'.finished, Is(t)) - Count(s.finished, Is(t)) + Count(s'.dropped, Is(t)) - Count(s.dropped, Is(t))
  {
    CountUpdate(s.workers, w, wk, HolderOf(t));
  }

  lemma PlacesStart(s: Sched, w: nat, newId: nat, t: nat)
    requires StartEnabled(s, w, newId)
    ensures Places(StartNext(s, w, newId), t) == Places(s, t) && StartNext(s, w, newId).issued == s.issued
  {
    hide Places;
    PlacesUpdate(s, StartNext(s, w, newId), w, StartNext(s, w, newId).workers[w], t);
    CountAppend(s.dropped, s.workers[w].pc.e.ticket, Is(t));
  }

  lemma PlacesSlice(s: Sched, w: nat, a: SliceStep, t: nat)
    requires SliceEnabled(s, w, a)
    ensures Places(SliceNext(s, w, a), t) == Places(s, t) && SliceNext(s, w, a).issued == s.issued
  {
    CountUpdate(s.workers, w, SliceNext(s, w, a).workers[w], HolderOf(t));
  }

  lemma PlacesSettle(s: Sched, w: nat, t: nat)
    requires RunsFiber(s, w)
    ensures Places(SettleNext(s, w), t) == Places(s, t) && SettleNext(s, w).issued == s.issued
  {
    hide Places;
    var e := s.workers[w].pc.e;
    PlacesUpdate(s, SettleNext(s, w), w, SettleNext(s, w).workers[w], t);
    CountAppend(s.queue, e, EntryWith(t));
    CountAppend(s.finished, e.ticket, Is(t));
    CountAppend(s.parked, e.ticket, Is(t));
  }

  lemma PlacesMove(s: Sched, s': Sched, w: nat, wk: Worker, t: nat)
    requires w < |s.workers| && !Holds(s.workers[w].pc) && !Holds(wk.pc)
    requires s'.workers == s.workers[w := wk] && s'.queue == s.queue
    requires s'.parked == s.parked && s'.finished == s.finished && s'.dropped == s.dropped
    ensures Places(s', t) == Places(s, t)
  {
    CountUpdate(s.workers, w, wk, HolderOf(t));
  }

  lemma PlacesEmptyPass(s: Sched, w: nat, t: nat)
    requires Enabled(s, EmptyPass(w))
    ensures var s' := EmptyPassNext(s, w); Places(s', t) == Places(s, t) && s'.issued == s.issued
  {
    var s' := EmptyPassNext(s, w);
    PlacesMove(s, s', w, s'.workers[w], t);
  }

  lemma PlacesIdle(s: Sched, w: nat, i: IdleStep, t: nat)
    requires Enabled(s, Idle(w, i))
    ensures var s' := IdleNext(s, w, i); Places(s', t) == Places(s, t) && s'.issued == s.issued
  {
    var s' := IdleNext(s, w, i);
    PlacesMove(s, s', w, s'.workers[w], t);
  }

  lemma TicketStep(lines: Lines, s: Sched, step: Step, t: nat)
    requires Enabled(s, step) && Places(s, t) == One(t < s.issued)
    ensures Places(Next(lines, s, step), t) == One(t < Next(lines, s, step).issued)
  {
    hide ScanNext, StartNext, SliceNext, SettleNext, IdleNext, EmptyPassNext, Places;
    var s' := Next(lines, s, step);
    match step
    case Outside(o) =>
      if o.Submit? {
        PlacesPush(s, o.task, o.thread, t);
      } else {
        PlacesSame(s, s', t);
      }
    case Wake(_, task, thread) => PlacesPush(s, task, thread, t);
    case Scan(w) => PlacesScan(lines, s, w, t);
    case Start(w, newId) => PlacesStart(s, w, newId, t);
    case Slice(w, a) => PlacesSlice(s, w, a, t);
    case Settle(w) => PlacesSettle(s, w, t);
    case EmptyPass(w) => PlacesEmptyPass(s, w, t);
    case Idle(w, i) => PlacesIdle(s, w, i, t);
  }

  lemma PlacesSame(s: Sched, s': Sched, t: nat)
    requires s'.workers == s.workers && s'.queue == s.queue
    requires s'.parked == s.parked && s'.finished == s.finished && s'.dropped == s.dropped
    ensures Places(s', t) == Places(s, t)
  {
  }

  // ---------- at most one worker on a fiber ----------

  function EntryOf(f: nat): Entry -> bool {
    (e: Entry) => e.task == FiberTask(f)
  }

  function PickerOf(f: nat): Worker -> bool {
    (wk: Worker) => wk.pc.Picked? && wk.pc.e.task == FiberTask(f)
  }

  function SlicerOf(f: nat): Worker -> bool {
    (wk: Worker) => InSliceOf(wk, f)
  }

  function RunnerOf(f: nat): Worker -> bool {
    (wk: Worker) => InSliceOf(wk, f) && wk.pc.Running?
  }

  /** Entries for f that are queued, or picked and not yet started. */
  function Wakeups(s: Sched, f: nat): nat {
    Count(s.queue, EntryOf(f)) + Count(s.workers, PickerOf(f))
  }

  function Slices(s: Sched, f: nat): nat {
    Count(s.workers, SlicerOf(f))
  }

  /** f may be scheduled: nothing outstanding, and no worker about to requeue it. */
  predicate MayWake(s: Sched, f: nat)
    requires f in s.fibers
  {
    Wakeups(s, f) == 0 && (s.fibers[f].state == READY ==> Slices(s, f) == 0)
  }

  /** What callers owe: one outstanding wakeup per fiber, no YieldToReady while one is outstanding, and no
      reset of a fiber that some worker has not yet settled. */
  predicate OneWakeup(s: Sched, step: Step)
    requires Enabled(s, step)
  {
    match step
    case Outside(o) =>
      && (o.Submit? && o.task.FiberTask? ==> MayWake(s, o.task.id))
      && (o.Reset? ==> Slices(s, o.id) == 0)
    case Wake(_, task, _) => task.FiberTask? ==> MayWake(s, task.id)
    case Slice(w, a) => a.YieldReady? ==> Wakeups(s, s.workers[w].pc.e.task.id) == 0
    case _ => true
  }

  /** At most one outstanding entry and at most one slice for f, and how the two may coexist. */
  predicate Exclusive(s: Sched, f: nat)
    requires f in s.fibers
  {
    var st := s.fibers[f].state;
    && Wakeups(s, f) <= 1
    && Slices(s, f) <= 1
    && (Count(s.workers, RunnerOf(f)) > 0 ==> st == EXEC)
    && (Slices(s, f) > 0 ==> st != INIT && st != HOLD)
    && (Slices(s, f) > 0 && st == READY ==> Wakeups(s, f) == 0)
    && (Slices(s, f) > 0 && Count(s.workers, PickerOf(f)) > 0 ==> Ended(st))
  }

  ghost predicate AllExclusive(s: Sched) {
    forall f :: f in s.fibers ==> Exclusive(s, f)
  }

  lemma WorkerCounts(s: Sched, w: nat, wk: Worker, f: nat)
    requires w < |s.workers|
    ensures Count(s.workers[w := wk], PickerOf(f)) ==
            Count(s.workers, PickerOf(f)) - One(PickerOf(f)(s.workers[w])) + One(PickerOf(f)(wk))
    ensures Count(s.workers[w := wk], SlicerOf(f)) ==
            Count(s.workers, SlicerOf(f)) - One(InSliceOf(s.workers[w], f)) + One(InSliceOf(wk, f))
    ensures Count(s.workers[w := wk], RunnerOf(f)) ==
            Count(s.workers, RunnerOf(f)) - One(RunnerOf(f)(s.workers[w])) + One(RunnerOf(f)(wk))
  {
    CountUpdate(s.workers, w, wk, PickerOf(f));
    CountUpdate(s.workers, w, wk, SlicerOf(f));
    CountUpdate(s.workers, w, wk, RunnerOf(f));
  }

  /** A fiber that does not exist yet has no entry and no slice. */
  lemma UnknownFiber(s: Sched, f: nat)
    requires Structure(s) && f !in s.fibers
    ensures Wakeups(s, f) == 0 && Slices(s, f) == 0 && Count(s.workers, RunnerOf(f)) == 0
  {
    CountSome(s.queue, EntryOf(f));
    CountSome(s.workers, PickerOf(f));
    CountSome(s.workers, SlicerOf(f));
    CountSome(s.workers, RunnerOf(f));
    forall w | 0 <= w < |s.workers| ensures !PickerOf(f)(s.workers[w]) && !InSliceOf(s.workers[w], f) {
      assert WorkerFits(s, s.workers[w]);
    }
  }

  lemma ExclusivePush(s: Sched, task: Task, thread: int, f: nat)
    requires f in s.fibers && Exclusive(s, f) && CanUse(s, task) && (task == FiberTask(f) ==> MayWake(s, f))
    ensures Exclusive(Push(s, task, thread), f)
  {
    CountAppend(s.queue, Entry(task, thread, s.issued), EntryOf(f));
  }

  lemma ExclusiveSame(s: Sched, s': Sched, f: nat)
    requires f in s.fibers && Exclusive(s, f) && f in s'.fibers && s'.fibers[f] == s.fibers[f]
    requires s'.workers == s.workers && Count(s'.queue, EntryOf(f)) == Count(s.queue, EntryOf(f))
    ensures Exclusive(s', f)
  {
  }

  /** A move of worker w that does not concern f. */
  lemma ExclusiveMove(s: Sched, s': Sched, w: nat, wk: Worker, f: nat)
    requires f in s.fibers && Exclusive(s, f) && f in s'.fibers && s'.fibers[f] == s.fibers[f]
    requires w < |s.workers| && s'.queue == s.queue && s'.workers == s.workers[w := wk]
    requires !PickerOf(f)(wk) && !PickerOf(f)(s.workers[w]) && !InSliceOf(wk, f) && !InSliceOf(s.workers[w], f)
    ensures Exclusive(s', f)
  {
    WorkerCounts(s, w, wk, f);
  }

  lemma ExclusiveOutside(s: Sched, o: OutsideStep, f: nat)
    requires Structure(s) && AllExclusive(s) && OutsideEnabled(s, o) && OneWakeup(s, Outside(o))
    requires f in OutsideNext(s, o).fibers
    ensures Exclusive(OutsideNext(s, o), f)
  {
    if f !in s.fibers {
      UnknownFiber(s, f);
    } else if o.Submit? {
      ExclusivePush(s, o.task, o.thread, f);
    } else {
      assert Exclusive(s, f);
      CountRunners(s, f);
    }
  }

  lemma CountRunners(s: Sched, f: nat)
    ensures Count(s.workers, RunnerOf(f)) <= Slices(s, f)
  {
    RunnersBound(s.workers, f);
  }

  lemma {:induction false} RunnersBound(ws: seq<Worker>, f: nat)
    ensures Count(ws, RunnerOf(f)) <= Count(ws, SlicerOf(f))
  {
    if ws != [] {
      RunnersBound(ws[1..], f);
    }
  }

  /** A scan turns a queued wakeup into a picked one. */
  lemma ScanKeepsWakeups(lines: Lines, s: Sched, w: nat, f: nat)
    requires Enabled(s, Scan(w)) && FirstEligible(s.queue, s.fibers, w) < |s.queue|
    ensures var s' := ScanNext(lines, s, w);
            && Slices(s', f) == Slices(s, f) && Wakeups(s', f) == Wakeups(s, f) && s'.fibers == s.fibers
            && Count(s'.workers, RunnerOf(f)) == Count(s.workers, RunnerOf(f))
            && Count(s'.workers, PickerOf(f)) ==
                 Count(s.workers, PickerOf(f)) + One(EntryOf(f)(s.queue[FirstEligible(s.queue, s.fibers, w)]))
  {
    WorkerCounts(s, w, ScanNext(lines, s, w).workers[w], f);
    CountRemove(s.queue, FirstEligible(s.queue, s.fibers, w), EntryOf(f));
  }

  /** The entry a scan takes is not for a fiber in EXEC, so f is not running then. */
  lemma ExclusiveScan(lines: Lines, s: Sched, w: nat, f: nat)
    requires Enabled(s, Scan(w)) && f in s.fibers && Exclusive(s, f)
    ensures Exclusive(ScanNext(lines, s, w), f)
  {
    var s' := ScanNext(lines, s, w);
    var k := FirstEligible(s.queue, s.fibers, w);
    if k < |s.queue| {
      hide ScanNext, Wakeups, Slices;
      ScanKeepsWakeups(lines, s, w, f);
    } else {
      hide Exclusive;
      ExclusiveMove(s, s', w, s'.workers[w], f);
    }
  }

  /** Starting a picked entry for f: the only wakeup is this one, so a live f is in no slice. */
  lemma ExclusiveStartOwn(s: Sched, w: nat, newId: nat, f: nat)
    requires StartEnabled(s, w, newId) && f in s.fibers && Exclusive(s, f)
    requires s.workers[w].pc.e.task == FiberTask(f)
    ensures Exclusive(StartNext(s, w, newId), f)
  {
    CountRunners(s, f);
    CountSome(s.workers, PickerOf(f));
    assert PickerOf(f)(s.workers[w]);
    var s' := StartNext(s, w, newId);
    WorkerCounts(s, w, s'.workers[w], f);
  }

  lemma ExclusiveStartOther(s: Sched, w: nat, newId: nat, f: nat)
    requires StartEnabled(s, w, newId) && f in s.fibers && Exclusive(s, f)
    requires s.workers[w].pc.e.task != FiberTask(f)
    ensures Exclusive(StartNext(s, w, newId), f)
  {
    hide Exclusive;
    var s' := StartNext(s, w, newId);
    ExclusiveMove(s, s', w, s'.workers[w], f);
  }

  lemma ExclusiveStartOld(s: Sched, w: nat, newId: nat, f: nat)
    requires StartEnabled(s, w, newId) && f in s.fibers && Exclusive(s, f)
    ensures Exclusive(StartNext(s, w, newId), f)
  {
    hide StartNext, Exclusive;
    if s.workers[w].pc.e.task == FiberTask(f) {
      ExclusiveStartOwn(s, w, newId, f);
    } else {
      ExclusiveStartOther(s, w, newId, f);
    }
  }

  lemma ExclusiveNew(s: Sched, w: nat, newId: nat)
    requires Structure(s) && StartEnabled(s, w, newId) && s.workers[w].pc.e.task.CbTask?
    ensures Exclusive(StartNext(s, w, newId), newId)
  {
    WorkerCounts(s, w, StartNext(s, w, newId).workers[w], newId);
    UnknownFiber(s, newId);
  }

  lemma ExclusiveSlice(s: Sched, w: nat, a: SliceStep, f: nat)
    requires SliceEnabled(s, w, a) && OneWakeup(s, Slice(w, a)) && f in s.fibers && Exclusive(s, f)
    ensures Exclusive(SliceNext(s, w, a), f)
  {
    WorkerCounts(s, w, SliceNext(s, w, a).workers[w], f);
    CountRunners(s, f);
    CountSome(s.workers, RunnerOf(f));
    CountSome(s.workers, SlicerOf(f));
  }

  /** Another fiber's slice ends: its entry may go to the back of the queue, f's do not change. */
  lemma ExclusiveSettleOther(s: Sched, w: nat, f: nat)
    requires Enabled(s, Settle(w)) && f in s.fibers && Exclusive(s, f) && !InSliceOf(s.workers[w], f)
    ensures Exclusive(SettleNext(s, w), f)
  {
    var s' := SettleNext(s, w);
    hide Exclusive;
    var e := s.workers[w].pc.e;
    if SliceFiber(s, w).state == READY {
      var s1 := s.(queue := s.queue + [e]);
      CountAppend(s.queue, e, EntryOf(f));
      ExclusiveSame(s, s1, f);
      ExclusiveMove(s1, s', w, s'.workers[w], f);
    } else {
      ExclusiveMove(s, s', w, s'.workers[w], f);
    }
  }

  /** f's only slice ends: it has none left, and a READY f had no other wakeup. */
  lemma ExclusiveSettleOwn(s: Sched, w: nat, f: nat)
    requires Enabled(s, Settle(w)) && f in s.fibers && Exclusive(s, f) && InSliceOf(s.workers[w], f)
    ensures Exclusive(SettleNext(s, w), f)
  {
    var s' := SettleNext(s, w);
    WorkerCounts(s, w, s'.workers[w], f);
    CountAppend(s.queue, s.workers[w].pc.e, EntryOf(f));
    CountSome(s.workers, SlicerOf(f));
    assert SlicerOf(f)(s.workers[w]);
    assert Slices(s', f) == 0;
    RunnersBound(s'.workers, f);
  }

  lemma ExclusiveSettle(s: Sched, w: nat, f: nat)
    requires Enabled(s, Settle(w)) && f in s.fibers && Exclusive(s, f) && f in SettleNext(s, w).fibers
    ensures Exclusive(SettleNext(s, w), f)
  {
    hide SettleNext, Exclusive;
    if InSliceOf(s.workers[w], f) {
      ExclusiveSettleOwn(s, w, f);
    } else {
      ExclusiveSettleOther(s, w, f);
    }
  }

  lemma ExclusiveEmptyPass(s: Sched, w: nat, f: nat)
    requires Enabled(s, EmptyPass(w)) && (f in s.fibers ==> Exclusive(s, f))
    ensures var s' := EmptyPassNext(s, w); s'.fibers == s.fibers && (f in s.fibers ==> Exclusive(s', f))
  {
    hide Exclusive;
    if f in s.fibers {
      ExclusiveMove(s, EmptyPassNext(s, w), w, EmptyPassNext(s, w).workers[w], f);
    }
  }

  lemma ExclusiveIdle(s: Sched, w: nat, i: IdleStep, f: nat)
    requires Enabled(s, Idle(w, i)) && (f in s.fibers ==> Exclusive(s, f))
    ensures var s' := IdleNext(s, w, i); s'.fibers == s.fibers && (f in s.fibers ==> Exclusive(s', f))
  {
    hide Exclusive;
    if f in s.fibers {
      ExclusiveMove(s, IdleNext(s, w, i), w, IdleNext(s, w, i).workers[w], f);
    }
  }

  lemma ExclusiveStep(lines: Lines, s: Sched, step: Step, f: nat)
    requires Structure(s) && AllExclusive(s) && Enabled(s, step) && OneWakeup(s, step)
    requires f in Next(lines, s, step).fibers
    ensures Exclusive(Next(lines, s, step), f)
  {
    hide ScanNext, StartNext, SliceNext, SettleNext, IdleNext, EmptyPassNext, Exclusive, Structure, Wakeups, Slices;
    assert f in s.fibers ==> Exclusive(s, f);
    match step
    case Outside(o) => ExclusiveOutside(s, o, f);
    case Wake(_, task, thread) => ExclusivePush(s, task, thread, f);
    case Scan(w) => ScanKeepsFibers(lines, s, w); ExclusiveScan(lines, s, w, f);
    case Start(w, newId) =>
      StartMoves(s, w, newId);
      if f in s.fibers {
        ExclusiveStartOld(s, w, newId, f);
      } else {
        ExclusiveNew(s, w, newId);
      }
    case Slice(w, a) => SliceMoves(s, w, a); ExclusiveSlice(s, w, a, f);
    case Settle(w) => SettleMoves(s, w); ExclusiveSettle(s, w, f);
    case EmptyPass(w) => ExclusiveEmptyPass(s, w, f);
    case Idle(w, i) => ExclusiveIdle(s, w, i, f);
  }

  lemma ScanKeepsFibers(lines: Lines, s: Sched, w: nat)
    requires w < |s.workers|
    ensures ScanNext(lines, s, w).fibers == s.fibers
  {
  }

  lemma ExclusiveKept(lines: Lines, s: Sched, step: Step)
    requires Structure(s) && AllExclusive(s) && Enabled(s, step) && OneWakeup(s, step)
    ensures AllExclusive(Next(lines, s, step))
  {
    hide ScanNext, StartNext, SliceNext, SettleNext, Exclusive;
    var s' := Next(lines, s, step);
    forall f | f in s'.fibers ensures Exclusive(s', f) {
      ExclusiveStep(lines, s, step, f);
    }
  }

  // ---------- draining ----------

  /** The worker will take nothing more: its idle fiber has ended and its last scan found nothing. */
  predicate Passed(wk: Worker) {
    wk.pc.Exited? || (wk.pc.NothingPicked? && wk.idle == TERM && !wk.isActivate)
  }

  predicate AllPassed(s: Sched) {
    forall w :: 0 <= w < |s.workers| ==> Passed(s.workers[w])
  }

  ghost predicate OnlyPinnedLeft(s: Sched) {
    forall i :: 0 <= i < |s.queue| ==> s.queue[i].thread != ANY_THREAD
  }

  /** No producer outside the pool once stop() has set auto_stop_. */
  predicate NoLateProducer(s: Sched, step: Step) {
    step.Outside? && step.o.Submit? ==> !s.autoStop
  }

  lemma DrainScan(lines: Lines, s: Sched, w: nat)
    requires Structure(s) && Enabled(s, Scan(w)) && AllPassed(ScanNext(lines, s, w))
    ensures OnlyPinnedLeft(ScanNext(lines, s, w))
  {
    var s' := ScanNext(lines, s, w);
    assert FirstEligible(s.queue, s.fibers, w) == |s.queue| by {
      assert Passed(s'.workers[w]);
    }
    forall v | 0 <= v < |s.workers| ensures !InSlice(s.workers[v].pc) {
      assert Passed(s'.workers[v]);
    }
    forall i | 0 <= i < |s.queue| ensures s.queue[i].thread != ANY_THREAD {
      assert !Eligible(s.queue[i], s.fibers, w);
    }
  }

  lemma NotAllPassed(s: Sched, s': Sched, w: nat)
    requires MovesOne(s, s', w) && !s'.workers[w].pc.Exited?
    ensures !AllPassed(s')
  {
    assert !Passed(s'.workers[w]);
  }

  /** Once every worker has passed, only an outside producer could add work. */
  lemma DrainRest(lines: Lines, s: Sched, step: Step)
    requires Structure(s) && s.workers != [] && Enabled(s, step) && NoLateProducer(s, step) && !step.Scan?
    requires AllPassed(Next(lines, s, step))
    ensures AllPassed(s) && Next(lines, s, step).queue == s.queue
  {
    hide ExecOwned, ScanNext, StartNext, SliceNext, SettleNext, IdleNext;
    var s' := Next(lines, s, step);
    match step
    case Outside(_) => assert Passed(s'.workers[0]) && WorkerFits(s, s.workers[0]);
    case Wake(w, _, _) =>
    case EmptyPass(w) =>
      assert Passed(s'.workers[w]) && Passed(s.workers[w]);
      assert forall v :: 0 <= v < |s.workers| && v != w ==> s'.workers[v] == s.workers[v] && Passed(s'.workers[v]);
    case Start(w, newId) => StartMoves(s, w, newId); NotAllPassed(s, s', w);
    case Slice(w, a) => SliceMoves(s, w, a); NotAllPassed(s, s', w);
    case Settle(w) => SettleMoves(s, w); NotAllPassed(s, s', w);
    case Idle(w, i) => IdleMoves(s, w, i); NotAllPassed(s, s', w);
  }

  lemma DrainKept(lines: Lines, s: Sched, step: Step)
    requires Structure(s) && s.workers != [] && Enabled(s, step) && NoLateProducer(s, step)
    requires AllPassed(s) ==> OnlyPinnedLeft(s)
    ensures AllPassed(Next(lines, s, step)) ==> OnlyPinnedLeft(Next(lines, s, step))
  {
    hide ScanNext, StartNext, SliceNext, SettleNext, AllPassed, Structure;
    if AllPassed(Next(lines, s, step)) {
      if step.Scan? {
        DrainScan(lines, s, step.w);
      } else {
        DrainRest(lines, s, step);
      }
    }
  }
}
