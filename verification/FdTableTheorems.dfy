/** What the event table keeps over every run, and the simple operation that cancel and dispatch refine. */
module FdTableTheorems {
  import opened Counting
  import opened Options
  import opened FdTable

  // ---------- the invariant ----------

  /** An armed slot waits with one continuation and a scheduler to hand it to. */
  predicate Filled(slot: Slot) {
    slot.scheduler && (slot.cb.Some? <==> slot.fiber.None?)
  }

  /** Each slot is filled exactly when its bit is set. */
  predicate FdFits(f: Fd, i: nat) {
    && f.fd == i
    && (if f.event.read then Filled(f.read) else f.read == EMPTY_SLOT)
    && (if f.event.write then Filled(f.write) else f.write == EMPTY_SLOT)
  }

  ghost predicate FdsFit(t: Table) {
    forall i :: 0 <= i < |t.fds| ==> FdFits(t.fds[i], i)
  }

  function Bits(f: Fd): nat {
    f.event.Size()
  }

  /** The armed slots of f that wait with exactly x. */
  function Waiting(x: Fired): Fd -> nat {
    (f: Fd) => One(f.event.read && Fires(f.read) == [x]) + One(f.event.write && Fires(f.write) == [x])
  }

  /** The armed slots of f that were filled by the addEvent numbered k. */
  function Armed(k: nat): Fd -> nat {
    (f: Fd) => One(f.event.read && f.read.ticket == k) + One(f.event.write && f.write.ticket == k)
  }

  function FiredBy(k: nat): Fired -> bool {
    (x: Fired) => x.ticket == k
  }

  function Is<T(==)>(x: T): T -> bool {
    (y: T) => y == x
  }

  /** In how many places the addEvent numbered k is: armed, scheduled or discarded. */
  function Fates(t: Table, k: nat): nat {
    Sum(t.fds, Armed(k)) + Count(t.scheduled, FiredBy(k)) + Count(t.discarded, Is(k))
  }

  ghost predicate Resolved(t: Table) {
    forall k: nat :: Fates(t, k) == One(k < t.issued)
  }

  ghost predicate CountsFit(t: Table) {
    FdsFit(t) && t.pending == Sum(t.fds, Bits) && Resolved(t)
  }

  /** The kernel watches exactly the armed descriptors, each with its event mask. */
  ghost predicate KernelAgrees(t: Table) {
    forall fd: nat ::
      && (fd in t.kernel <==> fd < |t.fds| && t.fds[fd].event != NONE)
      && (fd in t.kernel ==> t.kernel[fd] == t.fds[fd].event)
  }

  ghost predicate Sound(t: Table) {
    CountsFit(t) && KernelAgrees(t)
  }

  // ---------- the simple operation ----------

  /** f with the events of m disarmed. */
  function ClearFd(f: Fd, m: Mask): Fd {
    Fd(f.fd, f.event.Minus(m), if m.read then EMPTY_SLOT else f.read, if m.write then EMPTY_SLOT else f.write)
  }

  /** Disarm the events of m on descriptor i and schedule what waited there, read before write. */
  function Clear(t: Table, i: nat, m: Mask): Table
    requires i < |t.fds|
  {
    var f := t.fds[i];
    var hit := f.event.And(m);
    var left := f.event.Minus(m);
    t.(fds := t.fds[i := ClearFd(f, m)],
       kernel := if hit == NONE then t.kernel else if left == NONE then t.kernel - {i} else t.kernel[i := left],
       pending := if t.pending < hit.Size() then 0 else t.pending - hit.Size(),
       scheduled := t.scheduled + (if hit.read then Fires(f.read) else [])
                                + (if hit.write then Fires(f.write) else []))
  }

  lemma PendingCovers(t: Table, i: nat)
    requires CountsFit(t) && i < |t.fds|
    ensures t.pending >= Bits(t.fds[i])
  {
    SumUpdate(t.fds, i, NewFd(i), Bits);
  }

  /** Both triggers in a row, as cancelAll and dispatch make them. */
  function TriggerBoth(t: Table, i: nat, fire: Mask): Outcome
    requires i < |t.fds|
  {
    TriggerIf(DESIGNED, TriggerIf(DESIGNED, Done(t, true), i, READ, fire.read), i, WRITE, fire.write)
  }

  lemma TriggerBothIsClear(t: Table, kernel: map<nat, Mask>, i: nat, m: Mask)
    requires i < |t.fds| && FdFits(t.fds[i], i) && t.pending >= Bits(t.fds[i])
    ensures TriggerBoth(t.(kernel := kernel), i, t.fds[i].event.And(m)) == Done(Clear(t, i, m).(kernel := kernel), true)
  {
  }

  /** cancelEvent returns true exactly when the event is armed and the kernel does not fail; then it clears it. */
  lemma CancelRefinesClear(t: Table, fd: nat, e: Event, fault: bool)
    requires Sound(t)
    ensures Cancel(DESIGNED, t, fd, e, fault) ==
              if fd < |t.fds| && t.fds[fd].event.Has(e) && !fault then Done(Clear(t, fd, Only(e)), true)
              else Done(t, false)
  {
    if fd < |t.fds| && t.fds[fd].event.Has(e) && !fault {
      PendingCovers(t, fd);
      assert fd in t.kernel && FdFits(t.fds[fd], fd);
    }
  }

  /** cancelAll clears everything armed. */
  lemma CancelAllRefinesClear(t: Table, fd: nat, fault: bool)
    requires Sound(t)
    ensures CancelAll(DESIGNED, t, fd, fault) ==
              if fd < |t.fds| && t.fds[fd].event != NONE && !fault then Done(Clear(t, fd, t.fds[fd].event), true)
              else Done(t, false)
  {
    if fd < |t.fds| && t.fds[fd].event != NONE && !fault {
      var f := t.fds[fd];
      PendingCovers(t, fd);
      assert fd in t.kernel && FdFits(f, fd);
      var kernel := t.kernel - {fd};
      TriggerBothIsClear(t, kernel, fd, f.event);
      var o := TriggerIf(DESIGNED, Done(t.(kernel := kernel), true), fd, READ, f.event.read);
      assert CancelAllTest(DESIGNED, o, fd, WRITE) == f.event.write;
    }
  }

  /** The events a report counts as ready, whatever is armed. */
  function Reported(r: Report): Mask
    requires r.Report?
  {
    Mask(r.input || r.hangup, r.output || r.hangup)
  }

  /** One report clears what it reports, unless the kernel fails. */
  lemma DispatchRefinesClear(t: Table, r: Report)
    requires Sound(t)
    ensures Dispatch(DESIGNED, t, r) ==
              if r.Tickle? || |t.fds| <= r.fd || r.fault then Done(t, true) else Done(Clear(t, r.fd, Reported(r)), true)
  {
    if r.Report? && r.fd < |t.fds| {
      var f := t.fds[r.fd];
      assert FdFits(f, r.fd) && (f.event != NONE ==> r.fd in t.kernel);
      var ready := Ready(r, f.event);
      assert f.event.And(ready) == f.event.And(Reported(r)) && f.event.Minus(ready) == f.event.Minus(Reported(r));
      if f.event.And(ready) == NONE {
        assert ClearFd(f, Reported(r)) == f;
        assert t.fds[r.fd := f] == t.fds;
      } else if !r.fault {
        PendingCovers(t, r.fd);
        var left := f.event.Minus(ready);
        var kernel := if left == NONE then t.kernel - {r.fd} else t.kernel[r.fd := left];
        TriggerBothIsClear(t, kernel, r.fd, Reported(r));
      }
    }
  }

  // ---------- soundness of one step ----------

  /** Replacing one context, with the counters and logs moved to match, keeps the counts. */
  lemma CountsByPut(t: Table, t': Table, i: nat, f: Fd)
    requires CountsFit(t) && i < |t.fds| && t'.fds == t.fds[i := f] && FdFits(f, i)
    requires t'.pending == t.pending - Bits(t.fds[i]) + Bits(f)
    requires forall k: nat ::
      Count(t'.scheduled, FiredBy(k)) + Count(t'.discarded, Is(k)) + Armed(k)(f) + One(k < t.issued) ==
      Count(t.scheduled, FiredBy(k)) + Count(t.discarded, Is(k)) + Armed(k)(t.fds[i]) + One(k < t'.issued)
    ensures CountsFit(t')
  {
    SumUpdate(t.fds, i, f, Bits);
    forall k: nat ensures Fates(t', k) == One(k < t'.issued) {
      SumUpdate(t.fds, i, f, Armed(k));
      assert Fates(t, k) == One(k < t.issued);
    }
  }

  lemma KernelByPut(t: Table, t': Table, i: nat, f: Fd)
    requires KernelAgrees(t) && i < |t.fds| && t'.fds == t.fds[i := f]
    requires t'.kernel == if f.event == NONE then t.kernel - {i} else t.kernel[i := f.event]
    ensures KernelAgrees(t')
  {
  }

  lemma CountFires(s: seq<Fired>, slot: Slot, k: nat)
    requires Filled(slot)
    ensures Count(s + Fires(slot), FiredBy(k)) == Count(s, FiredBy(k)) + One(slot.ticket == k)
  {
    CountAppend(s, Fires(slot)[0], FiredBy(k));
  }

  lemma ClearCounts(t: Table, i: nat, m: Mask)
    requires CountsFit(t) && i < |t.fds|
    ensures CountsFit(Clear(t, i, m))
  {
    var t' := Clear(t, i, m);
    var f := t.fds[i];
    PendingCovers(t, i);
    assert FdFits(f, i);
    forall k: nat
      ensures Count(t'.scheduled, FiredBy(k)) + Armed(k)(ClearFd(f, m)) == Count(t.scheduled, FiredBy(k)) + Armed(k)(f)
    {
      var hit := f.event.And(m);
      var s1 := t.scheduled + (if hit.read then Fires(f.read) else []);
      if hit.read {
        CountFires(t.scheduled, f.read, k);
      }
      if hit.write {
        CountFires(s1, f.write, k);
      }
      assert t.scheduled + [] == t.scheduled && s1 + [] == s1;
    }
    CountsByPut(t, t', i, ClearFd(f, m));
  }

  lemma ClearSound(t: Table, i: nat, m: Mask)
    requires Sound(t) && i < |t.fds|
    ensures Sound(Clear(t, i, m))
  {
    ClearCounts(t, i, m);
    var f := t.fds[i];
    assert FdFits(f, i);
    if f.event.And(m) == NONE {
      assert ClearFd(f, m) == f && t.fds[i := f] == t.fds;
    } else {
      KernelByPut(t, Clear(t, i, m), i, ClearFd(f, m));
    }
  }

  lemma GrowthFates(t: Table, added: seq<Fd>, k: nat)
    requires Sound(t) && forall i :: 0 <= i < |added| ==> Armed(k)(added[i]) == 0
    ensures Fates(t.(fds := t.fds + added), k) == One(k < t.issued)
  {
    SumConcat(t.fds, added, Armed(k));
    SumZero(added, Armed(k));
    assert Fates(t, k) == One(k < t.issued);
  }

  lemma AddedSound(t: Table, added: seq<Fd>)
    requires Sound(t) && forall i :: 0 <= i < |added| ==> added[i] == NewFd(|t.fds| + i)
    ensures Sound(t.(fds := t.fds + added))
  {
    hide Fates;
    SumConcat(t.fds, added, Bits);
    SumZero(added, Bits);
    forall k: nat ensures Fates(t.(fds := t.fds + added), k) == One(k < t.issued) {
      GrowthFates(t, added, k);
    }
  }

  /** Growing keeps every context and its events, and adds only idle ones. */
  lemma GrowthKeeps(t: Table, size: nat)
    requires Sound(t) && size >= |t.fds|
    ensures Sound(t.(fds := Resize(DESIGNED, t.fds, size))) && t.fds <= Resize(DESIGNED, t.fds, size)
    ensures forall i :: |t.fds| <= i < size ==> Resize(DESIGNED, t.fds, size)[i] == NewFd(i)
  {
    hide Sound;
    var fds := Resize(DESIGNED, t.fds, size);
    assert fds == t.fds + fds[|t.fds|..];
    AddedSound(t, fds[|t.fds|..]);
  }

  /** The table addEvent works on: grown when fd lies outside it. */
  function Grown(t: Table, fd: nat): Table {
    if |t.fds| <= fd then t.(fds := Resize(DESIGNED, t.fds, GrowTo(DESIGNED, fd))) else t
  }

  lemma GrownSound(t: Table, fd: nat)
    requires Sound(t)
    ensures Sound(Grown(t, fd)) && fd < |Grown(t, fd).fds| && t.fds <= Grown(t, fd).fds
    ensures Grown(t, fd) == t.(fds := Grown(t, fd).fds)
    ensures Grown(t, fd).fds[fd] == if fd < |t.fds| then t.fds[fd] else NewFd(fd)
    ensures |Grown(t, fd).fds| == if fd < |t.fds| then |t.fds| else if fd < 2 then fd + 1 else fd + fd / 2
  {
    if |t.fds| <= fd {
      GrowthKeeps(t, GrowTo(DESIGNED, fd));
    }
  }

  /** The table after a successful addEvent. */
  function Arm(t: Table, fd: nat, e: Event, cb: Option<nat>, current: nat): Table
    requires fd < |t.fds|
  {
    var mask := t.fds[fd].event.Or(Only(e));
    var slot := Slot(cb, if cb.None? then Some(current) else None, true, t.issued);
    Put(t.(kernel := t.kernel[fd := mask], pending := t.pending + 1, issued := t.issued + 1),
        fd, t.fds[fd].(event := mask).WithSlot(e, slot))
  }

  /** addEvent never aborts, and returns true exactly when the event is not armed and the kernel does not fail. */
  lemma AddDesigned(t: Table, fd: nat, e: Event, cb: Option<nat>, current: nat, fault: bool)
    requires Sound(t)
    ensures fd < |Grown(t, fd).fds|
    ensures Add(DESIGNED, t, fd, e, cb, current, fault) ==
              if !Grown(t, fd).fds[fd].event.Has(e) && !fault then Done(Arm(Grown(t, fd), fd, e, cb, current), true)
              else Done(Grown(t, fd), false)
  {
    GrownSound(t, fd);
    var g := Grown(t, fd);
    assert FdFits(g.fds[fd], fd) && (fd in g.kernel <==> g.fds[fd].event != NONE);
  }

  lemma ArmSound(t: Table, fd: nat, e: Event, cb: Option<nat>, current: nat)
    requires Sound(t) && fd < |t.fds| && !t.fds[fd].event.Has(e)
    ensures Sound(Arm(t, fd, e, cb, current))
  {
    var t' := Arm(t, fd, e, cb, current);
    assert FdFits(t.fds[fd], fd);
    CountsByPut(t, t', fd, t'.fds[fd]);
    KernelByPut(t, t', fd, t'.fds[fd]);
  }

  /** delEvent returns true exactly when the event is armed and the kernel does not fail; it disarms the event,
      schedules nothing and discards the addEvent. */
  lemma DelDesigned(t: Table, fd: nat, e: Event, fault: bool)
    requires Sound(t)
    ensures Del(DESIGNED, t, fd, e, fault) ==
              if fd < |t.fds| && t.fds[fd].event.Has(e) && !fault then
                Done(Clear(t, fd, Only(e)).(scheduled := t.scheduled,
                                            discarded := t.discarded + [t.fds[fd].SlotOf(e).ticket]), true)
              else Done(t, false)
  {
    if fd < |t.fds| && t.fds[fd].event.Has(e) && !fault {
      PendingCovers(t, fd);
      assert fd in t.kernel && FdFits(t.fds[fd], fd);
    }
  }

  lemma DelSound(t: Table, fd: nat, e: Event)
    requires Sound(t) && fd < |t.fds| && t.fds[fd].event.Has(e)
    ensures Sound(Clear(t, fd, Only(e)).(scheduled := t.scheduled,
                                         discarded := t.discarded + [t.fds[fd].SlotOf(e).ticket]))
  {
    var f := t.fds[fd];
    var t' := Clear(t, fd, Only(e)).(scheduled := t.scheduled, discarded := t.discarded + [f.SlotOf(e).ticket]);
    PendingCovers(t, fd);
    assert FdFits(f, fd);
    forall k: nat
      ensures Count(t'.discarded, Is(k)) + Armed(k)(ClearFd(f, Only(e))) == Count(t.discarded, Is(k)) + Armed(k)(f)
    {
      CountAppend(t.discarded, f.SlotOf(e).ticket, Is(k));
    }
    CountsByPut(t, t', fd, ClearFd(f, Only(e)));
    KernelByPut(t, t', fd, ClearFd(f, Only(e)));
  }

  // ---------- batches ----------

  /** Everything a batch reports as ready on descriptor i, faults apart. */
  function ReadyIn(batch: seq<Report>, i: nat): Mask {
    if batch == [] then NONE
    else
      var r := batch[|batch| - 1];
      var before := ReadyIn(batch[..|batch| - 1], i);
      if r.Report? && r.fd == i && !r.fault then before.Or(Reported(r)) else before
  }

  /** Where x is: waiting in an armed slot, or scheduled. */
  function Sightings(t: Table, x: Fired): nat {
    Sum(t.fds, Waiting(x)) + Count(t.scheduled, Is(x))
  }

  lemma ClearMoves(t: Table, i: nat, m: Mask, x: Fired)
    requires CountsFit(t) && i < |t.fds|
    ensures Sightings(Clear(t, i, m), x) == Sightings(t, x)
  {
    var f := t.fds[i];
    assert FdFits(f, i);
    SumUpdate(t.fds, i, ClearFd(f, m), Waiting(x));
    var hit := f.event.And(m);
    var s1 := t.scheduled + (if hit.read then Fires(f.read) else []);
    if hit.read {
      CountAppend(t.scheduled, Fires(f.read)[0], Is(x));
    }
    if hit.write {
      CountAppend(s1, Fires(f.write)[0], Is(x));
    }
    assert t.scheduled + [] == t.scheduled && s1 + [] == s1;
  }

  /** Dispatching a batch, repeats and kernel failures included, is one set operation on each descriptor: it
      keeps old minus ready, its kernel mask and the counter follow, and every continuation that left a slot
      was scheduled, each exactly once. */
  lemma {:induction false} BatchRefinesClear(t: Table, batch: seq<Report>) returns (t': Table)
    requires Sound(t)
    ensures DispatchAll(DESIGNED, t, batch) == Done(t', true) && Sound(t')
    ensures |t'.fds| == |t.fds| && forall i :: 0 <= i < |t.fds| ==> t'.fds[i] == ClearFd(t.fds[i], ReadyIn(batch, i))
    ensures forall x :: Sightings(t', x) == Sightings(t, x)
    ensures t.scheduled <= t'.scheduled && t'.discarded == t.discarded && t'.issued == t.issued
  {
    if batch == [] {
      t' := t;
      forall i | 0 <= i < |t.fds| ensures t.fds[i] == ClearFd(t.fds[i], NONE) {
        assert FdFits(t.fds[i], i);
      }
    } else {
      var r := batch[|batch| - 1];
      var t1 := BatchRefinesClear(t, batch[..|batch| - 1]);
      DispatchRefinesClear(t1, r);
      t' := Dispatch(DESIGNED, t1, r).t;
      if r.Report? && r.fd < |t.fds| && !r.fault {
        ClearSound(t1, r.fd, Reported(r));
        forall x ensures Sightings(t', x) == Sightings(t, x) {
          ClearMoves(t1, r.fd, Reported(r), x);
        }
      }
    }
  }

  // ---------- runs ----------

  lemma StepSound(t: Table, op: Op)
    requires Sound(t)
    ensures Apply(DESIGNED, t, op).Done? && Sound(Apply(DESIGNED, t, op).t)
  {
    match op
    case AddEvent(fd, e, cb, current, fault) =>
      AddDesigned(t, fd, e, cb, current, fault);
      GrownSound(t, fd);
      if !Grown(t, fd).fds[fd].event.Has(e) {
        ArmSound(Grown(t, fd), fd, e, cb, current);
      }
    case DelEvent(fd, e, fault) =>
      DelDesigned(t, fd, e, fault);
      if fd < |t.fds| && t.fds[fd].event.Has(e) {
        DelSound(t, fd, e);
      }
    case CancelEvent(fd, e, fault) =>
      CancelRefinesClear(t, fd, e, fault);
      if fd < |t.fds| {
        ClearSound(t, fd, Only(e));
      }
    case CancelAllEvents(fd, fault) =>
      CancelAllRefinesClear(t, fd, fault);
      if fd < |t.fds| {
        ClearSound(t, fd, t.fds[fd].event);
      }
    case Batch(batch) =>
      var t' := BatchRefinesClear(t, batch);
  }

  lemma EmptySound()
    ensures Sound(EMPTY)
  {
  }

  /** Over any run, whatever the kernel fails: no assertion fails, the counter is the number of armed events,
      the kernel agrees with the table, and every addEvent is armed, scheduled or discarded, exactly one. */
  lemma {:induction false} RunSound(ops: seq<Op>)
    ensures Exec(DESIGNED, EMPTY, ops).Done? && Sound(Exec(DESIGNED, EMPTY, ops).t)
  {
    if ops == [] {
      EmptySound();
    } else {
      RunSound(ops[..|ops| - 1]);
      StepSound(Exec(DESIGNED, EMPTY, ops[..|ops| - 1]).t, ops[|ops| - 1]);
    }
  }

  /** Clearing a freshly armed event restores contexts, kernel and counter. */
  lemma ClearUndoesArm(t: Table, fd: nat, e: Event, cb: Option<nat>, current: nat)
    requires Sound(t) && fd < |t.fds| && !t.fds[fd].event.Has(e)
    ensures var c := Clear(Arm(t, fd, e, cb, current), fd, Only(e));
            c.fds == t.fds && c.kernel == t.kernel && c.pending == t.pending
  {
    var a := Arm(t, fd, e, cb, current);
    var f := t.fds[fd];
    assert FdFits(f, fd) && (fd in t.kernel <==> f.event != NONE);
    assert ClearFd(a.fds[fd], Only(e)) == f;
    assert a.fds[fd := f] == t.fds;
    if f.event == NONE {
      assert a.kernel - {fd} == t.kernel;
    } else {
      assert a.kernel[fd := f.event] == t.kernel;
    }
  }

  /** addEvent of e on fd is not refused for being armed already. */
  predicate Disarmed(t: Table, fd: nat, e: Event) {
    fd < |t.fds| ==> !t.fds[fd].event.Has(e)
  }

  /** delEvent undoes addEvent but for the numbering and the growth of the table. */
  lemma DelUndoesAdd(t: Table, fd: nat, e: Event, cb: Option<nat>, current: nat)
    requires Sound(t) && Disarmed(t, fd, e)
    ensures var a := Add(DESIGNED, t, fd, e, cb, current, false);
            a.Done? && Del(DESIGNED, a.t, fd, e, false) ==
                         Done(Grown(t, fd).(discarded := t.discarded + [t.issued], issued := t.issued + 1), true)
  {
    hide Add, Del, Sound, Arm, Clear, Grown;
    GrownSound(t, fd);
    var g := Grown(t, fd);
    AddDesigned(t, fd, e, cb, current, false);
    ArmSound(g, fd, e, cb, current);
    DelDesigned(Arm(g, fd, e, cb, current), fd, e, false);
    ClearUndoesArm(g, fd, e, cb, current);
    ArmFills(g, fd, e, cb, current);
  }

  /** cancelEvent hands over what addEvent armed, and leaves the rest as it was, the table possibly grown. */
  lemma CancelFiresAdd(t: Table, fd: nat, e: Event, cb: Option<nat>, current: nat)
    requires Sound(t) && Disarmed(t, fd, e)
    ensures var a := Add(DESIGNED, t, fd, e, cb, current, false);
            a.Done? && Cancel(DESIGNED, a.t, fd, e, false).Done? &&
            var c := Cancel(DESIGNED, a.t, fd, e, false).t;
            && c.scheduled == t.scheduled + [Fired(t.issued, if cb.Some? then Callback(cb.value) else Resume(current))]
            && c.fds == Grown(t, fd).fds && c.kernel == t.kernel && c.pending == t.pending
  {
    hide Add, Cancel, Sound, Arm, Clear, Grown;
    GrownSound(t, fd);
    var g := Grown(t, fd);
    AddDesigned(t, fd, e, cb, current, false);
    ArmSound(g, fd, e, cb, current);
    CancelRefinesClear(Arm(g, fd, e, cb, current), fd, e, false);
    ClearUndoesArm(g, fd, e, cb, current);
    ArmFills(g, fd, e, cb, current);
  }

  /** What arming leaves in the slot, and what clearing it again hands over. */
  lemma ArmFills(t: Table, fd: nat, e: Event, cb: Option<nat>, current: nat)
    requires fd < |t.fds| && !t.fds[fd].event.Has(e)
    ensures var a := Arm(t, fd, e, cb, current);
            && |a.fds| == |t.fds| && a.fds[fd].event.Has(e) && a.fds[fd].SlotOf(e).ticket == t.issued
            && a.discarded == t.discarded && a.scheduled == t.scheduled && a.issued == t.issued + 1
            && Clear(a, fd, Only(e)).discarded == t.discarded && Clear(a, fd, Only(e)).issued == t.issued + 1
            && Clear(a, fd, Only(e)).scheduled ==
                 t.scheduled + [Fired(t.issued, if cb.Some? then Callback(cb.value) else Resume(current))]
  {
  }
}
