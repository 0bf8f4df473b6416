/** Exactly when the lines of IOManager.cpp, as written, still do what the design asks. */
module FdTableDefects {
  import opened Options
  import opened Counting
  import opened FdTable
  import opened FdTableTheorems

  ghost predicate Good(o: Outcome) {
    o.Done? && Sound(o.t)
  }

  /** The call went through to the kernel and the kernel accepted it. */
  predicate Accepted(t: Table, fd: nat, e: Event, fault: bool) {
    fd < |t.fds| && t.fds[fd].event.Has(e) && !fault
  }

  // ---------- one call, with any lines as written ----------

  /** Line 138 as written: the event stays set over a slot that is emptied. */
  lemma WrittenDelBreaks(lines: Lines, t: Table, fd: nat, e: Event, fault: bool)
    requires Sound(t) && Accepted(t, fd, e, fault) && !lines.delClears
    ensures !Good(Del(lines, t, fd, e, fault))
  {
    assert FdFits(t.fds[fd], fd) && fd in t.kernel;
    assert !FdFits(Del(lines, t, fd, e, fault).t.fds[fd], fd);
  }

  /** delEvent keeps the table sound if and only if it is refused, or lines 138 and 151 are both as designed. */
  lemma DelSoundIff(lines: Lines, t: Table, fd: nat, e: Event, fault: bool)
    requires Sound(t)
    ensures Good(Del(lines, t, fd, e, fault)) <==>
            (Accepted(t, fd, e, fault) ==> lines.delClears && lines.delFetchesFirst)
  {
    if Accepted(t, fd, e, fault) {
      assert FdFits(t.fds[fd], fd) && fd in t.kernel;
      if lines.delClears {
        DelDesigned(t, fd, e, fault);
        DelSound(t, fd, e);
      } else {
        WrittenDelBreaks(lines, t, fd, e, fault);
      }
    }
  }

  /** With line 138 alone corrected, every delEvent that goes through fails the assertion at line 10, and no other
      delEvent is different. */
  lemma WrittenFetchAbortsIffAccepted(t: Table, fd: nat, e: Event, fault: bool)
    requires Sound(t)
    ensures var o := Del(DESIGNED.(delFetchesFirst := false), t, fd, e, fault);
            if Accepted(t, fd, e, fault) then o.Abort? else o == Del(DESIGNED, t, fd, e, fault)
  {
    if Accepted(t, fd, e, fault) {
      assert FdFits(t.fds[fd], fd) && fd in t.kernel;
    }
  }

  lemma WrittenCancelBreaks(lines: Lines, t: Table, fd: nat, e: Event, fault: bool)
    requires Sound(t) && Accepted(t, fd, e, fault) && !(lines.cancelClears && lines.triggerEmpties)
    ensures !Good(Cancel(lines, t, fd, e, fault))
  {
    assert FdFits(t.fds[fd], fd) && fd in t.kernel;
    var o := Cancel(lines, t, fd, e, fault);
    if lines.cancelClears {
      assert o.Done? ==> !FdFits(o.t.fds[fd], fd);
    } else {
      assert o.Done? ==> o.t.kernel[fd] != o.t.fds[fd].event;
    }
  }

  /** cancelEvent keeps the table sound if and only if it is refused, or lines 170 and 26-31 are as designed. */
  lemma CancelSoundIff(lines: Lines, t: Table, fd: nat, e: Event, fault: bool)
    requires Sound(t)
    ensures Good(Cancel(lines, t, fd, e, fault)) <==>
            (Accepted(t, fd, e, fault) ==> lines.cancelClears && lines.triggerEmpties)
  {
    if Accepted(t, fd, e, fault) {
      if lines.cancelClears && lines.triggerEmpties {
        assert Cancel(lines, t, fd, e, fault) == Cancel(DESIGNED, t, fd, e, fault);
        CancelRefinesClear(t, fd, e, fault);
        ClearSound(t, fd, Only(e));
      } else {
        WrittenCancelBreaks(lines, t, fd, e, fault);
      }
    }
  }

  /** Lines 26-31 as written: the assertion at lines 113-115 fails on the next addEvent of a cancelled event. */
  lemma WrittenTriggerForbidsRearming(lines: Lines, t: Table, fd: nat, e: Event, cb: Option<nat>, current: nat)
    requires Sound(t) && Accepted(t, fd, e, false) && !lines.triggerEmpties && lines.cancelClears
    ensures var c := Cancel(lines, t, fd, e, false);
            c.Done? && Add(lines, c.t, fd, e, cb, current, false).Abort?
  {
  }

  predicate AllAccepted(t: Table, fd: nat, fault: bool) {
    fd < |t.fds| && t.fds[fd].event != NONE && !fault
  }

  /** Lines 209 and 213 as written: cancelAll aborts exactly when it gets past the kernel with READ not armed; otherwise
      the test makes no difference. */
  lemma WrittenCancelAllAbortsIffNoRead(lines: Lines, t: Table, fd: nat, fault: bool)
    requires Sound(t) && !lines.cancelAllTests
    ensures var o := CancelAll(lines, t, fd, fault);
            if AllAccepted(t, fd, fault) && !t.fds[fd].event.read then o.Abort?
            else o == CancelAll(lines.(cancelAllTests := true), t, fd, fault)
  {
    if fd < |t.fds| {
      assert FdFits(t.fds[fd], fd) && (t.fds[fd].event != NONE ==> fd in t.kernel);
    }
  }

  lemma WrittenCancelAllBreaks(lines: Lines, t: Table, fd: nat, fault: bool)
    requires Sound(t) && AllAccepted(t, fd, fault) && !lines.triggerEmpties
    ensures !Good(CancelAll(lines, t, fd, fault))
  {
    assert FdFits(t.fds[fd], fd) && fd in t.kernel;
    var o := CancelAll(lines, t, fd, fault);
    assert o.Done? ==> !FdFits(o.t.fds[fd], fd);
  }

  lemma CancelAllAsDesigned(lines: Lines, t: Table, fd: nat, fault: bool)
    requires lines.triggerEmpties && lines.cancelAllTests
    ensures CancelAll(lines, t, fd, fault) == CancelAll(DESIGNED, t, fd, fault)
  {
  }

  lemma RefusedCancelAllIsIdle(lines: Lines, t: Table, fd: nat, fault: bool)
    requires Sound(t) && !AllAccepted(t, fd, fault)
    ensures CancelAll(lines, t, fd, fault) == Done(t, false)
  {
  }

  /** cancelAll keeps the table sound if and only if it is refused, or lines 26-31 are as designed and either 209 and
      213 are or READ is armed. */
  lemma CancelAllSoundIff(lines: Lines, t: Table, fd: nat, fault: bool)
    requires Sound(t)
    ensures Good(CancelAll(lines, t, fd, fault)) <==>
            (AllAccepted(t, fd, fault) ==> lines.triggerEmpties && (lines.cancelAllTests || t.fds[fd].event.read))
  {
    hide CancelAll, Sound;
    if !AllAccepted(t, fd, fault) {
      RefusedCancelAllIsIdle(lines, t, fd, fault);
    } else {
      if lines.triggerEmpties {
        if !lines.cancelAllTests {
          WrittenCancelAllAbortsIffNoRead(lines, t, fd, fault);
        }
        CancelAllAsDesigned(lines.(cancelAllTests := true), t, fd, fault);
        CancelAllRefinesClear(t, fd, fault);
        ClearSound(t, fd, t.fds[fd].event);
      } else {
        WrittenCancelAllBreaks(lines, t, fd, fault);
      }
    }
  }

  /** A report that reaches the kernel: it names something armed and the kernel does not fail. */
  predicate Reaches(t: Table, r: Report) {
    r.Report? && r.fd < |t.fds| && !r.fault && t.fds[r.fd].event.And(Reported(r)) != NONE
  }

  predicate SomethingLeft(t: Table, r: Report)
    requires Reaches(t, r)
  {
    t.fds[r.fd].event.Minus(Reported(r)) != NONE
  }

  predicate NamesUnarmed(t: Table, r: Report)
    requires Reaches(t, r)
  {
    (r.input && !t.fds[r.fd].event.read) || (r.output && !t.fds[r.fd].event.write)
  }

  /** Lines 293-300 as written: dispatch aborts exactly when a report that reaches the kernel names an unarmed event
      too; otherwise the missing mask makes no difference. */
  lemma WrittenFiringAbortsIffUnarmed(lines: Lines, t: Table, r: Report)
    requires Sound(t) && !lines.dispatchMasks
    ensures var o := Dispatch(lines, t, r);
            if Reaches(t, r) && NamesUnarmed(t, r) then o.Abort?
            else o == Dispatch(lines.(dispatchMasks := true), t, r)
  {
    if r.Report? && r.fd < |t.fds| {
      assert FdFits(t.fds[r.fd], r.fd) && (t.fds[r.fd].event != NONE ==> r.fd in t.kernel);
    }
  }

  /** Line 283 as written: the kernel keeps watching for what was dispatched when something remains armed. */
  lemma WrittenInterestBreaks(lines: Lines, t: Table, r: Report)
    requires Sound(t) && Reaches(t, r) && SomethingLeft(t, r) && !lines.dispatchAssigns
    ensures !Good(Dispatch(lines, t, r))
  {
    assert FdFits(t.fds[r.fd], r.fd) && r.fd in t.kernel;
    var o := Dispatch(lines, t, r);
    assert o.Done? ==> o.t.kernel[r.fd] != o.t.fds[r.fd].event;
  }

  /** Lines 26-31 as written: what was dispatched stays in its slot. */
  lemma WrittenTriggerBreaks(lines: Lines, t: Table, r: Report)
    requires Sound(t) && Reaches(t, r) && !lines.triggerEmpties
    ensures !Good(Dispatch(lines, t, r))
  {
    assert FdFits(t.fds[r.fd], r.fd) && r.fd in t.kernel;
    var o := Dispatch(lines, t, r);
    assert o.Done? ==> !FdFits(o.t.fds[r.fd], r.fd);
  }

  lemma NotReachedIsIdle(lines: Lines, t: Table, r: Report)
    requires Sound(t) && !Reaches(t, r)
    ensures Dispatch(lines, t, r) == Done(t, true)
  {
    if r.Report? && r.fd < |t.fds| {
      assert FdFits(t.fds[r.fd], r.fd);
    }
  }

  lemma DispatchAsDesigned(lines: Lines, t: Table, r: Report)
    requires Sound(t) && Reaches(t, r) && lines.triggerEmpties && lines.dispatchMasks
    requires lines.dispatchAssigns || !SomethingLeft(t, r)
    ensures Dispatch(lines, t, r) == Dispatch(DESIGNED, t, r)
  {
  }

  predicate ReportHarmless(lines: Lines, t: Table, r: Report) {
    Reaches(t, r) ==>
      && lines.triggerEmpties && (lines.dispatchAssigns || !SomethingLeft(t, r))
      && (lines.dispatchMasks || !NamesUnarmed(t, r))
  }

  /** Dispatch keeps the table sound if and only if the report does not reach the kernel, or lines 26-31 are as
      designed, line 283 is or nothing stays armed on the descriptor, and lines 293-300 are or no unarmed event is
      named. */
  lemma DispatchSoundIff(lines: Lines, t: Table, r: Report)
    requires Sound(t)
    ensures Good(Dispatch(lines, t, r)) <==> ReportHarmless(lines, t, r)
  {
    hide Dispatch, Sound;
    if !Reaches(t, r) {
      NotReachedIsIdle(lines, t, r);
    } else if !lines.triggerEmpties {
      WrittenTriggerBreaks(lines, t, r);
    } else if !lines.dispatchAssigns && SomethingLeft(t, r) {
      WrittenInterestBreaks(lines, t, r);
    } else {
      if !lines.dispatchMasks {
        WrittenFiringAbortsIffUnarmed(lines, t, r);
      }
      DispatchAsDesigned(lines.(dispatchMasks := true), t, r);
      DispatchRefinesClear(t, r);
      ClearSound(t, r.fd, Reported(r));
    }
  }

  /** Lines 76-82 as written: growing keeps the table sound exactly when nothing is armed anywhere. */
  lemma WrittenGrowthSoundIffIdle(t: Table, size: nat)
    requires Sound(t) && size >= |t.fds|
    ensures Sound(t.(fds := Resize(DESIGNED.(growKeeps := false), t.fds, size))) <==> t.pending == 0
    ensures t.pending == 0 ==> Resize(DESIGNED.(growKeeps := false), t.fds, size) == Resize(DESIGNED, t.fds, size)
  {
    var t' := t.(fds := Resize(DESIGNED.(growKeeps := false), t.fds, size));
    SumZero(t'.fds, Bits);
    SumZero(t.fds, Bits);
    if t.pending == 0 {
      forall i | 0 <= i < |t.fds| ensures t.fds[i] == NewFd(i) {
        assert FdFits(t.fds[i], i) && Bits(t.fds[i]) == 0;
      }
      GrowthKeeps(t, size);
      assert t'.fds == Resize(DESIGNED, t.fds, size);
    }
  }

  /** Line 88 as written: the descriptor is in bounds after growing exactly when it is neither 0 nor 1. */
  lemma WrittenSizeCoversIffNotStandard(fds: seq<Fd>, fd: nat)
    requires |fds| <= fd
    ensures fd < |Resize(DESIGNED.(growCovers := false), fds, GrowTo(DESIGNED.(growCovers := false), fd))| <==> fd >= 2
  {
  }

  /** An addEvent for which the table need not grow, or may. */
  predicate AddHarmless(lines: Lines, t: Table, fd: nat) {
    fd < |t.fds| || ((lines.growCovers || fd >= 2) && (lines.growKeeps || t.pending == 0))
  }

  lemma WrittenGrowthBreaks(lines: Lines, t: Table, fd: nat, e: Event, cb: Option<nat>, current: nat, fault: bool)
    requires Sound(t) && |t.fds| <= fd && fd < GrowTo(lines, fd) && !lines.growKeeps && t.pending > 0
    ensures !Good(Add(lines, t, fd, e, cb, current, fault))
  {
    var fds := Resize(lines, t.fds, GrowTo(lines, fd));
    var o := ArmAt(t.(fds := fds), fd, e, cb, current, fault);
    assert fd !in t.kernel;
    SumZero(fds, Bits);
    if !fault {
      SumUpdate(fds, fd, o.t.fds[fd], Bits);
    }
  }

  /** addEvent keeps the table sound if and only if the table need not grow, or line 88 is as designed or the descriptor
      at least 2, and lines 76-82 are or nothing is armed. */
  lemma AddSoundIff(lines: Lines, t: Table, fd: nat, e: Event, cb: Option<nat>, current: nat, fault: bool)
    requires Sound(t)
    ensures Good(Add(lines, t, fd, e, cb, current, fault)) <==> AddHarmless(lines, t, fd)
  {
    if fd < |t.fds| {
      StepSound(t, AddEvent(fd, e, cb, current, fault));
    } else if lines.growCovers || fd >= 2 {
      if !lines.growKeeps && t.pending > 0 {
        WrittenGrowthBreaks(lines, t, fd, e, cb, current, fault);
      } else {
        WrittenGrowthSoundIffIdle(t, GrowTo(DESIGNED, fd));
        assert Resize(lines, t.fds, GrowTo(lines, fd)) == Resize(DESIGNED, t.fds, GrowTo(DESIGNED, fd));
        StepSound(t, AddEvent(fd, e, cb, current, fault));
      }
    }
  }

  // ---------- all lines together ----------

  /** A run that goes wrong when some line is as written, whatever the others are. */
  function BadRun(lines: Lines): seq<Op> {
    if !lines.growCovers then [AddEvent(0, READ, Some(1), 0, false)]
    else if !lines.delClears || !lines.delFetchesFirst then
      [AddEvent(2, READ, Some(1), 0, false), DelEvent(2, READ, false)]
    else if !lines.cancelClears then [AddEvent(2, READ, Some(1), 0, false), CancelEvent(2, READ, false)]
    else if !lines.cancelAllTests then [AddEvent(2, WRITE, Some(1), 0, false), CancelAllEvents(2, false)]
    else if !lines.triggerEmpties then [AddEvent(2, READ, Some(1), 0, false), CancelAllEvents(2, false)]
    else if !lines.dispatchMasks then
      [AddEvent(2, READ, Some(1), 0, false), Batch([Report(2, true, true, false, false)])]
    else if !lines.growKeeps then
      [AddEvent(2, READ, Some(1), 0, false), AddEvent(10, READ, Some(1), 0, false)]
    else
      [AddEvent(2, READ, Some(1), 0, false), AddEvent(2, WRITE, Some(1), 0, false),
       Batch([Report(2, true, false, false, false)])]
  }

  /** The table with one event armed on descriptor 2. */
  function OneArmed(e: Event): Table {
    var f := NewFd(2).(event := Only(e)).WithSlot(e, Slot(Some(1), None, true, 0));
    Table([NewFd(0), NewFd(1), f], map[2 := Only(e)], 1, [], [], 1)
  }

  lemma FirstAdd(lines: Lines, e: Event)
    ensures Exec(lines, EMPTY, [AddEvent(2, e, Some(1), 0, false)]) == Done(OneArmed(e), true)
  {
  }

  lemma TwoSteps(lines: Lines, e: Event, op: Op)
    ensures Exec(lines, EMPTY, [AddEvent(2, e, Some(1), 0, false), op]) == Apply(lines, OneArmed(e), op)
  {
    FirstAdd(lines, e);
    var first := AddEvent(2, e, Some(1), 0, false);
    assert [first, op][..1] == [first];
  }

  lemma OneReport(lines: Lines, t: Table, r: Report)
    ensures DispatchAll(lines, t, [r]) == Dispatch(lines, t, r)
  {
  }

  lemma OneArmedSound(e: Event)
    ensures Sound(OneArmed(e))
  {
    EmptySound();
    GrowthKeeps(EMPTY, 3);
    OneArmedIsArm(e);
    ArmSound(EMPTY.(fds := Resize(DESIGNED, [], 3)), 2, e, Some(1), 0);
  }

  lemma OneArmedIsArm(e: Event)
    ensures Arm(EMPTY.(fds := Resize(DESIGNED, [], 3)), 2, e, Some(1), 0) == OneArmed(e)
  {
    assert Resize(DESIGNED, [], 3) == [NewFd(0), NewFd(1), NewFd(2)];
    assert Arm(EMPTY.(fds := [NewFd(0), NewFd(1), NewFd(2)]), 2, e, Some(1), 0).fds == OneArmed(e).fds;
  }

  /** The table with both events armed on descriptor 2. */
  function BothArmed(): Table {
    Arm(OneArmed(READ), 2, WRITE, Some(1), 0)
  }

  lemma SecondAdd(lines: Lines)
    ensures Add(lines, OneArmed(READ), 2, WRITE, Some(1), 0, false) == Done(BothArmed(), true)
  {
  }

  lemma BothArmedMask()
    ensures |BothArmed().fds| == 3 && BothArmed().fds[2].event == Mask(true, true)
  {
  }

  /** The lines that a run of two calls on one descriptor shows. */
  predicate CallsDesigned(lines: Lines) {
    lines.delClears && lines.delFetchesFirst && lines.cancelClears && lines.cancelAllTests && lines.triggerEmpties
  }

  lemma BadDel(lines: Lines)
    requires !lines.delClears || !lines.delFetchesFirst
    ensures !Good(Del(lines, OneArmed(READ), 2, READ, false))
  {
    var o := Del(lines, OneArmed(READ), 2, READ, false);
    assert o.Done? ==> !FdFits(o.t.fds[2], 2);
  }

  lemma BadCancel(lines: Lines)
    requires !lines.cancelClears
    ensures !Good(Cancel(lines, OneArmed(READ), 2, READ, false))
  {
    var o := Cancel(lines, OneArmed(READ), 2, READ, false);
    assert o.t.kernel[2] != o.t.fds[2].event;
  }

  lemma BadCancelAll(lines: Lines)
    requires !lines.cancelAllTests
    ensures !Good(CancelAll(lines, OneArmed(WRITE), 2, false))
  {
  }

  lemma BadTrigger(lines: Lines)
    requires lines.cancelAllTests && !lines.triggerEmpties
    ensures !Good(CancelAll(lines, OneArmed(READ), 2, false))
  {
    assert !FdFits(CancelAll(lines, OneArmed(READ), 2, false).t.fds[2], 2);
  }

  lemma BadRunOfTwo(lines: Lines)
    requires lines.growCovers && !CallsDesigned(lines)
    ensures !Good(Exec(lines, EMPTY, BadRun(lines)))
  {
    hide Exec, Del, Cancel, CancelAll, Good;
    if !lines.delClears || !lines.delFetchesFirst {
      TwoSteps(lines, READ, DelEvent(2, READ, false));
      BadDel(lines);
    } else if !lines.cancelClears {
      TwoSteps(lines, READ, CancelEvent(2, READ, false));
      BadCancel(lines);
    } else if !lines.cancelAllTests {
      TwoSteps(lines, WRITE, CancelAllEvents(2, false));
      BadCancelAll(lines);
    } else {
      TwoSteps(lines, READ, CancelAllEvents(2, false));
      BadTrigger(lines);
    }
  }

  lemma BadFirstAdd(lines: Lines)
    requires !lines.growCovers
    ensures !Good(Exec(lines, EMPTY, BadRun(lines)))
  {
  }

  lemma BadGrowth(lines: Lines)
    requires lines.growCovers && !lines.growKeeps
    ensures !Good(Exec(lines, EMPTY, [AddEvent(2, READ, Some(1), 0, false), AddEvent(10, READ, Some(1), 0, false)]))
  {
    TwoSteps(lines, READ, AddEvent(10, READ, Some(1), 0, false));
    var o := Add(lines, OneArmed(READ), 10, READ, Some(1), 0, false);
    assert 2 in o.t.kernel && o.t.fds[2].event == NONE;
  }

  lemma BadDispatch(lines: Lines)
    requires lines == DESIGNED.(dispatchAssigns := false)
    ensures !Good(Exec(lines, EMPTY, BadRun(lines)))
  {
    hide Add, Dispatch, Sound, BothArmed, OneArmed;
    var ops := BadRun(lines);
    var r := Report(2, true, false, false, false);
    assert ops[..2] == [AddEvent(2, READ, Some(1), 0, false), AddEvent(2, WRITE, Some(1), 0, false)];
    TwoSteps(lines, READ, AddEvent(2, WRITE, Some(1), 0, false));
    SecondAdd(lines);
    OneReport(lines, BothArmed(), r);
    BothArmedSound();
    BothArmedMask();
    WrittenInterestBreaks(lines, BothArmed(), r);
  }

  lemma BothArmedSound()
    ensures Sound(BothArmed())
  {
    hide Sound;
    OneArmedSound(READ);
    ArmSound(OneArmed(READ), 2, WRITE, Some(1), 0);
  }

  ghost predicate RunsWell(lines: Lines, ops: seq<Op>) {
    Good(Exec(lines, EMPTY, ops))
  }

  /** Every run is sound if and only if every one of these lines is as designed. */
  lemma EveryRunSoundIffDesigned(lines: Lines)
    ensures (forall ops :: RunsWell(lines, ops)) <==> lines == DESIGNED
  {
    if lines == DESIGNED {
      forall ops ensures RunsWell(lines, ops) {
        RunSound(ops);
      }
    } else {
      assert !RunsWell(lines, BadRun(lines)) by {
        if !lines.growCovers {
          BadFirstAdd(lines);
        } else if !CallsDesigned(lines) {
          BadRunOfTwo(lines);
        } else if !lines.dispatchMasks {
          TwoSteps(lines, READ, Batch([Report(2, true, true, false, false)]));
          OneReport(lines, OneArmed(READ), Report(2, true, true, false, false));
        } else if !lines.growKeeps {
          BadGrowth(lines);
        } else {
          BadDispatch(lines);
        }
      }
    }
  }
}
