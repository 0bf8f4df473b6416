/** Which runs keep the event table sound, whichever lines of IOManager.cpp are as written. */
module FdTableRuns {
  import opened FdTable
  import opened FdTableTheorems
  import opened FdTableDefects

  // ---------- runs, with any lines as written ----------

  /** The table is sound after the call, and after each report of a batch. */
  ghost predicate GoodThroughout(lines: Lines, t: Table, op: Op) {
    match op
    case Batch(batch) => forall k :: 0 <= k <= |batch| ==> Good(DispatchAll(lines, t, batch[..k]))
    case _ => Good(Apply(lines, t, op))
  }

  /** Each report of the batch, when its turn comes, is harmless. */
  ghost predicate BatchHarmless(lines: Lines, t: Table, batch: seq<Report>) {
    forall k :: 0 <= k < |batch| ==>
      DispatchAll(lines, t, batch[..k]).Done? && ReportHarmless(lines, DispatchAll(lines, t, batch[..k]).t, batch[k])
  }

  /** What a caller can check before the call. */
  ghost predicate Harmless(lines: Lines, t: Table, op: Op) {
    match op
    case AddEvent(fd, _, _, _, _) => AddHarmless(lines, t, fd)
    case DelEvent(fd, e, fault) => Accepted(t, fd, e, fault) ==> lines.delClears && lines.delFetchesFirst
    case CancelEvent(fd, e, fault) => Accepted(t, fd, e, fault) ==> lines.cancelClears && lines.triggerEmpties
    case CancelAllEvents(fd, fault) =>
      AllAccepted(t, fd, fault) ==> lines.triggerEmpties && (lines.cancelAllTests || t.fds[fd].event.read)
    case Batch(batch) => BatchHarmless(lines, t, batch)
  }

  lemma NextReport(lines: Lines, t: Table, batch: seq<Report>, k: nat)
    requires k < |batch| && DispatchAll(lines, t, batch[..k]).Done?
    ensures DispatchAll(lines, t, batch[..k + 1]) == Dispatch(lines, DispatchAll(lines, t, batch[..k]).t, batch[k])
  {
    assert batch[..k + 1][..k] == batch[..k];
  }

  lemma {:induction false} HarmlessBatchGood(lines: Lines, t: Table, batch: seq<Report>, k: nat)
    requires Sound(t) && BatchHarmless(lines, t, batch) && k <= |batch|
    ensures Good(DispatchAll(lines, t, batch[..k]))
  {
    hide ReportHarmless, Dispatch, Sound;
    if k > 0 {
      HarmlessBatchGood(lines, t, batch, k - 1);
      NextReport(lines, t, batch, k - 1);
      DispatchSoundIff(lines, DispatchAll(lines, t, batch[..k - 1]).t, batch[k - 1]);
    }
  }

  lemma GoodBatchHarmless(lines: Lines, t: Table, batch: seq<Report>)
    requires GoodThroughout(lines, t, Batch(batch))
    ensures BatchHarmless(lines, t, batch)
  {
    hide ReportHarmless, Dispatch, DispatchAll, Sound;
    forall k | 0 <= k < |batch|
      ensures DispatchAll(lines, t, batch[..k]).Done?
      ensures ReportHarmless(lines, DispatchAll(lines, t, batch[..k]).t, batch[k])
    {
      assert Good(DispatchAll(lines, t, batch[..k])) && Good(DispatchAll(lines, t, batch[..k + 1]));
      NextReport(lines, t, batch, k);
      DispatchSoundIff(lines, DispatchAll(lines, t, batch[..k]).t, batch[k]);
    }
  }

  /** One call on a sound table. */
  lemma StepSoundIff(lines: Lines, t: Table, op: Op)
    requires Sound(t)
    ensures GoodThroughout(lines, t, op) <==> Harmless(lines, t, op)
  {
    hide Add, Del, Cancel, CancelAll, DispatchAll, Sound, AddHarmless, BatchHarmless;
    match op
    case AddEvent(fd, e, cb, current, fault) => AddSoundIff(lines, t, fd, e, cb, current, fault);
    case DelEvent(fd, e, fault) => DelSoundIff(lines, t, fd, e, fault);
    case CancelEvent(fd, e, fault) => CancelSoundIff(lines, t, fd, e, fault);
    case CancelAllEvents(fd, fault) => CancelAllSoundIff(lines, t, fd, fault);
    case Batch(batch) =>
      if BatchHarmless(lines, t, batch) {
        forall k | 0 <= k <= |batch| ensures Good(DispatchAll(lines, t, batch[..k])) {
          HarmlessBatchGood(lines, t, batch, k);
        }
      }
      if GoodThroughout(lines, t, op) {
        GoodBatchHarmless(lines, t, batch);
      }
  }

  /** Call k of the run, on the table the calls before it left. */
  ghost predicate CallGood(lines: Lines, ops: seq<Op>, k: nat)
    requires k < |ops|
  {
    Exec(lines, EMPTY, ops[..k]).Done? && GoodThroughout(lines, Exec(lines, EMPTY, ops[..k]).t, ops[k])
  }

  ghost predicate CallHarmless(lines: Lines, ops: seq<Op>, k: nat)
    requires k < |ops|
  {
    Exec(lines, EMPTY, ops[..k]).Done? && Harmless(lines, Exec(lines, EMPTY, ops[..k]).t, ops[k])
  }

  lemma GoodThroughoutIsGood(lines: Lines, t: Table, op: Op)
    requires GoodThroughout(lines, t, op)
    ensures Good(Apply(lines, t, op))
  {
    if op.Batch? {
      assert op.batch[..|op.batch|] == op.batch;
    }
  }

  /** As long as the calls so far were good, the table is sound. */
  lemma {:induction false} SoundSoFar(lines: Lines, ops: seq<Op>, k: nat)
    requires k <= |ops| && forall j :: 0 <= j < k ==> CallGood(lines, ops, j)
    ensures Good(Exec(lines, EMPTY, ops[..k]))
  {
    hide GoodThroughout, Sound;
    if k == 0 {
      EmptySound();
    } else {
      assert CallGood(lines, ops, k - 1);
      assert ops[..k][..k - 1] == ops[..k - 1];
      GoodThroughoutIsGood(lines, Exec(lines, EMPTY, ops[..k - 1]).t, ops[k - 1]);
    }
  }

  lemma {:induction false} GoodSoFarIff(lines: Lines, ops: seq<Op>, k: nat)
    requires k <= |ops|
    ensures (forall j :: 0 <= j < k ==> CallGood(lines, ops, j)) <==>
            (forall j :: 0 <= j < k ==> CallHarmless(lines, ops, j))
  {
    hide GoodThroughout, Harmless, Exec, Sound;
    if k > 0 {
      GoodSoFarIff(lines, ops, k - 1);
      if forall j :: 0 <= j < k - 1 ==> CallGood(lines, ops, j) {
        SoundSoFar(lines, ops, k - 1);
        StepSoundIff(lines, Exec(lines, EMPTY, ops[..k - 1]).t, ops[k - 1]);
        assert CallGood(lines, ops, k - 1) <==> CallHarmless(lines, ops, k - 1);
      }
    }
  }

  /** Whichever lines are as written, a run keeps the table sound after every call and every report if and only if each
      call, on the table it meets, is harmless. */
  lemma RunSoundIff(lines: Lines, ops: seq<Op>)
    ensures (forall k :: 0 <= k < |ops| ==> CallGood(lines, ops, k)) <==>
            (forall k :: 0 <= k < |ops| ==> CallHarmless(lines, ops, k))
  {
    GoodSoFarIff(lines, ops, |ops|);
  }

  // ---------- the code as it stands ----------

  const WRITTEN := Lines(false, false, false, false, false, false, false, false, false)

  /** The calls that change nothing but the size of the table, and an addEvent that does not lose what is armed. */
  predicate WrittenHarmless(t: Table, op: Op) {
    match op
    case AddEvent(fd, _, _, _, _) => fd < |t.fds| || (fd >= 2 && t.pending == 0)
    case DelEvent(fd, e, fault) => !Accepted(t, fd, e, fault)
    case CancelEvent(fd, e, fault) => !Accepted(t, fd, e, fault)
    case CancelAllEvents(fd, fault) => !AllAccepted(t, fd, fault)
    case Batch(batch) => forall k :: 0 <= k < |batch| ==> !Reaches(t, batch[k])
  }

  lemma {:induction false} UnreachedBatchIsIdle(t: Table, batch: seq<Report>)
    requires Sound(t) && forall k :: 0 <= k < |batch| ==> !Reaches(t, batch[k])
    ensures DispatchAll(WRITTEN, t, batch) == Done(t, true)
  {
    hide Sound, Reaches, Dispatch;
    if batch != [] {
      UnreachedBatchIsIdle(t, batch[..|batch| - 1]);
      NotReachedIsIdle(WRITTEN, t, batch[|batch| - 1]);
    }
  }

  lemma {:induction false} HarmlessBatchUnreached(t: Table, batch: seq<Report>, k: nat)
    requires Sound(t) && BatchHarmless(WRITTEN, t, batch) && k <= |batch|
    ensures forall j :: 0 <= j < k ==> !Reaches(t, batch[j])
  {
    hide Sound, Reaches, DispatchAll, SomethingLeft, NamesUnarmed;
    if k > 0 {
      HarmlessBatchUnreached(t, batch, k - 1);
      UnreachedBatchIsIdle(t, batch[..k - 1]);
      assert ReportHarmless(WRITTEN, DispatchAll(WRITTEN, t, batch[..k - 1]).t, batch[k - 1]);
    }
  }

  lemma UnreachedBatchHarmless(t: Table, batch: seq<Report>)
    requires Sound(t) && forall k :: 0 <= k < |batch| ==> !Reaches(t, batch[k])
    ensures BatchHarmless(WRITTEN, t, batch)
  {
    hide Sound, Reaches, DispatchAll;
    forall k | 0 <= k < |batch|
      ensures DispatchAll(WRITTEN, t, batch[..k]) == Done(t, true)
    {
      UnreachedBatchIsIdle(t, batch[..k]);
    }
  }

  /** As the code stands, a call on a sound table keeps it sound, a batch throughout, if and only if it is refused, its
      reports reach nothing, or it is an addEvent that need not grow the table or finds nothing armed. */
  lemma WrittenStepSoundIff(t: Table, op: Op)
    requires Sound(t)
    ensures GoodThroughout(WRITTEN, t, op) <==> WrittenHarmless(t, op)
  {
    hide Sound, GoodThroughout, BatchHarmless, Reaches;
    StepSoundIff(WRITTEN, t, op);
    if op.Batch? {
      if BatchHarmless(WRITTEN, t, op.batch) {
        HarmlessBatchUnreached(t, op.batch, |op.batch|);
      }
      if WrittenHarmless(t, op) {
        UnreachedBatchHarmless(t, op.batch);
      }
    }
  }

  /** A harmless call hands nothing to the scheduler and discards nothing. */
  lemma WrittenStepDeliversNothing(t: Table, op: Op)
    requires Sound(t) && WrittenHarmless(t, op) && Apply(WRITTEN, t, op).Done?
    ensures var t' := Apply(WRITTEN, t, op).t; t'.scheduled == t.scheduled && t'.discarded == t.discarded
  {
    if op.Batch? {
      UnreachedBatchIsIdle(t, op.batch);
    }
  }

  /** As the code stands, a run that keeps the table sound throughout never delivers an event: it schedules nothing and
      deletes nothing. */
  lemma {:induction false} WrittenSoundRunDeliversNothing(ops: seq<Op>, k: nat)
    requires k <= |ops| && forall j :: 0 <= j < |ops| ==> CallGood(WRITTEN, ops, j)
    ensures var o := Exec(WRITTEN, EMPTY, ops[..k]); o.Done? && o.t.scheduled == [] && o.t.discarded == []
  {
    hide GoodThroughout, Apply, Sound;
    if k > 0 {
      WrittenSoundRunDeliversNothing(ops, k - 1);
      SoundSoFar(WRITTEN, ops, k - 1);
      SoundSoFar(WRITTEN, ops, k);
      var t := Exec(WRITTEN, EMPTY, ops[..k - 1]).t;
      assert CallGood(WRITTEN, ops, k - 1);
      assert ops[..k][..k - 1] == ops[..k - 1];
      WrittenStepSoundIff(t, ops[k - 1]);
      WrittenStepDeliversNothing(t, ops[k - 1]);
    }
  }

  /** As the code stands the event stays armed after delEvent, so that it can be deleted again; with one event
      pending the second time wraps the counter. */
  lemma WrittenDelWrapsCounter(t: Table, fd: nat, e: Event)
    requires Sound(t) && Accepted(t, fd, e, false) && t.pending == 1
    ensures var once := Del(WRITTEN, t, fd, e, false);
            && once.Done? && once.ok && once.t.pending == 0
            && var twice := Del(WRITTEN, once.t, fd, e, false);
               twice.Done? && twice.ok && twice.t.pending == 0xFFFF_FFFF_FFFF_FFFF
  {
    assert FdFits(t.fds[fd], fd) && fd in t.kernel;
  }
}
