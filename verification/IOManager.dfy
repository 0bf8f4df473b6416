/** The IOManager object: its table of contexts and the operations that update them in place, proved against the
    functions of FdTable. */
module IOManagerObject {
  import opened Options
  import opened FdTable

  /** What a call came to. */
  datatype Call = Returned(ok: bool) | AssertionFailed

  class FdContext {
    var fd: nat
    var event: Mask
    var read: Slot
    var write: Slot

    constructor (i: nat)
      ensures Rec() == NewFd(i)
    {
      fd, event, read, write := i, NONE, EMPTY_SLOT, EMPTY_SLOT;
    }

    function Rec(): Fd
      reads this
    {
      Fd(fd, event, read, write)
    }

    method Set(f: Fd)
      modifies this
      ensures Rec() == f
    {
      fd, event, read, write := f.fd, f.event, f.read, f.write;
    }

    /** triggerEvent; the assertion at line 22 is the precondition. */
    method TriggerEvent(lines: Lines, e: Event) returns (fires: seq<Fired>)
      requires event.Has(e)
      modifies this
      ensures fires == Fires(old(Rec()).SlotOf(e))
      ensures Rec() == old(Rec()).(event := old(event).Minus(Only(e))).WithSlot(
                e, if lines.triggerEmpties then EMPTY_SLOT else old(Rec()).SlotOf(e).(scheduler := false))
    {
      var slot := if e == READ then read else write;
      event := event.Minus(Only(e));
      if slot.cb.Some? {
        fires := [Fired(slot.ticket, Callback(slot.cb.value))];
      } else if slot.fiber.Some? {
        fires := [Fired(slot.ticket, Resume(slot.fiber.value))];
      } else {
        fires := [];
      }
      slot := if lines.triggerEmpties then EMPTY_SLOT else slot.(scheduler := false);
      if e == READ {
        read := slot;
      } else {
        write := slot;
      }
    }
  }

  class IOManager {
    const lines: Lines
    var contexts: seq<FdContext>
    var kernel: map<nat, Mask>
    var pending: nat
    var scheduled: seq<Fired>
    var discarded: seq<nat>
    var issued: nat

    ghost predicate Valid()
      reads this`contexts
    {
      forall i, j :: 0 <= i < j < |contexts| ==> contexts[i] != contexts[j]
    }

    ghost function Fds(): (fds: seq<Fd>)
      reads this`contexts, contexts
      ensures |fds| == |contexts|
    {
      var cs := contexts;
      seq(|cs|, i requires 0 <= i < |cs| reads cs => cs[i].Rec())
    }

    ghost function View(): Table
      reads this, contexts
    {
      Table(Fds(), kernel, pending, scheduled, discarded, issued)
    }

    /** The call did what the specification says. */
    ghost predicate Did(call: Call, o: Outcome)
      reads this, contexts
    {
      match o
      case Abort => call == AssertionFailed
      case Done(t, ok) => call == Returned(ok) && Valid() && View() == t
    }

    constructor (lines: Lines)
      ensures Valid() && View() == EMPTY && this.lines == lines
    {
      this.lines := lines;
      contexts, kernel, pending, scheduled, discarded, issued := [], map[], 0, [], [], 0;
    }

    method EpollCtl(op: CtlOp, fd: nat, mask: Mask, fault: bool) returns (ok: bool)
      modifies this`kernel
      ensures ok == Ctl(old(kernel), op, fd, mask, fault).Some?
      ensures kernel == if ok then Ctl(old(kernel), op, fd, mask, fault).value else old(kernel)
    {
      ok := !fault && (op == ADD <==> fd !in kernel);
      if ok {
        kernel := if op == DEL then kernel - {fd} else kernel[fd := mask];
      }
    }

    /** fd_contex_resize: the vector is resized and its entries are filled in, all of them as written. */
    method Grow(size: nat)
      requires Valid()
      modifies this`contexts
      ensures Valid() && Fds() == Resize(lines, old(Fds()), size)
      ensures |contexts| == size && forall i :: 0 <= i < size ==>
                if lines.growKeeps && i < |old(contexts)| then contexts[i] == old(contexts)[i] else fresh(contexts[i])
    {
      var grown: seq<FdContext> := [];
      var i := 0;
      while i < size
        invariant 0 <= i <= size && |grown| == i && contexts == old(contexts)
        invariant forall k :: 0 <= k < i ==>
          (if lines.growKeeps && k < |contexts| then grown[k] == contexts[k]
           else fresh(grown[k]) && grown[k].Rec() == NewFd(k))
        invariant forall j, k :: 0 <= j < k < i ==> grown[j] != grown[k]
      {
        if lines.growKeeps && i < |contexts| {
          grown := grown + [contexts[i]];
        } else {
          var c := new FdContext(i);
          grown := grown + [c];
        }
        i := i + 1;
      }
      contexts := grown;
    }

    /** Stores f in context i and leaves the others alone. */
    method Store(i: nat, f: Fd)
      requires Valid() && i < |contexts|
      modifies contexts[i]
      ensures Valid() && View() == Put(old(View()), i, f)
    {
      contexts[i].Set(f);
    }

    /** addEvent from line 92 on. */
    method ArmEvent(fd: nat, e: Event, cb: Option<nat>, current: nat, fault: bool) returns (call: Call)
      requires Valid() && fd < |contexts|
      modifies this`kernel, this`pending, this`issued, contexts[fd]
      ensures Did(call, ArmAt(old(View()), fd, e, cb, current, fault))
    {
      var f := contexts[fd].Rec();
      if f.event.Has(e) {
        return Returned(false);
      }
      var mask := f.event.Or(Only(e));
      var ok := EpollCtl(if f.event == NONE then ADD else MOD, f.fd, mask, fault);
      if !ok {
        return Returned(false);
      }
      pending := pending + 1;
      if !Vacant(f.SlotOf(e)) {
        return AssertionFailed;
      }
      var slot := Slot(cb, if cb.None? then Some(current) else None, true, issued);
      issued := issued + 1;
      Store(fd, f.(event := mask).WithSlot(e, slot));
      return Returned(true);
    }

    method AddEvent(fd: nat, e: Event, cb: Option<nat>, current: nat, fault: bool) returns (call: Call)
      requires Valid()
      modifies this, contexts
      ensures Did(call, Add(lines, old(View()), fd, e, cb, current, fault))
      ensures forall c :: c in contexts ==> c in old(contexts) || fresh(c)
      ensures lines.growKeeps ==> old(contexts) <= contexts
    {
      if |contexts| <= fd {
        Grow(GrowTo(lines, fd));
      }
      if |contexts| <= fd {
        return AssertionFailed;
      }
      assert contexts[fd] in contexts;
      call := ArmEvent(fd, e, cb, current, fault);
    }

    method DelEvent(fd: nat, e: Event, fault: bool) returns (call: Call)
      requires Valid()
      modifies this, contexts
      ensures Did(call, Del(lines, old(View()), fd, e, fault)) && contexts == old(contexts)
    {
      if |contexts| <= fd {
        return Returned(false);
      }
      var f := contexts[fd].Rec();
      if !f.event.Has(e) {
        return Returned(false);
      }
      var mask := if lines.delClears then f.event.Minus(Only(e)) else f.event.Or(Only(e));
      var ok := EpollCtl(if mask == NONE then DEL else MOD, f.fd, mask, fault);
      if !ok {
        return Returned(false);
      }
      pending := Dec(pending);
      if !lines.delFetchesFirst && !mask.Has(e) {
        return AssertionFailed;
      }
      discarded := discarded + [f.SlotOf(e).ticket];
      Store(fd, f.(event := mask).WithSlot(e, EMPTY_SLOT));
      return Returned(true);
    }

    /** One decrement and one trigger, or the failure of the assertion at line 22. */
    method Fire(i: nat, e: Event, fire: bool, ghost ok: bool) returns (failed: bool)
      requires Valid() && i < |contexts|
      modifies this`pending, this`scheduled, contexts[i]
      ensures Valid() && failed == TriggerIf(lines, Done(old(View()), ok), i, e, fire).Abort?
      ensures !failed ==> TriggerIf(lines, Done(old(View()), ok), i, e, fire) == Done(View(), ok)
    {
      failed := false;
      if fire {
        if !contexts[i].event.Has(e) {
          return true;
        }
        pending := Dec(pending);
        var fires := contexts[i].TriggerEvent(lines, e);
        scheduled := scheduled + fires;
        assert Fds() == Trigger(lines, old(View()), i, e).fds;
      }
    }

    method FireBoth(i: nat, fire: Mask) returns (failed: bool)
      requires Valid() && i < |contexts|
      modifies this`pending, this`scheduled, contexts[i]
      ensures var o := TriggerIf(lines, Done(old(View()), true), i, READ, fire.read);
              var o := TriggerIf(lines, o, i, WRITE, fire.write);
              if failed then o.Abort? else Valid() && o == Done(View(), true)
    {
      failed := Fire(i, READ, fire.read, true);
      if !failed {
        failed := Fire(i, WRITE, fire.write, true);
      }
    }

    method CancelEvent(fd: nat, e: Event, fault: bool) returns (call: Call)
      requires Valid()
      modifies this, contexts
      ensures Did(call, Cancel(lines, old(View()), fd, e, fault)) && contexts == old(contexts)
    {
      if |contexts| <= fd {
        return Returned(false);
      }
      var f := contexts[fd].Rec();
      if !f.event.Has(e) {
        return Returned(false);
      }
      var mask := if lines.cancelClears then f.event.Minus(Only(e)) else f.event.Or(Only(e));
      var ok := EpollCtl(if mask == NONE then DEL else MOD, f.fd, mask, fault);
      if !ok {
        return Returned(false);
      }
      var failed := Fire(fd, e, true, true);
      return if failed then AssertionFailed else Returned(true);
    }

    method CancelAllEvents(fd: nat, fault: bool) returns (call: Call)
      requires Valid()
      modifies this, contexts
      ensures Did(call, CancelAll(lines, old(View()), fd, fault)) && contexts == old(contexts)
    {
      if |contexts| <= fd || contexts[fd].event == NONE {
        return Returned(false);
      }
      var ok := EpollCtl(DEL, contexts[fd].fd, NONE, fault);
      if !ok {
        return Returned(false);
      }
      var c := contexts[fd];
      var failed := Fire(fd, READ, if lines.cancelAllTests then c.event.read else c.event != NONE, true);
      if failed {
        return AssertionFailed;
      }
      failed := Fire(fd, WRITE, if lines.cancelAllTests then c.event.write else c.event != NONE, true);
      if failed || c.event != NONE {
        return AssertionFailed;
      }
      return Returned(true);
    }

    /** Lines 281-300, with the events found ready. */
    method FireReady(i: nat, ready: Mask, fault: bool) returns (call: Call)
      requires Valid() && i < |contexts|
      modifies this, contexts[i]
      ensures Did(call, DispatchReady(lines, old(View()), i, ready, fault)) && contexts == old(contexts)
    {
      var f := contexts[i].Rec();
      var mask := f.event.Minus(ready);
      var ok := EpollCtl(if mask == NONE then DEL else MOD, f.fd,
                         if lines.dispatchAssigns then mask else mask.Or(ready), fault);
      if !ok {
        return Returned(true);
      }
      var failed := FireBoth(i, if lines.dispatchMasks then ready.And(f.event) else ready);
      return if failed then AssertionFailed else Returned(true);
    }

    /** Lines 261-300 for one report. */
    method DispatchOne(r: Report) returns (call: Call)
      requires Valid()
      modifies this, contexts
      ensures Did(call, Dispatch(lines, old(View()), r)) && contexts == old(contexts)
    {
      hide DispatchReady;
      if r.Tickle? || |contexts| <= r.fd {
        return Returned(true);
      }
      var armed := contexts[r.fd].event;
      var ready := Mask(r.input || (r.hangup && armed.read), r.output || (r.hangup && armed.write));
      if armed.And(ready) == NONE {
        return Returned(true);
      }
      call := FireReady(r.fd, ready, r.fault);
    }

    /** The dispatch loop of idle(). */
    method DispatchBatch(batch: seq<Report>) returns (call: Call)
      requires Valid()
      modifies this, contexts
      ensures Did(call, DispatchAll(lines, old(View()), batch)) && contexts == old(contexts)
    {
      call := Returned(true);
      var i := 0;
      while i < |batch|
        invariant 0 <= i <= |batch| && contexts == old(contexts) && call == Returned(true)
        invariant Did(call, DispatchAll(lines, old(View()), batch[..i]))
      {
        assert batch[..i + 1][..i] == batch[..i];
        call := DispatchOne(batch[i]);
        i := i + 1;
        if call == AssertionFailed {
          AbortSpreads(lines, old(View()), batch, i);
          return;
        }
      }
      assert batch[..|batch|] == batch;
    }
  }

  lemma {:induction false} AbortSpreads(lines: Lines, t: Table, batch: seq<Report>, i: nat)
    requires i <= |batch| && DispatchAll(lines, t, batch[..i]).Abort?
    ensures DispatchAll(lines, t, batch).Abort?
    decreases |batch|
  {
    if i < |batch| {
      assert batch[..|batch| - 1][..i] == batch[..i];
      AbortSpreads(lines, t, batch[..|batch| - 1], i);
    } else {
      assert batch[..i] == batch;
    }
  }
}
