/** The event table of IOManager (sylar/IOManager.cpp:9-38, 76-219, 260-301): what each operation does to the
    contexts, the kernel's interest masks, the pending counter and the continuations. */
module FdTable {
  import opened Options

  datatype Event = READ | WRITE

  /** A set of events; Value gives the bits the program stores. */
  datatype Mask = Mask(read: bool, write: bool) {
    predicate Has(e: Event) {
      match e case READ => read case WRITE => write
    }

    function Or(m: Mask): Mask {
      Mask(read || m.read, write || m.write)
    }

    function And(m: Mask): Mask {
      Mask(read && m.read, write && m.write)
    }

    function Minus(m: Mask): Mask {
      Mask(read && !m.read, write && !m.write)
    }

    function Size(): nat {
      (if read then 1 else 0) + (if write then 1 else 0)
    }

    /** READD is 0x1 and WRITE is 0x4, the values of EPOLLIN and EPOLLOUT. */
    function Value(): bv8 {
      (if read then 0x1 else 0x0) | (if write then 0x4 else 0x0)
    }
  }

  const NONE := Mask(false, false)

  function Only(e: Event): Mask {
    Mask(e.READ?, e.WRITE?)
  }

  /** Or, And and Minus are the program's |, & and & ~ on the stored bits, which determine the set. */
  lemma BitsOfMasks(a: Mask, b: Mask)
    ensures a.Or(b).Value() == a.Value() | b.Value()
    ensures a.And(b).Value() == a.Value() & b.Value()
    ensures a.Minus(b).Value() == a.Value() & !b.Value()
    ensures a.Value() == b.Value() ==> a == b
  {
  }

  /** FdEvent: where the continuation of one armed event waits. `ticket` numbers successful addEvent calls. */
  datatype Slot = Slot(cb: Option<nat>, fiber: Option<nat>, scheduler: bool, ticket: nat)

  const EMPTY_SLOT := Slot(None, None, false, 0)

  predicate Vacant(slot: Slot) {
    slot.cb.None? && slot.fiber.None? && !slot.scheduler
  }

  /** FdContex. */
  datatype Fd = Fd(fd: nat, event: Mask, read: Slot, write: Slot) {
    function SlotOf(e: Event): Slot {
      match e case READ => read case WRITE => write
    }

    function WithSlot(e: Event, slot: Slot): Fd {
      match e case READ => this.(read := slot) case WRITE => this.(write := slot)
    }
  }

  function NewFd(i: nat): Fd {
    Fd(i, NONE, EMPTY_SLOT, EMPTY_SLOT)
  }

  datatype Continuation = Callback(cb: nat) | Resume(fiber: nat)

  /** A continuation handed to the scheduler, with the ticket of the addEvent it came from. */
  datatype Fired = Fired(ticket: nat, what: Continuation)

  datatype Table = Table(
    fds: seq<Fd>,
    kernel: map<nat, Mask>,   // epoll's interest masks
    pending: nat,             // pending_Event_Size_
    scheduled: seq<Fired>,
    discarded: seq<nat>,      // tickets dropped by delEvent
    issued: nat)              // successful addEvent calls

  const EMPTY := Table([], map[], 0, [], [], 0)

  /** Lines that differ from their design; true means the designed line. */
  datatype Lines = Lines(
    growKeeps: bool,        // IOManager.cpp:78: growing keeps the contexts that exist
    growCovers: bool,       // IOManager.cpp:88: the new size covers fd 0 and 1 too
    delClears: bool,        // IOManager.cpp:138: & ~event instead of | event
    delFetchesFirst: bool,  // IOManager.cpp:151-152: the slot is fetched before the mask is stored
    cancelClears: bool,     // IOManager.cpp:170: & ~event instead of | event
    cancelAllTests: bool,   // IOManager.cpp:209, 213: & instead of &&
    triggerEmpties: bool,   // IOManager.cpp:26-31: the slot is emptied
    dispatchAssigns: bool,  // IOManager.cpp:283: = instead of |=
    dispatchMasks: bool)    // IOManager.cpp:293, 297: only armed events fire

  const DESIGNED := Lines(true, true, true, true, true, true, true, true, true)

  /** What a call does: it returns, or an assertion (or an index) fails. */
  datatype Outcome = Done(t: Table, ok: bool) | Abort

  // ---------- epoll_ctl ----------

  datatype CtlOp = ADD | MOD | DEL

  /** epoll refuses to add what it has and to change what it does not have. */
  predicate Legal(kernel: map<nat, Mask>, op: CtlOp, fd: nat) {
    op == ADD <==> fd !in kernel
  }

  /** The new interest masks, or None when the call fails; `fault` is any failure of the kernel's own. */
  function Ctl(kernel: map<nat, Mask>, op: CtlOp, fd: nat, mask: Mask, fault: bool): Option<map<nat, Mask>> {
    if fault || !Legal(kernel, op, fd) then None
    else if op == DEL then Some(kernel - {fd})
    else Some(kernel[fd := mask])
  }

  // ---------- pieces ----------

  /** An atomic<size_t> decremented: it wraps below zero. */
  function Dec(pending: nat): nat {
    if pending == 0 then 0xFFFF_FFFF_FFFF_FFFF else pending - 1
  }

  function Put(t: Table, i: nat, f: Fd): Table
    requires i < |t.fds|
  {
    t.(fds := t.fds[i := f])
  }

  function GrowTo(lines: Lines, fd: nat): nat {
    if lines.growCovers && fd < 2 then fd + 1 else fd * 3 / 2
  }

  /** fd_contex_resize. */
  function Resize(lines: Lines, fds: seq<Fd>, size: nat): seq<Fd> {
    seq(size, i requires 0 <= i < size => if lines.growKeeps && i < |fds| then fds[i] else NewFd(i))
  }

  /** What triggerEvent hands over. */
  function Fires(slot: Slot): seq<Fired> {
    if slot.cb.Some? then [Fired(slot.ticket, Callback(slot.cb.value))]
    else if slot.fiber.Some? then [Fired(slot.ticket, Resume(slot.fiber.value))]
    else []
  }

  /** triggerEvent (lines 21-33); its caller has passed the assertion at line 22. */
  function Trigger(lines: Lines, t: Table, i: nat, e: Event): Table
    requires i < |t.fds|
  {
    var f := t.fds[i];
    var left := if lines.triggerEmpties then EMPTY_SLOT else f.SlotOf(e).(scheduler := false);
    Put(t.(scheduled := t.scheduled + Fires(f.SlotOf(e))), i, f.(event := f.event.Minus(Only(e))).WithSlot(e, left))
  }

  /** Triggers e when `fire` says so, with its decrement. */
  function TriggerIf(lines: Lines, o: Outcome, i: nat, e: Event, fire: bool): Outcome
    requires o.Done? ==> i < |o.t.fds|
    ensures TriggerIf(lines, o, i, e, fire).Done? ==>
              o.Done? && |TriggerIf(lines, o, i, e, fire).t.fds| == |o.t.fds|
  {
    if o.Abort? || !fire then o
    else if !o.t.fds[i].event.Has(e) then Abort
    else Done(Trigger(lines, o.t, i, e).(pending := Dec(o.t.pending)), o.ok)
  }

  // ---------- the operations ----------

  /** addEvent once the context is found; `current` is the running fiber, taken when no callback is given. */
  function ArmAt(t: Table, fd: nat, e: Event, cb: Option<nat>, current: nat, fault: bool): Outcome
    requires fd < |t.fds|
  {
    var f := t.fds[fd];
    if f.event.Has(e) then Done(t, false)
    else
      var mask := f.event.Or(Only(e));
      match Ctl(t.kernel, if f.event == NONE then ADD else MOD, f.fd, mask, fault)
      case None => Done(t, false)
      case Some(kernel) =>
        if !Vacant(f.SlotOf(e)) then Abort
        else
          var slot := Slot(cb, if cb.None? then Some(current) else None, true, t.issued);
          Done(Put(t.(kernel := kernel, pending := t.pending + 1, issued := t.issued + 1),
                   fd, f.(event := mask).WithSlot(e, slot)), true)
  }

  /** addEvent. */
  function Add(lines: Lines, t: Table, fd: nat, e: Event, cb: Option<nat>, current: nat, fault: bool): Outcome {
    var t := if |t.fds| <= fd then t.(fds := Resize(lines, t.fds, GrowTo(lines, fd))) else t;
    if |t.fds| <= fd then Abort else ArmAt(t, fd, e, cb, current, fault)
  }

  /** The mask that delEvent and cancelEvent ask for. */
  function NewMask(clears: bool, event: Mask, e: Event): Mask {
    if clears then event.Minus(Only(e)) else event.Or(Only(e))
  }

  /** The epoll_ctl call that delEvent, cancelEvent and dispatch make. */
  function Shrink(t: Table, f: Fd, mask: Mask, interest: Mask, fault: bool): Option<map<nat, Mask>> {
    Ctl(t.kernel, if mask == NONE then DEL else MOD, f.fd, interest, fault)
  }

  /** delEvent. Fetching the slot asserts that the event is set in the mask stored by then (line 10). */
  function Del(lines: Lines, t: Table, fd: nat, e: Event, fault: bool): Outcome {
    if |t.fds| <= fd || !t.fds[fd].event.Has(e) then Done(t, false)
    else
      var f := t.fds[fd];
      var mask := NewMask(lines.delClears, f.event, e);
      match Shrink(t, f, mask, mask, fault)
      case None => Done(t, false)
      case Some(kernel) =>
        if !lines.delFetchesFirst && !mask.Has(e) then Abort
        else
          Done(Put(t.(kernel := kernel, pending := Dec(t.pending), discarded := t.discarded + [f.SlotOf(e).ticket]),
                   fd, f.(event := mask).WithSlot(e, EMPTY_SLOT)), true)
  }

  /** cancelEvent. */
  function Cancel(lines: Lines, t: Table, fd: nat, e: Event, fault: bool): Outcome {
    if |t.fds| <= fd || !t.fds[fd].event.Has(e) then Done(t, false)
    else
      var f := t.fds[fd];
      var mask := NewMask(lines.cancelClears, f.event, e);
      match Shrink(t, f, mask, mask, fault)
      case None => Done(t, false)
      case Some(kernel) => TriggerIf(lines, Done(t.(kernel := kernel), true), fd, e, true)
  }

  /** The test before each trigger of cancelAll. */
  predicate CancelAllTest(lines: Lines, o: Outcome, i: nat, e: Event) {
    o.Done? && i < |o.t.fds| && if lines.cancelAllTests then o.t.fds[i].event.Has(e) else o.t.fds[i].event != NONE
  }

  /** cancelAll. */
  function CancelAll(lines: Lines, t: Table, fd: nat, fault: bool): Outcome {
    if |t.fds| <= fd || t.fds[fd].event == NONE then Done(t, false)
    else
      match Ctl(t.kernel, DEL, t.fds[fd].fd, NONE, fault)
      case None => Done(t, false)
      case Some(kernel) =>
        var o := Done(t.(kernel := kernel), true);
        var o := TriggerIf(lines, o, fd, READ, CancelAllTest(lines, o, fd, READ));
        var o := TriggerIf(lines, o, fd, WRITE, CancelAllTest(lines, o, fd, WRITE));
        if o.Done? && o.t.fds[fd].event != NONE then Abort else o
  }

  /** What epoll_wait reported for one descriptor; `fault` is the kernel failing the epoll_ctl that follows. */
  datatype Report = Tickle | Report(fd: nat, input: bool, output: bool, hangup: bool, fault: bool)

  /** real_event at lines 268-277: a hang-up or an error counts as ready for whatever is armed. */
  function Ready(r: Report, armed: Mask): Mask
    requires r.Report?
  {
    Mask(r.input || (r.hangup && armed.read), r.output || (r.hangup && armed.write))
  }

  /** Lines 281-300, with the events found ready. */
  function DispatchReady(lines: Lines, t: Table, i: nat, ready: Mask, fault: bool): Outcome
    requires i < |t.fds|
  {
    var f := t.fds[i];
    var mask := f.event.Minus(ready);
    match Shrink(t, f, mask, if lines.dispatchAssigns then mask else mask.Or(ready), fault)
    case None => Done(t, true)
    case Some(kernel) =>
      var fire := if lines.dispatchMasks then ready.And(f.event) else ready;
      var o := TriggerIf(lines, Done(t.(kernel := kernel), true), i, READ, fire.read);
      TriggerIf(lines, o, i, WRITE, fire.write)
  }

  /** One round of the dispatch loop (lines 260-301). No context carries a number outside the table. */
  function Dispatch(lines: Lines, t: Table, r: Report): Outcome {
    if r.Tickle? || |t.fds| <= r.fd then Done(t, true)
    else
      var ready := Ready(r, t.fds[r.fd].event);
      if t.fds[r.fd].event.And(ready) == NONE then Done(t, true) else DispatchReady(lines, t, r.fd, ready, r.fault)
  }

  /** The dispatch loop over one epoll_wait result. */
  function DispatchAll(lines: Lines, t: Table, batch: seq<Report>): Outcome {
    if batch == [] then Done(t, true)
    else
      match DispatchAll(lines, t, batch[..|batch| - 1])
      case Abort => Abort
      case Done(t', _) => Dispatch(lines, t', batch[|batch| - 1])
  }

  // ---------- runs ----------

  datatype Op =
    | AddEvent(fd: nat, e: Event, cb: Option<nat>, current: nat, fault: bool)
    | DelEvent(fd: nat, e: Event, fault: bool)
    | CancelEvent(fd: nat, e: Event, fault: bool)
    | CancelAllEvents(fd: nat, fault: bool)
    | Batch(batch: seq<Report>)

  function Apply(lines: Lines, t: Table, op: Op): Outcome {
    match op
    case AddEvent(fd, e, cb, current, fault) => Add(lines, t, fd, e, cb, current, fault)
    case DelEvent(fd, e, fault) => Del(lines, t, fd, e, fault)
    case CancelEvent(fd, e, fault) => Cancel(lines, t, fd, e, fault)
    case CancelAllEvents(fd, fault) => CancelAll(lines, t, fd, fault)
    case Batch(batch) => DispatchAll(lines, t, batch)
  }

  function Exec(lines: Lines, t: Table, ops: seq<Op>): Outcome {
    if ops == [] then Done(t, true)
    else
      match Exec(lines, t, ops[..|ops| - 1])
      case Abort => Abort
      case Done(t', _) => Apply(lines, t', ops[|ops| - 1])
  }
}
