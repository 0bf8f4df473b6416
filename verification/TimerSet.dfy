/** TimerManager and Timer (sylar/timer.cpp): an ordered set of timers whose deadlines change while they are out
    of it. Time is an argument of every operation. */
module TimerSet {
  import opened Options

  const TWO_64 := 0x1_0000_0000_0000_0000
  const HOUR_MS := 3600000

  /** uint64_t. */
  type U64 = x: nat | x < TWO_64

  const NEVER: U64 := TWO_64 - 1   // ~0ull

  function Wrap(x: int): U64 {
    x % TWO_64
  }

  /** A timer. `due` is now + ms as it was when the timer was last armed, before it was stored in 64 bits; the program
      does not keep it. */
  datatype TimerRec = TimerRec(ms: U64, next: U64, recurring: bool, cb: Option<nat>, due: nat)

  /** t with its deadline a period from now. */
  function Arm(t: TimerRec, now: U64): TimerRec {
    t.(next := Wrap(now + t.ms), due := now + t.ms)
  }

  /** A new timer. */
  function Made(ms: U64, cb: Option<nat>, recurring: bool, now: U64): TimerRec {
    TimerRec(ms, Wrap(now + ms), recurring, cb, now + ms)
  }

  /** One callback handed out by listExpiredCb, with the clock it was handed out at and the deadline it had, as stored
      and as armed. */
  datatype Delivery = Delivery(id: nat, cb: Option<nat>, at: U64, deadline: U64, due: nat)

  /** Timers by address, the set timers_ in its order, previous_timr_, and everything delivered so far. */
  datatype Manager = Manager(recs: map<nat, TimerRec>, order: seq<nat>, previous: U64, log: seq<Delivery>)

  /** Lines that differ from their design; true means the designed line. */
  datatype Lines = Lines(
    probeKeeps: bool,      // timer.cpp:16-19: the probe of upper_bound carries its deadline
    refreshKeeps: bool)    // timer.cpp:57: refresh tests the callback (as line 40 does) instead of dropping it

  const DESIGNED := Lines(true, true)

  // ---------- the order ----------

  datatype Key = Key(next: U64, id: nat)

  /** Line 78 as designed: earlier deadline first, then lower address. */
  predicate Before(a: Key, b: Key) {
    a.next < b.next || (a.next == b.next && a.id < b.id)
  }

  /** Lines 78-81 as written. */
  predicate WrittenBefore(a: Key, b: Key) {
    a.next >= b.next && a.id < b.id
  }

  function KeyOf(recs: map<nat, TimerRec>, id: nat): Key
    requires id in recs
  {
    Key(recs[id].next, id)
  }

  predicate Known(recs: map<nat, TimerRec>, order: seq<nat>) {
    forall i :: 0 <= i < |order| ==> order[i] in recs
  }

  ghost predicate Sorted(recs: map<nat, TimerRec>, order: seq<nat>) {
    && Known(recs, order)
    && forall i, j :: 0 <= i < j < |order| ==> Before(KeyOf(recs, order[i]), KeyOf(recs, order[j]))
  }

  /** lower_bound: the first place whose key is not before k. */
  function LowerBound(recs: map<nat, TimerRec>, order: seq<nat>, k: Key): (n: nat)
    requires Known(recs, order)
    ensures n <= |order|
    ensures forall i :: 0 <= i < n ==> Before(KeyOf(recs, order[i]), k)
    ensures n < |order| ==> !Before(KeyOf(recs, order[n]), k)
  {
    if order == [] || !Before(KeyOf(recs, order[0]), k) then 0
    else
      assert Known(recs, order[1..]);
      1 + LowerBound(recs, order[1..], k)
  }

  /** upper_bound: the first place whose key comes after k. */
  function UpperBound(recs: map<nat, TimerRec>, order: seq<nat>, k: Key): (n: nat)
    requires Known(recs, order)
    ensures n <= |order|
    ensures forall i :: 0 <= i < n ==> !Before(k, KeyOf(recs, order[i]))
    ensures n < |order| ==> Before(k, KeyOf(recs, order[n]))
  {
    if order == [] || Before(k, KeyOf(recs, order[0])) then 0
    else
      assert Known(recs, order[1..]);
      1 + UpperBound(recs, order[1..], k)
  }

  /** set::find by the comparator: where id is, or the length. */
  function Find(recs: map<nat, TimerRec>, order: seq<nat>, id: nat): nat
    requires Known(recs, order) && id in recs
  {
    var n := LowerBound(recs, order, KeyOf(recs, id));
    if n < |order| && !Before(KeyOf(recs, id), KeyOf(recs, order[n])) then n else |order|
  }

  function Erase(order: seq<nat>, n: nat): seq<nat>
    requires n < |order|
  {
    order[..n] + order[n + 1..]
  }

  /** set::insert: nothing happens when an equivalent key is present. */
  function Insert(recs: map<nat, TimerRec>, order: seq<nat>, id: nat): seq<nat>
    requires Known(recs, order) && id in recs
  {
    var n := LowerBound(recs, order, KeyOf(recs, id));
    if n < |order| && !Before(KeyOf(recs, id), KeyOf(recs, order[n])) then order else order[..n] + [id] + order[n..]
  }

  // ---------- operations ----------

  ghost predicate Fits(m: Manager) {
    Sorted(m.recs, m.order)
  }

  /** addTimer for a new timer. A live address is never handed out twice. */
  function Add(m: Manager, id: nat, ms: U64, cb: Option<nat>, recurring: bool, now: U64): Manager
    requires Known(m.recs, m.order)
  {
    if id in m.recs then m
    else
      var recs := m.recs[id := Made(ms, cb, recurring, now)];
      m.(recs := recs, order := Insert(recs, m.order, id))
  }

  /** Timer::cancel. */
  function Cancel(m: Manager, id: nat): (Manager, bool)
    requires Known(m.recs, m.order)
  {
    if id !in m.recs then (m, false)
    else
      var recs := m.recs[id := m.recs[id].(cb := None)];
      var n := Find(recs, m.order, id);
      if n < |m.order| then (m.(recs := recs, order := Erase(m.order, n)), true) else (m.(recs := recs), false)
  }

  /** The shared end of reset and refresh: erase, move the deadline, insert. */
  function Rearm(m: Manager, id: nat, n: nat, ms: U64, now: U64): Manager
    requires Known(m.recs, m.order) && id in m.recs && n < |m.order|
  {
    var recs := m.recs[id := Arm(m.recs[id].(ms := ms), now)];
    m.(recs := recs, order := Insert(recs, Erase(m.order, n), id))
  }

  /** What Timer::reset returns; None on the path that reaches the end of the function without a return. */
  function ResetReturns(t: TimerRec, ms: U64, fromNow: bool): Option<bool> {
    if (ms == t.ms && !fromNow) || t.cb.None? then Some(false) else None
  }

  /** Timer::reset. */
  function Reset(m: Manager, id: nat, ms: U64, fromNow: bool, now: U64): Manager
    requires Known(m.recs, m.order)
  {
    if id !in m.recs || (ms == m.recs[id].ms && !fromNow) then m
    else
      var n := Find(m.recs, m.order, id);
      if m.recs[id].cb.None? || n == |m.order| then m else Rearm(m, id, n, ms, now)
  }

  /** Timer::refresh, which always returns false. */
  function Refresh(lines: Lines, m: Manager, id: nat, now: U64): Manager
    requires Known(m.recs, m.order)
  {
    if id !in m.recs || (lines.refreshKeeps && m.recs[id].cb.None?) then m
    else
      var m := if lines.refreshKeeps then m else m.(recs := m.recs[id := m.recs[id].(cb := None)]);
      var n := Find(m.recs, m.order, id);
      if n == |m.order| then m else Rearm(m, id, n, m.recs[id].ms, now)
  }

  /** detectClockRollover; the subtraction is unsigned. */
  predicate Rollover(previous: U64, now: U64) {
    now < previous && now < Wrap(previous - HOUR_MS)
  }

  /** The loop at lines 171-179: emit each callback, put recurring timers back at now + period. */
  function Deliver(m: Manager, ids: seq<nat>, now: U64): (m': Manager)
    requires Known(m.recs, m.order) && Known(m.recs, ids)
    ensures Known(m'.recs, m'.order) && m'.recs.Keys == m.recs.Keys
  {
    if ids == [] then m
    else
      var m1 := Deliver(m, ids[..|ids| - 1], now);
      DeliverOne(m1, ids[|ids| - 1], now)
  }

  function DeliverOne(m: Manager, id: nat, now: U64): (m': Manager)
    requires Known(m.recs, m.order) && id in m.recs
    ensures Known(m'.recs, m'.order) && m'.recs.Keys == m.recs.Keys
  {
    var t := m.recs[id];
    var log := m.log + [Delivery(id, t.cb, now, t.next, t.due)];
    if t.recurring then
      var recs := m.recs[id := Arm(t, now)];
      m.(recs := recs, order := Insert(recs, m.order, id), log := log)
    else
      m.(recs := m.recs[id := t.(cb := None)], log := log)
  }

  /** How many timers the pass takes; `probe` is the address of the timer built for upper_bound. */
  function Taken(lines: Lines, m: Manager, now: U64, probe: nat): (k: nat)
    requires Known(m.recs, m.order)
    ensures k <= |m.order|
  {
    if m.order == [] then 0
    else if Rollover(m.previous, now) then |m.order|
    else if m.recs[m.order[0]].next > now then 0
    else UpperBound(m.recs, m.order, Key(if lines.probeKeeps then now else 0, probe))
  }

  /** listExpiredCb. */
  function Expire(lines: Lines, m: Manager, now: U64, probe: nat): Manager
    requires Known(m.recs, m.order)
  {
    if m.order == [] then m
    else
      var k := Taken(lines, m, now, probe);
      Deliver(m.(previous := now, order := m.order[k..]), m.order[..k], now)
  }

  /** getNextTImer. */
  function NextTimer(m: Manager, now: U64): U64
    requires Known(m.recs, m.order)
  {
    if m.order == [] then NEVER
    else
      var next := m.recs[m.order[0]].next;
      if now > next then 0 else next - now
  }

  // ---------- runs ----------

  datatype Op =
    | AddTimer(id: nat, ms: U64, cb: Option<nat>, recurring: bool, now: U64)
    | CancelTimer(id: nat)
    | ResetTimer(id: nat, ms: U64, fromNow: bool, now: U64)
    | RefreshTimer(id: nat, now: U64)
    | ExpireTimers(now: U64, probe: nat)

  function Apply(lines: Lines, m: Manager, op: Op): Manager
    requires Known(m.recs, m.order)
  {
    match op
    case AddTimer(id, ms, cb, recurring, now) => Add(m, id, ms, cb, recurring, now)
    case CancelTimer(id) => Cancel(m, id).0
    case ResetTimer(id, ms, fromNow, now) => Reset(m, id, ms, fromNow, now)
    case RefreshTimer(id, now) => Refresh(lines, m, id, now)
    case ExpireTimers(now, probe) => Expire(lines, m, now, probe)
  }

  /** A run: each state follows from the one before by one operation. */
  ghost predicate IsRun(lines: Lines, states: seq<Manager>, ops: seq<Op>) {
    && |states| == |ops| + 1
    && states[0] == Manager(map[], [], states[0].previous, [])
    && forall i :: 0 <= i < |ops| ==>
         Known(states[i].recs, states[i].order) && states[i + 1] == Apply(lines, states[i], ops[i])
  }
}
