/** The TimerManager object: timers whose fields are updated in place and the ordered set that holds them, proved
    against the functions of TimerSet. */
module TimerObjects {
  import opened Options
  import opened TimerSet

  class Timer {
    const id: nat          // stands for the object's address
    var ms: U64
    var next: U64
    var recurring: bool
    var cb: Option<nat>
    var due: nat           // bookkeeping, as in TimerRec

    constructor (id: nat, ms: U64, cb: Option<nat>, recurring: bool, now: U64)
      ensures this.id == id && Rec() == Made(ms, cb, recurring, now)
    {
      this.id := id;
      this.ms := ms;
      this.next := Wrap(now + ms);
      this.recurring := recurring;
      this.cb := cb;
      this.due := now + ms;
    }

    function Rec(): TimerRec
      reads this
    {
      TimerRec(ms, next, recurring, cb, due)
    }
  }

  class TimerManager {
    const lines: Lines
    var timers: seq<Timer>         // std::set in its iteration order
    var previous: U64
    ghost var all: map<nat, Timer> // every timer made by this manager
    ghost var log: seq<Delivery>

    ghost predicate Valid()
      reads this`all, this`timers
    {
      && (forall id :: id in all ==> all[id].id == id)
      && (forall i :: 0 <= i < |timers| ==> timers[i].id in all && all[timers[i].id] == timers[i])
    }

    ghost function Recs(): map<nat, TimerRec>
      reads this`all, all.Values
    {
      map id | id in all :: all[id].Rec()
    }

    ghost function Order(): (order: seq<nat>)
      reads this`timers
      ensures |order| == |timers|
    {
      var ts := timers;
      seq(|ts|, i requires 0 <= i < |ts| => ts[i].id)
    }

    ghost function View(): (m: Manager)
      requires Valid()
      reads this, all.Values
      ensures Known(m.recs, m.order)
    {
      Manager(Recs(), Order(), previous, log)
    }

    constructor (lines: Lines, now: U64)
      ensures Valid() && View() == Manager(map[], [], now, []) && this.lines == lines
    {
      this.lines := lines;
      timers, previous := [], now;
      all, log := map[], [];
    }

    /** Where k would go: lower_bound, or upper_bound when ties come before. */
    method Bound(k: Key, upper: bool) returns (n: nat)
      requires Valid()
      ensures n == if upper then UpperBound(Recs(), Order(), k) else LowerBound(Recs(), Order(), k)
    {
      n := 0;
      while n < |timers| && (if upper then !Before(k, Key(timers[n].next, timers[n].id))
                             else Before(Key(timers[n].next, timers[n].id), k))
        invariant n <= |timers|
        invariant forall i :: 0 <= i < n ==>
          if upper then !Before(k, KeyOf(Recs(), Order()[i])) else Before(KeyOf(Recs(), Order()[i]), k)
      {
        n := n + 1;
      }
      BoundUnique(Recs(), Order(), k, n, upper);
    }

    /** set::find. */
    method FindTimer(t: Timer) returns (n: nat)
      requires Valid() && t.id in all && all[t.id] == t
      ensures n == Find(Recs(), Order(), t.id) <= |timers|
    {
      n := Bound(Key(t.next, t.id), false);
      if n < |timers| && Before(Key(t.next, t.id), Key(timers[n].next, timers[n].id)) {
        n := |timers|;
      }
    }

    method PutAt(t: Timer, n: nat)
      requires Valid() && t.id in all && all[t.id] == t && n <= |timers|
      modifies this`timers
      ensures Valid() && Order() == old(Order())[..n] + [t.id] + old(Order())[n..]
    {
      timers := timers[..n] + [t] + timers[n..];
    }

    /** set::insert. */
    method InsertTimer(t: Timer)
      requires Valid() && t.id in all && all[t.id] == t
      modifies this`timers
      ensures Valid() && Order() == Insert(Recs(), old(Order()), t.id)
    {
      hide LowerBound;
      assert t.Rec() == Recs()[t.id];
      var n := Bound(Key(t.next, t.id), false);
      if n == |timers| || Before(Key(t.next, t.id), Key(timers[n].next, timers[n].id)) {
        PutAt(t, n);
      }
    }

    method EraseTimer(n: nat)
      requires Valid() && n < |timers|
      modifies this`timers
      ensures Valid() && Order() == Erase(old(Order()), n)
    {
      timers := timers[..n] + timers[n + 1..];
    }

    /** Overwrites one timer's fields. */
    method Update(t: Timer, rec: TimerRec)
      requires Valid() && t.id in all && all[t.id] == t
      modifies t
      ensures Valid() && Recs() == old(Recs())[t.id := rec]
    {
      t.ms, t.next, t.recurring, t.cb, t.due := rec.ms, rec.next, rec.recurring, rec.cb, rec.due;
    }

    method Create(id: nat, ms: U64, cb: Option<nat>, recurring: bool, now: U64) returns (t: Timer)
      requires Valid() && id !in all
      modifies this`all
      ensures Valid() && Recs() == old(Recs())[id := Made(ms, cb, recurring, now)]
      ensures fresh(t) && t.id == id && all == old(all)[id := t] && Order() == old(Order())
    {
      t := new Timer(id, ms, cb, recurring, now);
      all := all[id := t];
    }

    /** addTimer; the result and whether it came to the front. */
    method AddTimer(id: nat, ms: U64, cb: Option<nat>, recurring: bool, now: U64) returns (t: Timer, atFront: bool)
      requires Valid() && id !in all
      modifies this`timers, this`all
      ensures Valid() && View() == Add(old(View()), id, ms, cb, recurring, now)
      ensures fresh(t) && t.id == id && all == old(all)[id := t]
      ensures atFront <==> (timers != [] && timers[0] == t)
    {
      hide Insert;
      t := Create(id, ms, cb, recurring, now);
      InsertTimer(t);
      atFront := timers != [] && timers[0] == t;
    }

    /** Timer::cancel. */
    method CancelTimer(t: Timer) returns (ok: bool)
      requires Valid() && t.id in all && all[t.id] == t
      modifies this`timers, t
      ensures Valid() && View() == Cancel(old(View()), t.id).0 && ok == Cancel(old(View()), t.id).1
    {
      Update(t, t.Rec().(cb := None));
      var n := FindTimer(t);
      ok := n < |timers|;
      if ok {
        EraseTimer(n);
      }
    }

    /** Erase, move the deadline, insert. */
    method Rearm(t: Timer, n: nat, ms: U64, now: U64)
      requires Valid() && t.id in all && all[t.id] == t && n < |timers|
      modifies this`timers, t
      ensures Valid() && View() == TimerSet.Rearm(old(View()), t.id, n, ms, now)
    {
      hide Insert, Erase;
      assert t.Rec() == Recs()[t.id];
      EraseTimer(n);
      Update(t, Arm(t.Rec().(ms := ms), now));
      InsertTimer(t);
    }

    /** Timer::reset, with what it returns. */
    method ResetTimer(t: Timer, ms: U64, fromNow: bool, now: U64) returns (ok: Option<bool>)
      requires Valid() && t.id in all && all[t.id] == t
      modifies this`timers, t
      ensures Valid() && View() == Reset(old(View()), t.id, ms, fromNow, now)
      ensures ok == ResetReturns(old(t.Rec()), ms, fromNow)
    {
      if ms == t.ms && !fromNow {
        return Some(false);
      }
      var n := FindTimer(t);
      if t.cb.None? {
        return Some(false);
      }
      if n < |timers| {
        Rearm(t, n, ms, now);
      }
      return None;
    }

    /** Timer::refresh. */
    method RefreshTimer(t: Timer, now: U64) returns (ok: bool)
      requires Valid() && t.id in all && all[t.id] == t
      modifies this`timers, t
      ensures Valid() && View() == Refresh(lines, old(View()), t.id, now) && !ok
    {
      ok := false;
      if lines.refreshKeeps {
        if t.cb.None? {
          return;
        }
      } else {
        Update(t, t.Rec().(cb := None));
      }
      var n := FindTimer(t);
      if n < |timers| {
        Rearm(t, n, t.ms, now);
      }
    }

    /** One turn of the loop at lines 171-179. */
    method DeliverTimer(t: Timer, now: U64) returns (cb: Option<nat>)
      requires Valid() && t.id in all && all[t.id] == t
      modifies this`timers, this`log, t
      ensures Valid() && View() == DeliverOne(old(View()), t.id, now)
      ensures cb == old(t.cb) && log == old(log) + [Delivery(t.id, old(t.cb), now, old(t.next), old(t.due))]
    {
      hide Insert;
      cb := t.cb;
      log := log + [Delivery(t.id, t.cb, now, t.next, t.due)];
      assert t.Rec() == Recs()[t.id];
      if t.recurring {
        Update(t, Arm(t.Rec(), now));
        InsertTimer(t);
      } else {
        Update(t, t.Rec().(cb := None));
      }
    }

    /** The loop at lines 171-179 over the timers whose addresses are ids. */
    method DeliverAll(expired: seq<Timer>, ghost ids: seq<nat>, now: U64) returns (cbs: seq<Option<nat>>)
      requires Valid() && |ids| == |expired| && Known(Recs(), ids)
      requires forall i :: 0 <= i < |expired| ==> expired[i].id == ids[i] && all[ids[i]] == expired[i]
      modifies this`timers, this`log, all.Values
      ensures Valid() && View() == Deliver(old(View()), ids, now)
      ensures |log| == |old(log)| + |cbs| && forall i :: 0 <= i < |cbs| ==> cbs[i] == log[|old(log)| + i].cb
    {
      hide DeliverOne, Deliver;
      ghost var m := View();
      cbs := [];
      var i := 0;
      DeliverNone(m, ids, now);
      while i < |expired|
        invariant 0 <= i <= |expired| && Valid() && all == old(all)
        invariant View() == Deliver(m, ids[..i], now)
        invariant |cbs| == i && |log| == |old(log)| + i
        invariant forall j :: 0 <= j < i ==> cbs[j] == log[|old(log)| + j].cb
      {
        DeliverStep(m, ids, i, now);
        var cb := DeliverTimer(expired[i], now);
        cbs := cbs + [cb];
        i := i + 1;
      }
      assert ids[..|ids|] == ids;
    }

    /** How many timers a pass takes. */
    method CountExpired(now: U64, probe: nat) returns (k: nat)
      requires Valid() && timers != []
      ensures k == Taken(lines, View(), now, probe) <= |timers|
    {
      k := 0;
      if Rollover(previous, now) {
        k := |timers|;
      } else if timers[0].next <= now {
        k := Bound(Key(if lines.probeKeeps then now else 0, probe), true);
      }
    }

    /** The prefix of a pass, taken out of the set. */
    method TakeFirst(k: nat) returns (expired: seq<Timer>)
      requires Valid() && k <= |timers|
      modifies this`timers
      ensures Valid() && Order() == old(Order())[k..] && |expired| == k
      ensures forall i :: 0 <= i < k ==>
                expired[i].id in all && all[expired[i].id] == expired[i] && expired[i].id == old(Order())[i]
    {
      expired := timers[..k];
      timers := timers[k..];
    }

    /** Lines 165-179: the first k timers leave the set and are delivered. */
    method DeliverFirst(k: nat, now: U64) returns (cbs: seq<Option<nat>>)
      requires Valid() && k <= |timers|
      modifies this`timers, this`log, all.Values
      ensures Valid() && View() == Deliver(old(View()).(order := old(Order())[k..]), old(Order())[..k], now)
      ensures |cbs| == |log| - |old(log)| && forall i :: 0 <= i < |cbs| ==> cbs[i] == log[|old(log)| + i].cb
    {
      hide Deliver;
      ghost var ids := Order()[..k];
      var expired := TakeFirst(k);
      cbs := DeliverAll(expired, ids, now);
    }

    /** listExpiredCb. */
    method ListExpired(now: U64, probe: nat) returns (cbs: seq<Option<nat>>)
      requires Valid()
      modifies this`timers, this`log, this`previous, all.Values
      ensures Valid() && View() == Expire(lines, old(View()), now, probe)
      ensures |cbs| == |log| - |old(log)| && forall i :: 0 <= i < |cbs| ==> cbs[i] == log[|old(log)| + i].cb
    {
      hide Taken, Deliver;
      if timers == [] {
        return [];
      }
      var k := CountExpired(now, probe);
      previous := now;
      cbs := DeliverFirst(k, now);
    }

    /** getNextTImer. */
    method GetNextTimer(now: U64) returns (wait: U64)
      requires Valid()
      ensures wait == NextTimer(View(), now)
    {
      if timers == [] {
        return NEVER;
      }
      var next := timers[0].next;
      wait := if now > next then 0 else next - now;
    }
  }

  /** The next turn of the delivery loop. */
  lemma DeliverStep(m: Manager, ids: seq<nat>, i: nat, now: U64)
    requires Known(m.recs, m.order) && i < |ids| && Known(m.recs, ids)
    ensures Deliver(m, ids[..i + 1], now) == DeliverOne(Deliver(m, ids[..i], now), ids[i], now)
  {
    assert ids[..i + 1][..i] == ids[..i] && ids[..i + 1][i] == ids[i];
  }

  lemma DeliverNone(m: Manager, ids: seq<nat>, now: U64)
    requires Known(m.recs, m.order)
    ensures Deliver(m, ids[..0], now) == m
  {
  }

  /** The bounds are the only places with these properties. */
  lemma {:induction false} BoundUnique(recs: map<nat, TimerRec>, order: seq<nat>, k: Key, n: nat, upper: bool)
    requires Known(recs, order) && n <= |order|
    requires forall i :: 0 <= i < n ==>
      if upper then !Before(k, KeyOf(recs, order[i])) else Before(KeyOf(recs, order[i]), k)
    requires n < |order| ==> if upper then Before(k, KeyOf(recs, order[n])) else !Before(KeyOf(recs, order[n]), k)
    ensures n == if upper then UpperBound(recs, order, k) else LowerBound(recs, order, k)
  {
  }
}
