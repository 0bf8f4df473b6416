/** The timer set stays ordered, expiry takes exactly what is due, and what runs of timer operations deliver. */
module TimerTheorems {
  import opened Counting
  import opened Options
  import opened TimerSet

  // ---------- the order ----------

  lemma BeforeIsStrictTotal(a: Key, b: Key, c: Key)
    ensures !Before(a, a)
    ensures Before(a, b) ==> !Before(b, a)
    ensures Before(a, b) && Before(b, c) ==> Before(a, c)
    ensures a != b ==> Before(a, b) || Before(b, a)
  {
  }

  /** Line 78 as written orders a set of timers as intended exactly when they all share one deadline. */
  lemma WrittenOrderIffOneDeadline(s: set<Key>)
    ensures (forall a, b :: a in s && b in s ==> (WrittenBefore(a, b) <==> Before(a, b)))
            <==> (forall a, b :: a in s && b in s ==> a.next == b.next)
  {
  }

  /** To the written order two timers are the same, so that the set refuses the second, exactly when the one at
      the lower address is due strictly earlier. */
  lemma WrittenOrderConfuses(a: Key, b: Key)
    requires a.id < b.id
    ensures !WrittenBefore(a, b) && !WrittenBefore(b, a) <==> a.next < b.next
  {
  }

  /** Neither comes before the other in the written order. */
  predicate WrittenTie(a: Key, b: Key) {
    !WrittenBefore(a, b) && !WrittenBefore(b, a)
  }

  /** What std::set asks of its comparator, here the written one on the keys in s. */
  ghost predicate StrictWeak(s: set<Key>) {
    forall a, b, c :: a in s && b in s && c in s ==>
      && !WrittenBefore(a, a)
      && (WrittenBefore(a, b) && WrittenBefore(b, c) ==> WrittenBefore(a, c))
      && (WrittenTie(a, b) && WrittenTie(b, c) ==> WrittenTie(a, c))
  }

  /** The written comparator is a strict weak order on exactly those sets of timers in which, of any three by address,
      the middle one is due strictly between the outer two whenever the first is due before the last. */
  lemma WrittenOrderIsWeakIff(s: set<Key>)
    requires forall a, b :: a in s && b in s && a.id == b.id ==> a == b
    ensures StrictWeak(s) <==>
            forall a, b, c :: a in s && b in s && c in s && a.id < b.id < c.id && a.next < c.next ==>
              a.next < b.next < c.next
  {
  }

  lemma Ordered(recs: map<nat, TimerRec>, order: seq<nat>, i: nat, j: nat)
    requires Sorted(recs, order) && i < |order| && j < |order|
    ensures i < j ==> Before(KeyOf(recs, order[i]), KeyOf(recs, order[j]))
    ensures j < i ==> Before(KeyOf(recs, order[j]), KeyOf(recs, order[i]))
    ensures order[i] == order[j] <==> i == j
  {
  }

  lemma FirstIsLeast(recs: map<nat, TimerRec>, order: seq<nat>, x: nat)
    requires Sorted(recs, order) && x in order
    ensures !Before(KeyOf(recs, x), KeyOf(recs, order[0]))
  {
  }

  lemma EmptyIffNoMembers(s: seq<nat>)
    ensures s == [] <==> forall x :: x !in s
  {
    if s != [] {
      assert s[0] in s;
    }
  }

  /** The order is a function of who is in the set: two sorted listings of the same timers are equal. */
  lemma {:induction false} SortedUnique(recs: map<nat, TimerRec>, a: seq<nat>, b: seq<nat>)
    requires Sorted(recs, a) && Sorted(recs, b) && forall x :: x in a <==> x in b
    ensures a == b
  {
    EmptyIffNoMembers(a);
    EmptyIffNoMembers(b);
    if a != [] {
      FirstIsLeast(recs, a, b[0]);
      FirstIsLeast(recs, b, a[0]);
      forall x ensures x in a[1..] <==> x in b[1..] {
        TailMembers(recs, a, x);
        TailMembers(recs, b, x);
      }
      SortedUnique(recs, a[1..], b[1..]);
    }
  }

  lemma TailMembers(recs: map<nat, TimerRec>, a: seq<nat>, x: nat)
    requires Sorted(recs, a) && a != []
    ensures x in a[1..] <==> x in a && x != a[0]
  {
  }

  // ---------- set operations ----------

  lemma FindIsIndex(recs: map<nat, TimerRec>, order: seq<nat>, id: nat)
    requires Sorted(recs, order) && id in recs
    ensures var n := Find(recs, order, id);
            n <= |order| && (n < |order| ==> order[n] == id) && (n == |order| ==> id !in order)
  {
  }

  lemma EraseSorted(recs: map<nat, TimerRec>, order: seq<nat>, n: nat)
    requires Sorted(recs, order) && n < |order|
    ensures Sorted(recs, Erase(order, n))
    ensures forall x :: x in Erase(order, n) <==> x in order && x != order[n]
  {
  }

  lemma InsertSorted(recs: map<nat, TimerRec>, order: seq<nat>, id: nat)
    requires Sorted(recs, order) && id in recs && id !in order
    ensures Sorted(recs, Insert(recs, order, id))
    ensures forall x :: x in Insert(recs, order, id) <==> x in order || x == id
  {
    var k := KeyOf(recs, id);
    var n := LowerBound(recs, order, k);
    hide LowerBound;
    if n < |order| {
      assert order[n] in order;
      assert Before(k, KeyOf(recs, order[n]));
      forall j | n < j < |order| ensures Before(k, KeyOf(recs, order[j])) {
        Ordered(recs, order, n, j);
      }
    }
    assert Insert(recs, order, id) == order[..n] + [id] + order[n..];
    InsertMembers(order, n, id);
    InsertedSorted(recs, order, n, id);
  }

  lemma InsertMembers(order: seq<nat>, n: nat, id: nat)
    requires n <= |order|
    ensures forall x :: x in order[..n] + [id] + order[n..] <==> x in order || x == id
  {
    assert order == order[..n] + order[n..];
  }

  lemma InsertedSorted(recs: map<nat, TimerRec>, order: seq<nat>, n: nat, id: nat)
    requires Sorted(recs, order) && id in recs && n <= |order|
    requires forall i :: 0 <= i < n ==> Before(KeyOf(recs, order[i]), KeyOf(recs, id))
    requires forall i :: n <= i < |order| ==> Before(KeyOf(recs, id), KeyOf(recs, order[i]))
    ensures Sorted(recs, order[..n] + [id] + order[n..])
  {
    var s := order[..n] + [id] + order[n..];
    forall i, j | 0 <= i < j < |s|
      ensures s[i] in recs && s[j] in recs && Before(KeyOf(recs, s[i]), KeyOf(recs, s[j]))
    {
      assert i != n ==> s[i] == order[if i < n then i else i - 1];
      assert j != n ==> s[j] == order[if j < n then j else j - 1];
    }
  }

  /** Changing records outside the listing, or only their callbacks, does not disturb it. */
  lemma SortedFrame(recs: map<nat, TimerRec>, recs': map<nat, TimerRec>, order: seq<nat>)
    requires Sorted(recs, order)
    requires forall x :: x in order ==> x in recs' && recs'[x].next == recs[x].next
    ensures Sorted(recs', order)
  {
  }

  // ---------- one operation ----------

  /** t with period ms and its deadline that far from now, in 64 bits. */
  function Rearmed(t: TimerRec, ms: U64, now: U64): TimerRec {
    TimerRec(ms, (now + ms) % 0x1_0000_0000_0000_0000, t.recurring, t.cb, now + ms)
  }

  /** The clock reads more than an hour less than it did, or less than it did within its first hour: previous - 1h wraps
      then. */
  predicate JumpsBack(previous: U64, now: U64) {
    now < previous && (previous < 3600000 || now < previous - 3600000)
  }

  /** A timer that will never be delivered again: no callback, not in the set. */
  predicate Dead(m: Manager, id: nat) {
    id in m.recs && m.recs[id].cb.None? && id !in m.order
  }

  lemma AddEffect(m: Manager, id: nat, ms: U64, cb: Option<nat>, recurring: bool, now: U64)
    requires Fits(m) && id !in m.recs
    ensures var m' := Add(m, id, ms, cb, recurring, now);
            && Fits(m') && (forall x :: x in m'.order <==> x in m.order || x == id)
            && m'.recs == m.recs[id := TimerRec(ms, (now + ms) % 0x1_0000_0000_0000_0000, recurring, cb, now + ms)]
  {
    var m' := Add(m, id, ms, cb, recurring, now);
    assert id !in m.order;
    SortedFrame(m.recs, m'.recs, m.order);
    InsertSorted(m'.recs, m.order, id);
  }

  /** addTimer reports the front (and so wakes the poller) exactly when the new timer precedes every other. */
  lemma FrontIffEarliest(m: Manager, id: nat, ms: U64, cb: Option<nat>, recurring: bool, now: U64)
    requires Fits(m) && id !in m.recs
    ensures var m' := Add(m, id, ms, cb, recurring, now);
            Known(m'.recs, m'.order) && m'.order != [] &&
            (m'.order[0] == id <==> forall x :: x in m.order ==> Before(KeyOf(m'.recs, id), KeyOf(m'.recs, x)))
  {
  }

  /** cancel returns true exactly when the timer was in the set; either way it is dead afterwards. */
  lemma CancelEffect(m: Manager, id: nat)
    requires Fits(m) && id in m.recs
    ensures var (m', ok) := Cancel(m, id);
            && Fits(m') && Dead(m', id) && (ok <==> id in m.order)
            && (forall x :: x in m'.order <==> x in m.order && x != id)
            && m'.recs == m.recs[id := m.recs[id].(cb := None)] && m'.log == m.log && m'.previous == m.previous
  {
    var recs := m.recs[id := m.recs[id].(cb := None)];
    SortedFrame(m.recs, recs, m.order);
    FindIsIndex(recs, m.order, id);
    var n := Find(recs, m.order, id);
    if n < |m.order| {
      assert m.order[n] in m.order;
      EraseSorted(recs, m.order, n);
    }
  }

  /** Rearming keeps the members and puts the timer at now + ms. */
  lemma RearmEffect(m: Manager, id: nat, n: nat, ms: U64, now: U64)
    requires Fits(m) && n < |m.order| && m.order[n] == id
    ensures var m' := Rearm(m, id, n, ms, now);
            && Fits(m') && (forall x :: x in m'.order <==> x in m.order) && m'.log == m.log
            && m'.recs == m.recs[id := Rearmed(m.recs[id], ms, now)]
  {
    hide Insert;
    assert id in m.order;
    var recs := m.recs[id := Rearmed(m.recs[id], ms, now)];
    EraseSorted(m.recs, m.order, n);
    SortedFrame(m.recs, recs, Erase(m.order, n));
    InsertSorted(recs, Erase(m.order, n), id);
  }

  lemma ResetEffect(m: Manager, id: nat, ms: U64, fromNow: bool, now: U64)
    requires Fits(m) && id in m.recs
    ensures var m' := Reset(m, id, ms, fromNow, now);
            && Fits(m') && (forall x :: x in m'.order <==> x in m.order) && m'.log == m.log
            && m'.recs == if (ms != m.recs[id].ms || fromNow) && m.recs[id].cb.Some? && id in m.order
                          then m.recs[id := Rearmed(m.recs[id], ms, now)] else m.recs
  {
    FindIsIndex(m.recs, m.order, id);
    var n := Find(m.recs, m.order, id);
    if n < |m.order| {
      assert m.order[n] in m.order;
      RearmEffect(m, id, n, ms, now);
    }
  }

  /** reset returns a value exactly when the period is the same and from_now is not given, or there is no callback; the
      value is then false and nothing has changed. */
  lemma ResetReturnsUnchanged(m: Manager, id: nat, ms: U64, fromNow: bool, now: U64)
    requires Fits(m) && id in m.recs
    ensures ResetReturns(m.recs[id], ms, fromNow).Some? <==> (ms == m.recs[id].ms && !fromNow) || m.recs[id].cb.None?
    ensures ResetReturns(m.recs[id], ms, fromNow).Some? ==>
              !ResetReturns(m.recs[id], ms, fromNow).value && Reset(m, id, ms, fromNow, now) == m
  {
  }

  lemma RefreshEffect(lines: Lines, m: Manager, id: nat, now: U64)
    requires Fits(m) && id in m.recs
    ensures var m' := Refresh(lines, m, id, now);
            var t := m.recs[id].(cb := if lines.refreshKeeps then m.recs[id].cb else None);
            && Fits(m') && (forall x :: x in m'.order <==> x in m.order) && m'.log == m.log
            && m'.recs == m.recs[id := if id in m.order && !(lines.refreshKeeps && m.recs[id].cb.None?)
                                       then Rearmed(t, t.ms, now) else t]
  {
    hide Rearm;
    var m1 := if lines.refreshKeeps then m else m.(recs := m.recs[id := m.recs[id].(cb := None)]);
    SortedFrame(m.recs, m1.recs, m.order);
    FindIsIndex(m1.recs, m.order, id);
    var n := Find(m1.recs, m.order, id);
    assert m.recs[id := m.recs[id]] == m.recs;
    if n < |m.order| {
      assert m.order[n] in m.order;
      RearmEffect(m1, id, n, m.recs[id].ms, now);
    }
  }

  /** Line 57: as written, refresh leaves an empty callback in the set exactly when the timer is in the set. */
  lemma WrittenRefreshSilencesIffInSet(m: Manager, id: nat, now: U64)
    requires Fits(m) && id in m.recs
    ensures var m' := Refresh(DESIGNED.(refreshKeeps := false), m, id, now);
            (id in m'.order && id in m'.recs && m'.recs[id].cb.None?) <==> id in m.order
  {
    RefreshEffect(DESIGNED.(refreshKeeps := false), m, id, now);
  }

  // ---------- expiry ----------

  /** The record of a timer that has just been delivered at `now`. */
  function After(t: TimerRec, now: U64): TimerRec {
    if t.recurring then Rearmed(t, t.ms, now) else t.(cb := None)
  }

  lemma MembersKnown(m: Manager)
    requires Fits(m)
    ensures Known(m.recs, m.order) && forall x :: x in m.order ==> x in m.recs
  {
  }

  lemma DeliverOneEffect(m: Manager, id: nat, now: U64)
    requires Fits(m) && id in m.recs && id !in m.order
    ensures var m' := DeliverOne(m, id, now);
            && Fits(m') && m'.recs == m.recs[id := After(m.recs[id], now)] && m'.previous == m.previous
            && (forall x :: x in m'.order <==> x in m.order || (x == id && m.recs[id].recurring))
            && m'.log == m.log + [Delivery(id, m.recs[id].cb, now, m.recs[id].next, m.recs[id].due)]
  {
    hide Insert, Sorted;
    MembersKnown(m);
    var recs := m.recs[id := After(m.recs[id], now)];
    SortedFrame(m.recs, recs, m.order);
    if m.recs[id].recurring {
      InsertSorted(recs, m.order, id);
    }
  }

  ghost predicate NoDuplicates(ids: seq<nat>) {
    forall i, j :: 0 <= i < j < |ids| ==> ids[i] != ids[j]
  }

  /** What delivering ids does to the records: each once, the others not at all. */
  ghost predicate RecsAfter(recs: map<nat, TimerRec>, recs': map<nat, TimerRec>, ids: seq<nat>, now: U64) {
    recs'.Keys == recs.Keys && forall x :: x in recs ==> recs'[x] == if x in ids then After(recs[x], now) else recs[x]
  }

  function Deliveries(recs: map<nat, TimerRec>, ids: seq<nat>, now: U64): seq<Delivery>
    requires Known(recs, ids)
  {
    seq(|ids|, i requires 0 <= i < |ids| => Delivery(ids[i], recs[ids[i]].cb, now, recs[ids[i]].next, recs[ids[i]].due))
  }

  lemma DeliveriesAppend(recs: map<nat, TimerRec>, front: seq<nat>, id: nat, now: U64)
    requires Known(recs, front + [id]) && Known(recs, front) && id in recs
    ensures Deliveries(recs, front + [id], now) ==
            Deliveries(recs, front, now) + [Delivery(id, recs[id].cb, now, recs[id].next, recs[id].due)]
  {
  }

  lemma RecsAfterAppend(recs: map<nat, TimerRec>, recs1: map<nat, TimerRec>, front: seq<nat>, id: nat, now: U64)
    requires RecsAfter(recs, recs1, front, now) && id in recs && id !in front
    ensures RecsAfter(recs, recs1[id := After(recs1[id], now)], front + [id], now)
  {
  }

  lemma DeliverNext(m: Manager, front: seq<nat>, id: nat, now: U64)
    requires Known(m.recs, m.order) && Known(m.recs, front) && id in m.recs
    ensures Known(m.recs, front + [id])
    ensures Deliver(m, front + [id], now) == DeliverOne(Deliver(m, front, now), id, now)
  {
    assert (front + [id])[..|front|] == front;
  }

  /** The last of distinct ids. */
  lemma LastOf(ids: seq<nat>)
    requires ids != [] && NoDuplicates(ids)
    ensures var front, id := ids[..|ids| - 1], ids[|ids| - 1];
            && ids == front + [id] && id !in front && NoDuplicates(front) && id in ids
            && forall x :: x in ids <==> x in front || x == id
  {
    assert ids == ids[..|ids| - 1] + [ids[|ids| - 1]];
  }

  lemma {:induction false} DeliverEffect(m: Manager, ids: seq<nat>, now: U64)
    requires Fits(m) && Known(m.recs, ids) && NoDuplicates(ids) && forall i :: 0 <= i < |ids| ==> ids[i] !in m.order
    ensures var m' := Deliver(m, ids, now);
            && Fits(m') && m'.previous == m.previous && RecsAfter(m.recs, m'.recs, ids, now)
            && (forall x :: x in m'.order <==> x in m.order || (x in ids && m.recs[x].recurring))
            && m'.log == m.log + Deliveries(m.recs, ids, now)
  {
    if ids == [] {
      assert m.log + Deliveries(m.recs, ids, now) == m.log;
    } else {
      var front, id := ids[..|ids| - 1], ids[|ids| - 1];
      LastOf(ids);
      assert id in m.recs && id !in m.order && id !in front;
      assert Known(m.recs, m.order);
      DeliverNext(m, front, id, now);
      hide Sorted, Deliver, DeliverOne, Insert, NoDuplicates;
      DeliverEffect(m, front, now);
      DeliverOneEffect(Deliver(m, front, now), id, now);
      DeliveriesAppend(m.recs, front, id, now);
      RecsAfterAppend(m.recs, Deliver(m, front, now).recs, front, id, now);
    }
  }

  lemma SortedSlices(recs: map<nat, TimerRec>, order: seq<nat>, k: nat)
    requires Sorted(recs, order) && k <= |order|
    ensures Sorted(recs, order[..k]) && Sorted(recs, order[k..]) && NoDuplicates(order[..k])
    ensures forall i :: 0 <= i < k ==> order[i] !in order[k..]
    ensures forall x :: x in order <==> x in order[..k] || x in order[k..]
  {
  }

  /** A pass that is not a rollover takes a prefix: every deadline before now, none after, and of those at now the
      ones at addresses up to the probe's. A rollover takes everything. */
  lemma TakenIsDue(m: Manager, now: U64, probe: nat)
    requires Fits(m)
    ensures var k := Taken(DESIGNED, m, now, probe);
            if JumpsBack(m.previous, now) then k == |m.order|
            else forall i :: 0 <= i < |m.order| ==>
                   (i < k <==> m.recs[m.order[i]].next < now || (m.recs[m.order[i]].next == now && m.order[i] <= probe))
  {
  }

  /** listExpiredCb: the taken prefix is delivered in order, its recurring timers are back at now + period, its
      one-shots are dead, and everything else is untouched. */
  lemma ExpireEffect(lines: Lines, m: Manager, now: U64, probe: nat)
    requires Fits(m)
    ensures var k, m' := Taken(lines, m, now, probe), Expire(lines, m, now, probe);
            && Fits(m') && RecsAfter(m.recs, m'.recs, m.order[..k], now)
            && m'.log == m.log + Deliveries(m.recs, m.order[..k], now)
            && m'.previous == (if m.order == [] then m.previous else now)
            && (forall x :: x in m'.order <==> x in m.order && (x in m.order[..k] ==> m.recs[x].recurring))
  {
    var k := Taken(lines, m, now, probe);
    SortedSlices(m.recs, m.order, k);
    if m.order == [] {
      assert m.log + Deliveries(m.recs, m.order[..k], now) == m.log;
    } else {
      var m1 := m.(previous := now, order := m.order[k..]);
      assert forall i :: 0 <= i < k ==> m.order[..k][i] == m.order[i];
      DeliverEffect(m1, m.order[..k], now);
      assert Deliveries(m1.recs, m.order[..k], now) == Deliveries(m.recs, m.order[..k], now);
      forall x | x in m.order[..k] ensures x !in m.order[k..] {
        var i :| 0 <= i < k && m.order[..k][i] == x;
        assert m.order[i] == x;
      }
    }
  }

  /** A pass delivers something ahead of its deadline exactly when it is a rollover and some timer is not due. */
  lemma EarlyIffRollover(m: Manager, now: U64, probe: nat)
    requires Fits(m)
    ensures (exists i :: 0 <= i < Taken(DESIGNED, m, now, probe) && m.recs[m.order[i]].next > now)
            <==> (JumpsBack(m.previous, now) && exists i :: 0 <= i < |m.order| && m.recs[m.order[i]].next > now)
  {
  }

  /** A recurring timer that a pass takes and whose next deadline does not fit into 64 bits. */
  ghost predicate Overflows(m: Manager, now: U64, probe: nat, i: nat)
    requires Known(m.recs, m.order)
  {
    && i < Taken(DESIGNED, m, now, probe) && m.recs[m.order[i]].recurring
    && now + m.recs[m.order[i]].ms >= 0x1_0000_0000_0000_0000
  }

  /** Where a timer that is in the set after a pass came from. */
  lemma AfterPass(m: Manager, now: U64, probe: nat, i: nat)
    requires Fits(m) && i < |m.order|
    ensures var k, m' := Taken(DESIGNED, m, now, probe), Expire(DESIGNED, m, now, probe);
            var x := m.order[i];
            && Fits(m') && x in m'.recs && m'.recs[x] == (if i < k then After(m.recs[x], now) else m.recs[x])
            && (x in m'.order <==> (i < k ==> m.recs[x].recurring))
            && (i >= k ==> m.recs[x].next >= now)
  {
    hide Expire;
    var k := Taken(DESIGNED, m, now, probe);
    ExpireEffect(DESIGNED, m, now, probe);
    TakenIsDue(m, now, probe);
    SortedSlices(m.recs, m.order, k);
    if i < k {
      assert m.order[..k][i] == m.order[i];
    } else {
      assert m.order[k..][i - k] == m.order[i];
      forall j | 0 <= j < k ensures m.order[..k][j] != m.order[i] {
        Ordered(m.recs, m.order, i, j);
      }
    }
  }

  /** After a pass no deadline lies before now, if and only if no taken recurring timer overflows. */
  lemma NothingOverdueIffNoOverflow(m: Manager, now: U64, probe: nat)
    requires Fits(m)
    ensures var m' := Expire(DESIGNED, m, now, probe);
            Known(m'.recs, m'.order) &&
            ((forall x :: x in m'.order ==> m'.recs[x].next >= now) <==> forall i: nat :: !Overflows(m, now, probe, i))
  {
    hide Expire, Taken, Sorted;
    MembersKnown(m);
    var m' := Expire(DESIGNED, m, now, probe);
    ExpireEffect(DESIGNED, m, now, probe);
    MembersKnown(m');
    if i: nat :| Overflows(m, now, probe, i) {
      AfterPass(m, now, probe, i);
      assert m'.recs[m.order[i]].next < now;
    } else {
      forall x | x in m'.order ensures m'.recs[x].next >= now {
        var i :| 0 <= i < |m.order| && m.order[i] == x;
        assert !Overflows(m, now, probe, i);
        AfterPass(m, now, probe, i);
      }
    }
  }

  /** Timer x comes after a probe for deadline `now`, so that a pass at that time does not reach it. */
  predicate AfterProbe(m: Manager, x: nat, now: U64, probe: nat)
    requires x in m.recs
  {
    Before(Key(now, probe), KeyOf(m.recs, x))
  }

  /** Lines 16-19: with the probe's deadline lost, a pass takes what the designed one takes exactly when it is a
      rollover, or every timer not after the probe at now is not after a probe at 0 either. */
  lemma WrittenProbeTakesSameIff(m: Manager, now: U64, probe: nat)
    requires Fits(m)
    ensures var k := Taken(DESIGNED, m, now, probe);
            Taken(DESIGNED.(probeKeeps := false), m, now, probe) == k <==>
            JumpsBack(m.previous, now) ||
            forall i :: 0 <= i < |m.order| && !AfterProbe(m, m.order[i], now, probe) ==>
              !AfterProbe(m, m.order[i], 0, probe)
  {
  }

  /** getNextTImer: a lower bound for every timer's remaining time, reached by one; all ones when there is none. */
  lemma NextTimerIsMinimum(m: Manager, now: U64)
    requires Fits(m)
    ensures m.order == [] ==> NextTimer(m, now) == 0xFFFF_FFFF_FFFF_FFFF
    ensures forall x :: x in m.order ==> NextTimer(m, now) <= if m.recs[x].next <= now then 0 else m.recs[x].next - now
    ensures m.order != [] ==>
              exists x :: x in m.order && NextTimer(m, now) == if m.recs[x].next <= now then 0 else m.recs[x].next - now
  {
    if m.order != [] {
      assert m.order[0] in m.order;
      forall x | x in m.order ensures m.recs[m.order[0]].next <= m.recs[x].next {
        var i :| 0 <= i < |m.order| && m.order[i] == x;
        assert i > 0 ==> Before(KeyOf(m.recs, m.order[0]), KeyOf(m.recs, x));
      }
    }
  }

  // ---------- runs ----------

  function Of(id: nat): Delivery -> bool {
    (d: Delivery) => d.id == id
  }

  function OnTime(d: Delivery): bool {
    d.deadline <= d.at
  }

  /** Deliveries go to known timers, a one-shot is delivered at most once and is out of the set afterwards, and
      whatever is out of the set has no callback. */
  ghost predicate Settled(m: Manager) {
    && Fits(m)
    && (forall i :: 0 <= i < |m.log| ==> m.log[i].id in m.recs)
    && (forall id :: id in m.recs && id !in m.order ==> m.recs[id].cb.None?)
    && (forall id :: id in m.recs && !m.recs[id].recurring ==> Count(m.log, Of(id)) + One(id in m.order) <= 1)
  }

  lemma UnknownUndelivered(m: Manager, id: nat)
    requires Settled(m) && id !in m.recs
    ensures Count(m.log, Of(id)) == 0
  {
    CountSome(m.log, Of(id));
  }

  lemma {:induction false} CountDeliveries(recs: map<nat, TimerRec>, ids: seq<nat>, now: U64, id: nat)
    requires Known(recs, ids) && NoDuplicates(ids)
    ensures Count(Deliveries(recs, ids, now), Of(id)) == One(id in ids)
  {
    if ids != [] {
      assert Known(recs, ids[1..]);
      CountDeliveries(recs, ids[1..], now, id);
      assert Deliveries(recs, ids, now)[1..] == Deliveries(recs, ids[1..], now);
      assert id in ids <==> id == ids[0] || id in ids[1..] by {
        assert ids == [ids[0]] + ids[1..];
      }
      assert ids[0] !in ids[1..];
    }
  }

  /** A dead timer that stays dead, with no delivery of its own in between. */
  ghost predicate StaysDead(m: Manager, m': Manager) {
    forall id :: Dead(m, id) ==> Dead(m', id) && Count(m'.log, Of(id)) == Count(m.log, Of(id))
  }

  lemma ExpireCounts(lines: Lines, m: Manager, now: U64, probe: nat, id: nat)
    requires Settled(m)
    ensures Count(Expire(lines, m, now, probe).log, Of(id)) ==
            Count(m.log, Of(id)) + One(id in m.order[..Taken(lines, m, now, probe)])
  {
    var taken := m.order[..Taken(lines, m, now, probe)];
    ExpireEffect(lines, m, now, probe);
    SortedSlices(m.recs, m.order, |taken|);
    CountConcat(m.log, Deliveries(m.recs, taken, now), Of(id));
    CountDeliveries(m.recs, taken, now, id);
  }

  lemma ExpireLogKnown(lines: Lines, m: Manager, now: U64, probe: nat)
    requires Settled(m)
    ensures var m' := Expire(lines, m, now, probe);
            forall i :: 0 <= i < |m'.log| ==> m'.log[i].id in m'.recs
  {
    hide Expire, Taken, Sorted;
    MembersKnown(m);
    var taken := m.order[..Taken(lines, m, now, probe)];
    ExpireEffect(lines, m, now, probe);
    var emitted := Deliveries(m.recs, taken, now);
    forall i | 0 <= i < |m.log + emitted| ensures (m.log + emitted)[i].id in m.recs {
      if i >= |m.log| {
        assert (m.log + emitted)[i] == emitted[i - |m.log|];
      }
    }
  }

  /** What a pass means for one timer. */
  lemma ExpireOne(lines: Lines, m: Manager, now: U64, probe: nat, id: nat)
    requires Settled(m) && id in m.recs
    ensures var m' := Expire(lines, m, now, probe);
            && id in m'.recs
            && (id !in m'.order ==> m'.recs[id].cb.None?)
            && m'.recs[id].recurring == m.recs[id].recurring
            && (!m.recs[id].recurring ==> Count(m'.log, Of(id)) + One(id in m'.order) <= 1)
            && (Dead(m, id) ==> Dead(m', id) && Count(m'.log, Of(id)) == Count(m.log, Of(id)))
  {
    hide Expire, Taken, Sorted;
    MembersKnown(m);
    ExpireEffect(lines, m, now, probe);
    ExpireCounts(lines, m, now, probe, id);
    var k := Taken(lines, m, now, probe);
    assert id in m.order[..k] ==> id in m.order;
  }

  lemma SettledExpire(lines: Lines, m: Manager, now: U64, probe: nat)
    requires Settled(m)
    ensures Settled(Expire(lines, m, now, probe)) && StaysDead(m, Expire(lines, m, now, probe))
  {
    hide Expire, Taken, Sorted;
    MembersKnown(m);
    var m' := Expire(lines, m, now, probe);
    ExpireEffect(lines, m, now, probe);
    ExpireLogKnown(lines, m, now, probe);
    forall id | id in m.recs
      ensures id !in m'.order ==> m'.recs[id].cb.None?
      ensures !m'.recs[id].recurring ==> Count(m'.log, Of(id)) + One(id in m'.order) <= 1
      ensures Dead(m, id) ==> Dead(m', id) && Count(m'.log, Of(id)) == Count(m.log, Of(id))
    {
      ExpireOne(lines, m, now, probe, id);
    }
  }

  lemma SettledAdd(m: Manager, id: nat, ms: U64, cb: Option<nat>, recurring: bool, now: U64)
    requires Settled(m)
    ensures Settled(Add(m, id, ms, cb, recurring, now)) && StaysDead(m, Add(m, id, ms, cb, recurring, now))
  {
    if id !in m.recs {
      AddEffect(m, id, ms, cb, recurring, now);
      UnknownUndelivered(m, id);
    }
  }

  lemma SettledCancel(m: Manager, id: nat)
    requires Settled(m)
    ensures Settled(Cancel(m, id).0) && StaysDead(m, Cancel(m, id).0)
  {
    if id in m.recs {
      CancelEffect(m, id);
    }
  }

  lemma SettledReset(m: Manager, id: nat, ms: U64, fromNow: bool, now: U64)
    requires Settled(m)
    ensures Settled(Reset(m, id, ms, fromNow, now)) && StaysDead(m, Reset(m, id, ms, fromNow, now))
  {
    if id in m.recs {
      ResetEffect(m, id, ms, fromNow, now);
    }
  }

  lemma SettledRefresh(lines: Lines, m: Manager, id: nat, now: U64)
    requires Settled(m)
    ensures Settled(Refresh(lines, m, id, now)) && StaysDead(m, Refresh(lines, m, id, now))
  {
    if id in m.recs {
      RefreshEffect(lines, m, id, now);
    }
  }

  lemma SettledStep(lines: Lines, m: Manager, op: Op)
    requires Settled(m)
    ensures Settled(Apply(lines, m, op)) && StaysDead(m, Apply(lines, m, op))
  {
    hide Add, Cancel, Reset, Refresh, Expire, StaysDead;
    match op
    case AddTimer(id, ms, cb, recurring, now) => SettledAdd(m, id, ms, cb, recurring, now);
    case CancelTimer(id) => SettledCancel(m, id);
    case ResetTimer(id, ms, fromNow, now) => SettledReset(m, id, ms, fromNow, now);
    case RefreshTimer(id, now) => SettledRefresh(lines, m, id, now);
    case ExpireTimers(now, probe) => SettledExpire(lines, m, now, probe);
  }

  /** Every state of every run is sorted and settled. */
  lemma {:induction false} RunSettled(lines: Lines, states: seq<Manager>, ops: seq<Op>, i: nat)
    requires IsRun(lines, states, ops) && i < |states|
    ensures Settled(states[i])
  {
    if i > 0 {
      RunSettled(lines, states, ops, i - 1);
      SettledStep(lines, states[i - 1], ops[i - 1]);
      assert states[i - 1 + 1] == Apply(lines, states[i - 1], ops[i - 1]);
    }
  }

  /** In every state of every run the set lists its timers by deadline, those with one deadline by address. */
  lemma RunOrdered(lines: Lines, states: seq<Manager>, ops: seq<Op>, i: nat, a: nat, b: nat)
    requires IsRun(lines, states, ops) && i < |states| && a < b < |states[i].order|
    ensures var m, x, y := states[i], states[i].order[a], states[i].order[b];
            x in m.recs && y in m.recs
            && (m.recs[x].next < m.recs[y].next || (m.recs[x].next == m.recs[y].next && x < y))
  {
    RunSettled(lines, states, ops, i);
  }

  /** A one-shot timer is delivered at most once. */
  lemma OneShotOnce(lines: Lines, states: seq<Manager>, ops: seq<Op>, i: nat, id: nat)
    requires IsRun(lines, states, ops) && i < |states|
    requires id in states[i].recs && !states[i].recs[id].recurring
    ensures Count(states[i].log, Of(id)) <= 1
  {
    RunSettled(lines, states, ops, i);
  }

  /** A dead timer stays dead and nothing more of it is delivered. */
  lemma {:induction false} DeadForever(lines: Lines, states: seq<Manager>, ops: seq<Op>, i: nat, j: nat, id: nat)
    requires IsRun(lines, states, ops) && i <= j < |states| && Dead(states[i], id)
    ensures Dead(states[j], id) && Count(states[j].log, Of(id)) == Count(states[i].log, Of(id))
  {
    if i < j {
      DeadForever(lines, states, ops, i, j - 1, id);
      RunSettled(lines, states, ops, j - 1);
      SettledStep(lines, states[j - 1], ops[j - 1]);
      assert states[j - 1 + 1] == Apply(lines, states[j - 1], ops[j - 1]);
    }
  }

  /** Nothing is delivered after a cancel. */
  lemma NothingAfterCancel(lines: Lines, states: seq<Manager>, ops: seq<Op>, i: nat, j: nat, id: nat)
    requires IsRun(lines, states, ops) && i < j < |states| && ops[i] == CancelTimer(id) && id in states[i].recs
    ensures Count(states[j].log, Of(id)) == Count(states[i].log, Of(id))
  {
    RunSettled(lines, states, ops, i);
    CancelEffect(states[i], id);
    assert states[i + 1] == Apply(lines, states[i], ops[i]);
    DeadForever(lines, states, ops, i + 1, j, id);
  }

  /** The clock of the last pass over a set that was not empty, among the first i steps; before any, the clock the
      manager was made at. */
  function LastClock(states: seq<Manager>, ops: seq<Op>, i: nat): U64
    requires i < |states| == |ops| + 1
  {
    if i == 0 then states[0].previous
    else if ops[i - 1].ExpireTimers? && states[i - 1].order != [] then ops[i - 1].now
    else LastClock(states, ops, i - 1)
  }

  lemma ClockStep(lines: Lines, m: Manager, op: Op)
    requires Settled(m)
    ensures Apply(lines, m, op).previous == if op.ExpireTimers? && m.order != [] then op.now else m.previous
  {
    hide Expire, Taken, Insert, Find;
    if op.ExpireTimers? {
      ExpireEffect(lines, m, op.now, op.probe);
    }
  }

  /** That is the clock the next pass compares its own with. */
  lemma {:induction false} PreviousIsLastClock(lines: Lines, states: seq<Manager>, ops: seq<Op>, i: nat)
    requires IsRun(lines, states, ops) && i < |states|
    ensures states[i].previous == LastClock(states, ops, i)
  {
    hide Settled, Apply;
    if i > 0 {
      PreviousIsLastClock(lines, states, ops, i - 1);
      RunSettled(lines, states, ops, i - 1);
      ClockStep(lines, states[i - 1], ops[i - 1]);
      assert states[i - 1 + 1] == Apply(lines, states[i - 1], ops[i - 1]);
    }
  }

  /** No pass over a set that is not empty reads a clock that has jumped back since the last such pass. */
  ghost predicate NoRollover(states: seq<Manager>, ops: seq<Op>) {
    |states| == |ops| + 1
    && forall i :: 0 <= i < |ops| && ops[i].ExpireTimers? && states[i].order != [] ==>
         !JumpsBack(LastClock(states, ops, i), ops[i].now)
  }

  /** Without a rollover a pass takes only what is due, with the probe as written too. */
  lemma TakenOnTime(lines: Lines, m: Manager, now: U64, probe: nat)
    requires Fits(m) && !JumpsBack(m.previous, now)
    ensures forall i :: 0 <= i < Taken(lines, m, now, probe) ==> m.recs[m.order[i]].next <= now
  {
  }

  lemma LogStep(lines: Lines, m: Manager, op: Op)
    requires Settled(m) && !op.ExpireTimers?
    ensures Apply(lines, m, op).log == m.log
  {
  }

  /** A pass that is no rollover adds only deliveries that are on time. */
  lemma PassOnTime(lines: Lines, m: Manager, now: U64, probe: nat, d: nat)
    requires Fits(m) && (m.order != [] ==> !JumpsBack(m.previous, now))
    requires |m.log| <= d < |Expire(lines, m, now, probe).log|
    ensures OnTime(Expire(lines, m, now, probe).log[d])
  {
    ExpireEffect(lines, m, now, probe);
    TakenOnTime(lines, m, now, probe);
    var k := Taken(lines, m, now, probe);
    var j := d - |m.log|;
    assert Expire(lines, m, now, probe).log[d] == Deliveries(m.recs, m.order[..k], now)[j];
    assert m.order[..k][j] == m.order[j];
  }

  /** While the clock does not jump back, every callback is delivered at or after its deadline, whichever lines are as
      written. */
  lemma {:induction false} NothingEarly(lines: Lines, states: seq<Manager>, ops: seq<Op>, i: nat, d: nat)
    requires IsRun(lines, states, ops) && NoRollover(states, ops) && i < |states| && d < |states[i].log|
    ensures OnTime(states[i].log[d])
  {
    hide Settled, Sorted, Expire;
    if i > 0 {
      var m, op := states[i - 1], ops[i - 1];
      RunSettled(lines, states, ops, i - 1);
      PreviousIsLastClock(lines, states, ops, i - 1);
      assert states[i - 1 + 1] == Apply(lines, m, op);
      SettledFits(m);
      if op.ExpireTimers? {
        ExpireEffect(lines, m, op.now, op.probe);
      } else {
        LogStep(lines, m, op);
      }
      if d < |m.log| {
        NothingEarly(lines, states, ops, i - 1, d);
      } else {
        PassOnTime(lines, m, op.now, op.probe, d);
      }
    }
  }

  lemma SettledFits(m: Manager)
    requires Settled(m)
    ensures Fits(m) && Known(m.recs, m.order)
  {
  }

  // ---------- deadlines as armed ----------

  /** Stored deadlines are the armed ones in 64 bits. */
  ghost predicate Stored(m: Manager) {
    && (forall id :: id in m.recs ==> m.recs[id].next == m.recs[id].due % 0x1_0000_0000_0000_0000)
    && (forall d :: 0 <= d < |m.log| ==> m.log[d].deadline == m.log[d].due % 0x1_0000_0000_0000_0000)
  }

  lemma StoredExpire(lines: Lines, m: Manager, now: U64, probe: nat)
    requires Fits(m) && Stored(m)
    ensures Stored(Expire(lines, m, now, probe))
  {
    hide Expire, Taken;
    ExpireEffect(lines, m, now, probe);
  }

  lemma StoredStep(lines: Lines, m: Manager, op: Op)
    requires Settled(m) && Stored(m)
    ensures Stored(Apply(lines, m, op))
  {
    hide Expire, Insert, Find;
    if !op.ExpireTimers? {
      LogStep(lines, m, op);
    }
    match op
    case ExpireTimers(now, probe) => StoredExpire(lines, m, now, probe);
    case CancelTimer(id) =>
      if id in m.recs {
        CancelEffect(m, id);
      }
    case ResetTimer(id, ms, fromNow, now) =>
      if id in m.recs {
        ResetEffect(m, id, ms, fromNow, now);
      }
    case RefreshTimer(id, now) =>
      if id in m.recs {
        RefreshEffect(lines, m, id, now);
      }
    case AddTimer(_, _, _, _, _) =>
  }

  lemma {:induction false} RunStored(lines: Lines, states: seq<Manager>, ops: seq<Op>, i: nat)
    requires IsRun(lines, states, ops) && i < |states|
    ensures Stored(states[i])
  {
    if i > 0 {
      RunStored(lines, states, ops, i - 1);
      RunSettled(lines, states, ops, i - 1);
      StoredStep(lines, states[i - 1], ops[i - 1]);
      assert states[i - 1 + 1] == Apply(lines, states[i - 1], ops[i - 1]);
    }
  }

  /** While the clock does not jump back, a callback is delivered no earlier than now + ms as it was when its timer was
      last armed, if and only if that time fits into 64 bits. */
  lemma NothingBeforeArmedTimeIffItFits(lines: Lines, states: seq<Manager>, ops: seq<Op>, i: nat, d: nat)
    requires IsRun(lines, states, ops) && NoRollover(states, ops) && i < |states| && d < |states[i].log|
    ensures states[i].log[d].due <= states[i].log[d].at <==> states[i].log[d].due < 0x1_0000_0000_0000_0000
  {
    NothingEarly(lines, states, ops, i, d);
    RunStored(lines, states, ops, i);
  }
}
