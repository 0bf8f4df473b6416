/** The scheduler object: the queue, counters and flags that Scheduler::run updates in place, each locked region
    or shared write as one method, proved against the step functions of SchedulerModel. */
module SchedulerObject {
  import opened Fibers
  import opened SchedulerModel

  class Scheduler {
    const lines: Lines
    var queue: seq<Entry>
    var pool: map<nat, Fiber>      // every fiber, by the id that stands for its address
    var workers: seq<Worker>       // the locals of each run() loop
    var active: int
    var idle: int
    var autoStop: bool
    var stopping: bool
    var issued: nat
    var parked: seq<nat>
    var finished: seq<nat>
    var dropped: seq<nat>

    ghost predicate Valid()
      reads this`pool, pool.Values
    {
      forall id :: id in pool ==> pool[id].id == id
    }

    ghost function Fibers(): map<nat, FiberRec>
      reads this`pool, pool.Values
    {
      map id | id in pool :: pool[id].Rec()
    }

    ghost function View(): Sched
      reads this, pool.Values
    {
      Sched(queue, Fibers(), workers, active, idle, autoStop, stopping, issued, parked, finished, dropped)
    }

    constructor (lines: Lines, n: nat)
      ensures Valid() && View() == Init(n) && this.lines == lines && pool == map[]
    {
      this.lines := lines;
      queue, pool, active, idle, autoStop, stopping := [], map[], 0, 0, false, false;
      workers := seq(n, _ => Worker(AtScan, MainFiber, false, INIT));
      issued, parked, finished, dropped := 0, [], [], [];
    }

    /** schedulerNoLock: true when the queue was empty, which is when the caller tickles. */
    method Schedule(task: Task, thread: int) returns (needTickle: bool)
      requires Valid() && CanUse(View(), task)
      modifies this`queue, this`issued
      ensures Valid() && View() == Push(old(View()), task, thread)
      ensures needTickle == (old(queue) == [])
    {
      needTickle := queue == [];
      queue := queue + [Entry(task, thread, issued)];
      issued := issued + 1;
    }

    /** The range form of scheduler(): everything goes to the back, in order, under one lock. */
    method ScheduleRange(tasks: seq<Task>) returns (needTickle: bool)
      requires Valid() && forall i :: 0 <= i < |tasks| ==> CanUse(View(), tasks[i])
      modifies this`queue, this`issued
      ensures Valid()
      ensures queue == old(queue) + seq(|tasks|, i requires 0 <= i < |tasks| =>
                                          Entry(tasks[i], ANY_THREAD, old(issued) + i))
      ensures View() == old(View()).(queue := queue, issued := old(issued) + |tasks|)
      ensures needTickle == (old(queue) == [] && tasks != [])
    {
      needTickle := false;
      var i := 0;
      while i < |tasks|
        invariant 0 <= i <= |tasks| && Valid() && issued == old(issued) + i
        invariant View() == old(View()).(queue := queue, issued := issued)
        invariant |queue| == |old(queue)| + i && queue[..|old(queue)|] == old(queue)
        invariant forall k :: 0 <= k < i ==> queue[|old(queue)| + k] == Entry(tasks[k], ANY_THREAD, old(issued) + k)
        invariant needTickle == (old(queue) == [] && i > 0)
      {
        var first := Schedule(tasks[i], ANY_THREAD);
        needTickle := first || needTickle;
        i := i + 1;
      }
    }

    /** Lines 107-129: the locked scan. */
    method ScanQueue(w: nat) returns (picked: bool)
      requires Valid() && Enabled(View(), Scan(w))
      modifies this`queue, this`active, this`workers
      ensures Valid() && View() == ScanNext(lines, old(View()), w)
      ensures picked == workers[w].pc.Picked?
    {
      ghost var fibers := Fibers();
      var wk := workers[w];
      if lines.flagPerPass {
        wk := wk.(isActivate := false);
      }
      var it := 0;
      picked := false;
      while it < |queue| && !picked
        invariant 0 <= it <= |queue| && !picked
        invariant queue == old(queue) && active == old(active) && workers == old(workers)
        invariant forall i :: 0 <= i < it ==> !Eligible(queue[i], fibers, w)
        decreases |queue| - it
      {
        var e := queue[it];
        if e.thread != ANY_THREAD && e.thread != w {
          it := it + 1;
        } else if e.task.FiberTask? && e.task.id in pool && pool[e.task.id].state == EXEC {
          it := it + 1;
        } else {
          ScanFound(queue, fibers, w, it);
          picked := true;
          active := active + 1;
          queue := queue[..it] + queue[it + 1..];
          workers := workers[w := wk.(pc := Picked(e), isActivate := true)];
          return;
        }
      }
      workers := workers[w := wk.(pc := NothingPicked)];
    }

    method SwapInFiber(id: nat)
      requires Valid() && id in pool
      modifies pool[id]
      ensures Valid() && View() == old(View()).(fibers := old(Fibers())[id := old(Fibers())[id].(state := EXEC)])
    {
      pool[id].SwapIn();
    }

    method NewRunningFiber(id: nat, cb: nat)
      requires Valid() && id !in pool
      modifies this`pool
      ensures Valid() && View() == old(View()).(fibers := old(Fibers())[id := Created(cb).(state := EXEC)])
      ensures fresh(pool.Values - old(pool.Values))
    {
      var f := new Fiber(id, cb);
      f.SwapIn();
      pool := pool[id := f];
    }

    /** Lines 133-134, or 154-157 when the fiber has already ended. */
    method StartFiber(w: nat, id: nat)
      requires Valid() && StartEnabled(View(), w, 0) && workers[w].pc.e.task == FiberTask(id)
      modifies this`workers, this`active, this`dropped, pool.Values
      ensures Valid() && View() == StartNext(old(View()), w, 0)
    {
      var wk := workers[w];
      if pool[id].state != TERM && pool[id].state != EXCET {
        workers := workers[w := wk.(pc := Running(wk.pc.e), current := PoolFiber(id))];
        SwapInFiber(id);
      } else {
        active := active - 1;
        dropped := dropped + [wk.pc.e.ticket];
        workers := workers[w := wk.(pc := AtScan)];
      }
    }

    /** Lines 141-145: a callback gets a fiber of its own. */
    method StartCallback(w: nat, newId: nat)
      requires Valid() && StartEnabled(View(), w, newId) && workers[w].pc.e.task.CbTask?
      modifies this`workers, this`pool
      ensures Valid() && View() == StartNext(old(View()), w, newId) && fresh(pool.Values - old(pool.Values))
    {
      var wk := workers[w];
      var e := wk.pc.e;
      workers := workers[w := wk.(pc := Running(e.(task := FiberTask(newId))), current := PoolFiber(newId),
                                  isActivate := false)];
      NewRunningFiber(newId, e.task.cb);
    }

    /** The fiber's own steps and the worker's first steps after the swap back. */
    method SliceStep(w: nat, a: SliceStep)
      requires Valid() && SliceEnabled(View(), w, a)
      modifies this`active, this`workers, pool.Values
      ensures Valid() && View() == SliceNext(old(View()), w, a)
    {
      var wk := workers[w];
      var e := wk.pc.e;
      match a
      case YieldReady =>
        pool[e.task.id].YieldToReady();
        workers := workers[w := wk.(pc := Leaving(e))];
      case YieldHold =>
        workers := workers[w := wk.(pc := Leaving(e))];
      case Finish(threw) =>
        pool[e.task.id].MainFuncEnd(threw);
        workers := workers[w := wk.(pc := Leaving(e))];
      case SwapOut =>
        workers := workers[w := wk.(pc := Back(e), current := MainFiber)];
      case Decrement =>
        active := active - 1;
        workers := workers[w := wk.(pc := Settling(e))];
    }

    /** Lines 136-140 and 148-153. */
    method SettleEntry(w: nat)
      requires Valid() && Enabled(View(), Settle(w))
      modifies this`queue, this`workers, this`parked, this`finished, pool.Values
      ensures Valid() && View() == SettleNext(old(View()), w)
    {
      var wk := workers[w];
      var e := wk.pc.e;
      var f := pool[e.task.id];
      workers := workers[w := wk.(pc := AtScan)];
      if f.state == READY {
        queue := queue + [e];
      } else if f.state != TERM && f.state != EXCET {
        f.Park();
        parked := parked + [e.ticket];
      } else {
        finished := finished + [e.ticket];
      }
    }

    /** Lines 155-163. */
    method FinishEmptyPass(w: nat)
      requires Valid() && Enabled(View(), EmptyPass(w))
      modifies this`active, this`idle, this`workers
      ensures Valid() && View() == EmptyPassNext(old(View()), w)
    {
      var wk := workers[w];
      if wk.isActivate {
        active := active - 1;
        workers := workers[w := wk.(pc := AtScan)];
      } else if wk.idle == TERM {
        workers := workers[w := wk.(pc := Exited)];
      } else {
        idle := idle + 1;
        workers := workers[w := wk.(pc := IdleChecking, current := IdleFiber, idle := EXEC)];
      }
    }

    /** One step of the idle fiber, which ends when stopping() and its override agree. */
    method StepIdle(w: nat, i: IdleStep)
      requires Valid() && Enabled(View(), Idle(w, i))
      modifies this`idle, this`workers
      ensures Valid() && View() == IdleNext(old(View()), w, i)
    {
      var wk := workers[w];
      match i
      case Check(quiet) =>
        if autoStop && stopping && queue == [] && active == 0 && quiet {
          workers := workers[w := wk.(pc := IdleLeaving, current := MainFiber, idle := TERM)];
        } else {
          workers := workers[w := wk.(pc := IdleDispatching)];
        }
      case IdleYield =>
        workers := workers[w := wk.(pc := IdleLeaving, current := MainFiber)];
      case Leave =>
        idle := idle - 1;
        workers := workers[w := wk.(pc := AtScan)];
    }
  }

  /** The scan stops at the first eligible entry. */
  lemma {:induction false} ScanFound(q: seq<Entry>, fibers: map<nat, FiberRec>, w: nat, k: nat)
    requires k <= |q| && (forall i :: 0 <= i < k ==> !Eligible(q[i], fibers, w))
    requires k < |q| ==> Eligible(q[k], fibers, w)
    ensures FirstEligible(q, fibers, w) == k
  {
  }
}
