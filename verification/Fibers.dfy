/** One fiber as the scheduler sees it: a state and the callable it runs (sylar/fiber.h, sylar/fiber.cpp). */
module Fibers {
  import opened Options

  datatype State = INIT | READY | HOLD | EXEC | TERM | EXCET

  /** A fiber's callable ended, normally or by an exception. */
  predicate Ended(st: State) {
    st == TERM || st == EXCET
  }

  datatype FiberRec = FiberRec(state: State, cb: Option<nat>)

  function Created(cb: nat): FiberRec {
    FiberRec(INIT, Some(cb))
  }

  /** The record after MainFunc returns: a normal end drops the callable, an exception keeps it. */
  function Finished(f: FiberRec, threw: bool): FiberRec {
    if threw then f.(state := EXCET) else FiberRec(TERM, None)
  }

  class Fiber {
    const id: nat
    var state: State
    var cb: Option<nat>

    constructor (id: nat, cb: nat)
      ensures this.id == id && Rec() == Created(cb)
    {
      this.id := id;
      this.cb := Some(cb);
      state := INIT;
    }

    function Rec(): FiberRec
      reads this
    {
      FiberRec(state, cb)
    }

    method SwapIn()
      modifies this`state
      ensures Rec() == old(Rec()).(state := EXEC)
    {
      state := EXEC;
    }

    /** The part of YieldToReady before the context switch; the assertion there is the precondition. */
    method YieldToReady()
      requires state == EXEC
      modifies this`state
      ensures Rec() == old(Rec()).(state := READY)
    {
      state := READY;
    }

    /** Written by the worker once it is back on its own stack. */
    method Park()
      modifies this`state
      ensures Rec() == old(Rec()).(state := HOLD)
    {
      state := HOLD;
    }

    method MainFuncEnd(threw: bool)
      modifies this
      ensures Rec() == Finished(old(Rec()), threw)
    {
      if threw {
        state := EXCET;
      } else {
        state := TERM;
        cb := None;
      }
    }

    method Reset(newCb: Option<nat>)
      requires state == INIT || state == TERM
      modifies this
      ensures Rec() == FiberRec(INIT, newCb)
    {
      cb := newCb;
      state := INIT;
    }
  }
}
