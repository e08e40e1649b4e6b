/**
 The blocking FIFO of `languages/cxx/taskmgr/async_queue.cpp`.

 The value-level effects of its critical sections are the functions `Pushed`, `Popped` and `WakeCondition`.
 They are used twice: the class below gives the queue's sequential contract in terms of them, and the
 step machine of `WorkerMachine.dfy` executes them between a lock acquisition and its release.
 */
module AsyncQueue {

  /** The predicate handed to the condition variable by `pop`. */
  predicate WakeCondition<T(==)>(stopped: bool, blocked: bool, queue: seq<T>) {
    stopped || !(blocked || queue == [])
  }

  /** The queue after `push`; with `clearothers` the older values are swapped away first. */
  function Pushed<T>(queue: seq<T>, value: T, clearothers: bool): seq<T> {
    if clearothers then [value] else queue + [value]
  }

  /** The queue after its front has been moved out. */
  function Popped<T>(queue: seq<T>): seq<T>
    requires queue != []
  {
    queue[1..]
  }

  /** A `std::atomic_bool` passed by reference. */
  class Flag {
    var value: bool

    constructor (value: bool)
      ensures this.value == value
    {
      this.value := value;
    }
  }

  class Queue<T(==)> {
    var queue: seq<T>
    var blocked: bool
    const end: T  // the default value, which callers use as "no more work"

    constructor (args: seq<T>, end: T)
      ensures queue == args && !blocked && this.end == end
    {
      queue := args;
      blocked := false;
      this.end := end;
    }

    method Push(value: T, clearothers: bool := false)
      modifies this
      ensures queue == Pushed(old(queue), value, clearothers) && blocked == old(blocked)
    {
      if clearothers {
        queue := [];
      }
      queue := queue + [value];
    }

    method ClearPush(value: T)
      modifies this
      ensures queue == [value] && blocked == old(blocked)
    {
      Push(value, true);
    }

    method Block(blocked: bool)
      modifies this
      ensures this.blocked == blocked && queue == old(queue)
    {
      this.blocked := blocked;
    }

    /**
     The part of `pop` after its wait has returned, which is why the wake condition is required.
     A stopped queue hands out `end`, keeps its values and leaves the caller's mark alone.
     */
    method Pop(stopped: Flag, extracted: Flag) returns (value: T)
      requires WakeCondition(stopped.value, blocked, queue)
      modifies this, extracted
      ensures blocked == old(blocked) && (stopped != extracted ==> stopped.value == old(stopped.value))
      ensures old(stopped.value) ==>
                value == end && queue == old(queue) && extracted.value == old(extracted.value)
      ensures !old(stopped.value) ==>
                && old(queue) == [value] + queue
                && queue == Popped(old(queue))
                && extracted.value
    {
      if stopped.value {
        return end;
      }
      extracted.value := true;
      value := queue[0];
      queue := queue[1..];
    }

    method Clear()
      modifies this
      ensures queue == [] && blocked == old(blocked)
    {
      queue := [];
    }

    method Empty() returns (empty: bool)
      ensures empty <==> queue == []
    {
      return queue == [];
    }
  }
}
