/** What holds in every run of the worker machine, for any number of clients. */
module WorkerTheorems {
  import opened Prelude
  import opened AsyncQueue
  import opened WorkerMachine
  import opened WorkerInvariants
  import opened WorkerWakeups
  import opened WorkerShutdown
  import opened WorkerPosting

  ghost predicate Inv(s: State) {
    && Sound(s)
    && NoLostWakeup(s)
    && AllWaitsHold(s)
    && Ending(s)
    && Undisturbed(s.mem)
    && CancelHistory(s.mem, s.worker)
  }

  lemma InitInv(s: State)
    requires Init(s)
    ensures Inv(s)
  {
    InitSound(s);
  }

  lemma KeepsInv(s: State, a: Action)
    requires Inv(s) && Enabled(s, a)
    ensures Inv(Apply(s, a))
  {
    KeepsSound(s, a);
    KeepsNoLostWakeup(s, a);
    KeepsWaits(s, a);
    KeepsEnding(s, a);
    KeepsUndisturbed(s, a);
    KeepsCancelHistory(s, a);
  }

  lemma {:induction false} TraceInv(run: seq<State>, actions: seq<Action>, n: nat)
    requires Trace(run, actions) && Inv(run[0]) && n <= |actions|
    ensures Inv(run[n])
  {
    if n != 0 {
      TraceInv(run, actions, n - 1);
      TraceStepInv(run, actions, n - 1);
    }
  }

  lemma TraceStepInv(run: seq<State>, actions: seq<Action>, n: nat)
    requires Trace(run, actions) && n < |actions| && Inv(run[n])
    ensures Inv(run[n + 1])
  {
    assert Enabled(run[n], actions[n]);
    KeepsInv(run[n], actions[n]);
  }

  lemma ReachableInv(s: State)
    requires Reachable(s)
    ensures Inv(s)
  {
    var run, actions :| Trace(run, actions) && Init(run[0]) && run[|actions|] == s;
    InitInv(run[0]);
    TraceInv(run, actions, |actions|);
  }

  lemma ReachNext(s: State, a: Action)
    requires Reachable(s) && Enabled(s, a)
    ensures Reachable(Apply(s, a))
  {
    var run, actions :| Trace(run, actions) && Init(run[0]) && run[|actions|] == s;
    assert Trace(run + [Apply(s, a)], actions + [a]);
  }

  // ---- tasks ----

  lemma ReachableAccounting(s: State)
    requires Reachable(s)
    ensures Accounting(s.mem, s.worker)
  {
    ReachableInv(s);
  }

  /**
   The accepted tasks without the dropped ones are the started ones followed by the queued ones, in order; so no
   task starts twice, and none is both started and dropped, started and queued, or queued and dropped.
   */
  lemma TasksConserved(s: State)
    requires Reachable(s)
    ensures s.mem.started + s.mem.queue == Remaining(|s.mem.accepted|, s.mem.dropped)
    ensures forall i, j :: 0 <= i < j < |s.mem.started| ==> s.mem.started[i] < s.mem.started[j]
    ensures forall i, j :: 0 <= i < |s.mem.started| && 0 <= j < |s.mem.queue| ==> s.mem.started[i] < s.mem.queue[j]
    ensures forall id <- s.mem.dropped :: id !in s.mem.started && id !in s.mem.queue
  {
    ReachableAccounting(s);
    RemainingElements(|s.mem.accepted|, s.mem.dropped);
    RemainingSplit(s.mem.started, s.mem.queue, Remaining(|s.mem.accepted|, s.mem.dropped), s.mem.dropped);
  }

  lemma RemainingSplit(front: seq<nat>, back: seq<nat>, all: seq<nat>, gone: set<nat>)
    requires all == front + back && (forall id <- gone :: id !in all)
    requires forall i, j :: 0 <= i < j < |all| ==> all[i] < all[j]
    ensures forall i, j :: 0 <= i < j < |front| ==> front[i] < front[j]
    ensures forall i, j :: 0 <= i < |front| && 0 <= j < |back| ==> front[i] < back[j]
    ensures forall id <- gone :: id !in front && id !in back
  {
    assert forall i :: 0 <= i < |front| ==> all[i] == front[i];
    assert forall j {:trigger back[j]} :: 0 <= j < |back| ==> all[|front| + j] == back[j];
  }

  /** `m_executing` is true from the mark in `pop` to the completion section, and forever after an empty task. */
  lemma ExecutingExactly(s: State)
    requires Reachable(s)
    ensures s.mem.executing <==> s.worker.Front? || InFlight(s.worker)
    ensures s.mem.executing ==> |s.mem.started| <= s.mem.finished + 1
    ensures !s.mem.executing ==> |s.mem.started| == s.mem.finished
    ensures s.worker.Exited? ==> (s.mem.executing <==> LastIs(s.mem, EmptyJob))
  {
    ReachableInv(s);
  }

  // ---- locks and wakeups ----

  /** No deadlock over the two mutexes: while one is taken, some holder can take its next step. */
  lemma SomeHolderCanMove(s: State)
    requires Reachable(s) && (s.mem.mutex.Some? || s.mem.queueMutex.Some?)
    ensures exists t <- s.threads ::
              && (s.mem.mutex == Some(t) || s.mem.queueMutex == Some(t))
              && (ThreadEnabled(s, t) || (t == WORKER && WorkerEnabled(s)))
  {
    ReachableInv(s);
    var t := if s.mem.queueMutex.Some? then s.mem.queueMutex.value else s.mem.mutex.value;
    assert LocksAt(s, t);
    if HoldsQueue(s.threads[t]) || HoldsMutex(s.threads[t]) {
      HolderMoves(s.mem, s.threads[t]);
    } else {
      WorkerHolderMoves(s.mem, s.worker);
    }
  }

  lemma HolderMoves(m: Memory, pc: Pc)
    requires HoldsQueue(pc) || (HoldsMutex(pc) && m.queueMutex == None)
    ensures pc != Idle && !pc.Join? && CanDo(m, ThreadOp(pc))
  {
  }

  lemma WorkerHolderMoves(m: Memory, w: WorkerPc)
    requires Accounting(m, w) && (WorkerHoldsQueue(w) || WorkerHoldsMutex(w))
    ensures !w.Exited? && !w.InTask? && CanDo(m, WorkerOp(w))
  {
  }

  /**
   No lost wakeup: if the worker sleeps in `pop` without a notification although its wake condition holds, some
   thread is inside `push`, `block` or `emit_shutdown` between its store and its notification.
   */
  lemma WorkerIsWoken(s: State)
    requires Reachable(s) && s.worker == PopAsleep(false)
    requires WakeCondition(s.mem.shutdown, s.mem.blocked, s.mem.queue)
    ensures exists t <- s.threads :: Pending(s.threads[t])
  {
    ReachableInv(s);
  }

  /** The wait inside `cancel` ends only at a moment when no task is in flight. */
  lemma CancelWaitsForTask(s: State, t: Tid)
    requires Reachable(s) && ThreadEnabled(s, t) && s.threads[t] == WaitExecuting(Running)
    ensures ThreadStep(s, t).threads[t].WaitUnlock? <==> !s.worker.Front? && !InFlight(s.worker)
    ensures ThreadStep(s, t).threads[t].WaitUnlock? ==> |s.mem.started| == s.mem.finished
  {
    ReachableInv(s);
  }

  /** Where the tests of the wait in `pop` lead, one after the other, if nothing changes meanwhile. */
  function Tested(m: Memory): WorkerPc {
    var first := WorkerNext(m, PredStopped);
    if !first.PredBlocked? then first else
      var second := WorkerNext(m, first);
      if !second.PredEmpty? then second else WorkerNext(m, second)
  }

  /** Those tests are the wake condition: the worker goes on to take a task, or to stop, exactly if that holds. */
  lemma TestsAreWakeCondition(m: Memory)
    ensures Tested(m) == if WakeCondition(m.shutdown, m.blocked, m.queue) then CheckStopped else EnterWait
  {
  }

  /** A thread inside a call can take a step, unless it waits for a mutex of another thread or for the loop to end. */
  lemma ThreadsCanMove(s: State, t: Tid)
    requires Reachable(s) && t in s.threads && s.threads[t] != Idle && !ThreadEnabled(s, t)
    ensures || (s.threads[t] == Join && !s.worker.Exited?)
            || (s.mem.mutex.Some? && s.mem.mutex != Some(t))
            || (s.mem.queueMutex.Some? && s.mem.queueMutex != Some(t))
  {
    ReachableInv(s);
    assert LocksAt(s, t);
    LocksOnce(s.mem, s.threads[t]);
    LocksOnceInLoop(s.worker);
  }

  lemma LocksOnce(m: Memory, pc: Pc)
    ensures ThreadOp(pc) == LockQueue ==> !HoldsQueue(pc)
    ensures ThreadOp(pc) == LockMutex ==> !HoldsMutex(pc)
    ensures ThreadOp(pc) != LockQueue && ThreadOp(pc) != LockMutex ==> CanDo(m, ThreadOp(pc))
  {
  }

  /** So can the loop, unless its task is in a call, or it has ended, or it waits for a mutex of another thread. */
  lemma LoopCanMove(s: State)
    requires Reachable(s) && WORKER in s.threads && s.threads[WORKER] == Idle
    requires !s.worker.Exited? && !WorkerEnabled(s)
    ensures (s.mem.mutex.Some? && s.mem.mutex != Some(WORKER)) ||
            (s.mem.queueMutex.Some? && s.mem.queueMutex != Some(WORKER))
  {
    ReachableInv(s);
    assert LocksAt(s, WORKER);
    LocksOnceInLoop(s.worker);
  }

  lemma LocksOnceInLoop(w: WorkerPc)
    ensures WorkerOp(w) == LockQueue ==> !WorkerHoldsQueue(w)
    ensures WorkerOp(w) == LockMutex ==> !WorkerHoldsMutex(w)
    ensures w.InTask? ==> !WorkerHoldsQueue(w) && !WorkerHoldsMutex(w)
  {
  }

  // ---- wait_completion ----

  predicate Unfinished(m: Memory, id: nat)
    requires m.finished <= |m.started|
  {
    id !in m.dropped && id !in m.started[..m.finished]
  }

  /**
   When `wait_completion` returns, every task accepted before its last look at the queue has left the queue, none
   has completed since its first look, and all of them have completed unless one was taken between the two looks.
   That one is then certainly in flight, and the last that was started.
   */
  lemma CompletionWaited(s: State, t: Tid)
    requires Reachable(s) && t in s.threads
    requires s.threads[t].WaitUnlock? && s.threads[t].report.kind == Completion
    ensures var m, r := s.mem, s.threads[t].report;
            && m.finished == r.startedIdle <= r.startedEmpty <= |m.started| && r.accepted <= |m.accepted|
            && (forall id: nat :: id < r.accepted ==> id !in m.queue)
            && ((exists id: nat :: id < r.accepted && Unfinished(m, id)) <==> r.startedIdle < r.startedEmpty)
            && (r.startedIdle < r.startedEmpty ==>
                  && InFlight(s.worker) && |m.started| == r.startedEmpty == r.startedIdle + 1
                  && forall id: nat :: id < r.accepted && Unfinished(m, id) <==> id == m.started[r.startedIdle])
  {
    ReachableWait(s, t);
    TasksConserved(s);
    var m, r := s.mem, s.threads[t].report;
    forall id: nat
      ensures id < r.accepted ==> id !in m.queue
      ensures id < r.accepted && Unfinished(m, id) <==> r.startedIdle < r.startedEmpty && id == m.started[r.startedIdle]
    {
      ReportTells(m, r, id);
    }
    if r.startedIdle < r.startedEmpty {
      assert Unfinished(m, m.started[r.startedIdle]);
    }
  }

  lemma ReachableWait(s: State, t: Tid)
    requires Reachable(s) && t in s.threads && s.threads[t].WaitUnlock?
    ensures ReportHolds(s.mem, s.threads[t].report)
    ensures |s.mem.started| == s.mem.finished + if InFlight(s.worker) then 1 else 0
  {
    ReachableInv(s);
    assert WaitHolds(s.mem, s.worker, s.threads[t]);
  }

  lemma ReportTells(m: Memory, r: Report, id: nat)
    requires ReportHolds(m, r) && r.kind == Completion
    requires forall i, j :: 0 <= i < j < |m.started| ==> m.started[i] < m.started[j]
    requires forall i, j :: 0 <= i < |m.started| && 0 <= j < |m.queue| ==> m.started[i] < m.queue[j]
    requires forall id <- m.dropped :: id !in m.started && id !in m.queue
    ensures id < r.accepted ==> id !in m.queue
    ensures id < r.accepted && Unfinished(m, id) <==> r.startedIdle < r.startedEmpty && id == m.started[r.startedIdle]
  {
    if id < r.accepted && id !in m.dropped {
      var i :| 0 <= i < r.startedEmpty && m.started[..r.startedEmpty][i] == id;
      assert m.started[i] == id;
      assert i < m.finished ==> m.started[..m.finished][i] == id;
    }
    if r.startedIdle < r.startedEmpty && id == m.started[r.startedIdle] {
      assert id in m.started;
      assert id !in m.started[..m.finished];
    }
  }

  // ---- shutdown ----

  /**
   Graceful drain: when the worker has ended and nobody called `emit_shutdown` but the closures of
   `planned_shutdown`, the task it started last is the first started one that is such a closure, or empty.
   If no clear took effect before the end, the started tasks are exactly the accepted ones up to it.
   */
  lemma GracefulDrain(s: State)
    requires Reachable(s) && s.worker.Exited? && !s.mem.foreignShutdown
    ensures s.mem.started != []
    ensures var n := |s.mem.started|;
            && (forall i :: 0 <= i < n - 1 ==> Is(s.mem, s.mem.started[i], Body))
            && (Is(s.mem, s.mem.started[n - 1], ShutdownJob) || Is(s.mem, s.mem.started[n - 1], EmptyJob))
            && (!s.mem.droppedLive ==> s.mem.started == Upto(n))
  {
    ReachableInv(s);
  }

  /** The number of steps of the worker's loop among `actions`. */
  function LoopSteps(actions: seq<Action>): nat {
    if actions == [] then 0
    else LoopSteps(actions[..|actions| - 1]) + if actions[|actions| - 1].Loop? then 1 else 0
  }

  lemma LoopStepsNext(actions: seq<Action>, n: nat)
    requires n < |actions|
    ensures LoopSteps(actions[..n + 1]) == LoopSteps(actions[..n]) + if actions[n].Loop? then 1 else 0
  {
    assert actions[..n + 1][..n] == actions[..n];
  }

  lemma {:induction false} TraceAfterShutdown(run: seq<State>, actions: seq<Action>, n: nat)
    requires Trace(run, actions) && run[0].mem.shutdown && n <= |actions|
    ensures run[n].mem.shutdown
    ensures Starts(run[n]) <= Starts(run[0])
    ensures Rank(run[n].worker) + LoopSteps(actions[..n]) <= Rank(run[0].worker)
  {
    if n != 0 {
      TraceAfterShutdown(run, actions, n - 1);
      assert Enabled(run[n - 1], actions[n - 1]);
      StepAfterShutdown(run[n - 1], actions[n - 1]);
      LoopStepsNext(actions, n - 1);
    }
  }

  lemma RankBounds(w: WorkerPc)
    ensures Rank(w) <= 11 && (Rank(w) == 0 ==> w.Exited?)
  {
  }

  /**
   Once `m_shutdown` is true at most one more task starts, and none if a running task stored it; the worker's
   loop takes at most eleven more steps, and it has ended after that many as given by its position.
   */
  lemma ShutdownIsPrompt(run: seq<State>, actions: seq<Action>)
    requires Trace(run, actions) && run[0].mem.shutdown
    ensures |run[|actions|].mem.started| <= |run[0].mem.started| + 1
    ensures run[0].worker.InTask? ==> |run[|actions|].mem.started| <= |run[0].mem.started|
    ensures LoopSteps(actions) <= Rank(run[0].worker) <= 11
    ensures LoopSteps(actions) == Rank(run[0].worker) ==> run[|actions|].worker.Exited?
  {
    TraceAfterShutdown(run, actions, |actions|);
    assert actions[..|actions|] == actions;
    RankBounds(run[0].worker);
    RankBounds(run[|actions|].worker);
  }

  // ---- policy and cancellation ----

  lemma TraceStepRefused(run: seq<State>, actions: seq<Action>, n: nat)
    requires Trace(run, actions) && Inv(run[0]) && n < |actions| && !run[n].mem.policy.Admits()
    ensures Posts(run[n + 1]) <= Posts(run[n])
  {
    TraceInv(run, actions, n);
    assert Enabled(run[n], actions[n]);
    StepRefused(run[n], actions[n]);
  }

  lemma {:induction false} TraceRefused(run: seq<State>, actions: seq<Action>, n: nat)
    requires Trace(run, actions) && Inv(run[0]) && n <= |actions|
    requires forall i :: 0 <= i < n ==> !run[i].mem.policy.Admits()
    ensures Posts(run[n]) <= Posts(run[0])
  {
    if n != 0 {
      TraceRefused(run, actions, n - 1);
      TraceStepRefused(run, actions, n - 1);
    }
  }

  /**
   While the policy stays IGNORE, LOGIGNORE or THROW, at most one more task enters through `post`, and none
   unless a caller had already passed the switch.
   */
  lemma PolicyRefuses(run: seq<State>, actions: seq<Action>)
    requires Trace(run, actions) && Reachable(run[0])
    requires forall i :: 0 <= i < |actions| ==> !run[i].mem.policy.Admits()
    ensures run[|actions|].mem.posted <= run[0].mem.posted + 1
    ensures !SomePastSwitch(run[0]) ==> run[|actions|].mem.posted <= run[0].mem.posted
  {
    ReachableInv(run[0]);
    TraceRefused(run, actions, |actions|);
  }

  /** A cancellation never leaks into a later task: who sees it was canceled after its own reset, the last one. */
  lemma CancellationDoesNotLeak(s: State, j: nat)
    requires Reachable(s) && j < |s.mem.log| && s.mem.log[j].SawCanceled?
    ensures exists i, k ::
              && 0 <= i < k < j
              && s.mem.log[i] == Reset(s.mem.log[j].task) && s.mem.log[k].Canceled?
              && (forall l :: i < l < j ==> !s.mem.log[l].Reset?)
  {
    ReachableInv(s);
    var i: nat, k: nat :| CanceledSince(s.mem.log[..j], s.mem.log[j].task, i, k);
    assert forall l :: i < l < j ==> s.mem.log[..j][l] == s.mem.log[l];
  }
}
