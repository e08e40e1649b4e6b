/** Calls of the worker's interface come to an end, or to sleep, within a few steps of their own. */
module WorkerProgress {
  import opened WorkerMachine
  import opened WorkerCalls

  /** How many steps of its own a thread at `pc` makes at most before it has returned or is asleep. */
  function ToRest(pc: Pc): nat {
    match pc
    case Idle => 0
    case Asleep(_, _) => 0
    case PostLock(_, _) => 11
    case PostSwitch(_, _) => 10
    case PostCancel(_) => 9
    case PostUnlock => 1
    case PushLock(_, _, posting) => if posting then 5 else 4
    case PushStore(_, _, posting) => if posting then 4 else 3
    case PushNotify(posting) => if posting then 3 else 2
    case PushUnlock(posting) => if posting then 2 else 1
    case ClearLock(next) => if next.Some? then 8 else 3
    case ClearSwap(next) => if next.Some? then 7 else 2
    case ClearUnlock(next) => if next.Some? then 6 else 1
    case BlockStore(_) => 4
    case BlockLock(policy) => if policy.Some? then 5 else 3
    case BlockNotify(policy) => if policy.Some? then 4 else 2
    case BlockUnlock(policy) => if policy.Some? then 3 else 1
    case ShutdownStore(_) => 7
    case ShutdownBlock(_) => 6
    case PolicyStore(_, thenCancel) => if thenCancel then 2 else 1
    case CancelStore => 1
    case WaitLock(_) => 6
    case WaitRelock(_) => 6
    case WaitExecuting(_) => 5
    case WaitEmptyLock(_) => 4
    case WaitEmpty(_) => 3
    case WaitEmptyUnlock(_) => 2
    case WaitSleep(_) => 1
    case WaitUnlock(_) => 1
    case Join => 4
  }

  lemma Descends(m: Memory, pc: Pc)
    requires pc != Idle && !pc.Asleep?
    ensures ToRest(NextPc(m, pc)) < ToRest(pc) <= 11
  {
  }

  /** Clients make any call at any time, and a running task any call but a wait. */
  lemma CallsAreOpen(s: State, t: Tid, call: Call)
    requires t in s.threads && s.threads[t] == Idle
    requires t == WORKER ==> s.worker.InTask? && Is(s.mem, s.worker.task, Body)
    ensures Enabled(s, Invoke(t, call)) <==>
              t != WORKER || (call != WaitRunningTask && call != WaitCompletion && call != WaitShutdown)
  {
  }

  /** A sleeper may wake at any time, notified or not, and then goes for the mutex. */
  lemma SleepersMayWake(s: State, t: Tid)
    requires t in s.threads && s.threads[t].Asleep?
    ensures ThreadEnabled(s, t) && ThreadStep(s, t).threads[t] == WaitRelock(s.threads[t].kind)
    ensures ThreadStep(s, t).mem == s.mem
  {
  }

  function OwnSteps(actions: seq<Action>, t: Tid): nat {
    if actions == [] then 0
    else OwnSteps(actions[..|actions| - 1], t) + if actions[|actions| - 1] == Inside(t) then 1 else 0
  }

  predicate Awake(s: State, t: Tid) {
    Busy(s, t) && !s.threads[t].Asleep?
  }

  lemma StepDescends(s: State, a: Action, t: Tid)
    requires Enabled(s, a) && Awake(s, t)
    ensures t in Apply(s, a).threads
    ensures ToRest(Apply(s, a).threads[t]) + (if a == Inside(t) then 1 else 0) <= ToRest(s.threads[t])
  {
    if a == Inside(t) {
      Descends(s.mem, s.threads[t]);
    } else {
      OthersMoveNobody(s, a, t);
    }
  }

  ghost predicate AwakeUntil(run: seq<State>, n: nat, t: Tid)
    requires n < |run|
  {
    (forall k {:trigger run[k]} :: 0 <= k < n ==> Awake(run[k], t)) && t in run[n].threads
  }

  lemma {:induction false} TraceDescends(run: seq<State>, actions: seq<Action>, n: nat, t: Tid)
    requires Trace(run, actions) && n <= |actions| && t in run[0].threads && AwakeUntil(run, n, t)
    ensures ToRest(run[n].threads[t]) + OwnSteps(actions[..n], t) <= ToRest(run[0].threads[t])
  {
    if n != 0 {
      assert AwakeUntil(run, n - 1, t);
      TraceDescends(run, actions, n - 1, t);
      assert Enabled(run[n - 1], actions[n - 1]);
      StepDescends(run[n - 1], actions[n - 1], t);
      assert actions[..n][..n - 1] == actions[..n - 1];
    }
  }

  /**
   Whatever the others do, a thread inside a call makes at most eleven steps of its own, as given by its position,
   before it returns or sleeps; after that many it has returned or sleeps.
   */
  lemma CallsAreShort(run: seq<State>, actions: seq<Action>, t: Tid)
    requires Trace(run, actions) && t in run[0].threads && AwakeUntil(run, |actions|, t)
    ensures OwnSteps(actions, t) <= ToRest(run[0].threads[t]) <= 11
    ensures OwnSteps(actions, t) == ToRest(run[0].threads[t]) ==>
              run[|actions|].threads[t] == Idle || run[|actions|].threads[t].Asleep?
  {
    TraceDescends(run, actions, |actions|, t);
    assert actions[..|actions|] == actions;
    RestBounds(run[0].threads[t]);
    RestBounds(run[|actions|].threads[t]);
  }

  lemma RestBounds(pc: Pc)
    ensures ToRest(pc) <= 11 && (ToRest(pc) == 0 ==> pc == Idle || pc.Asleep?)
  {
  }
}
