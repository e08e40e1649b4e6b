/**
 Who sleeps in `wait_running_task` and `wait_completion`: when a notification is certain, when none will ever come,
 and who is forgotten by a clear. `WorkerWaking` has the cases in between.
 */
module WorkerWaiters {
  import opened Prelude
  import opened WorkerMachine
  import opened WorkerInvariants
  import opened WorkerWakeups
  import opened WorkerShutdown
  import opened WorkerTheorems

  /** The thread has decided to sleep in a wait of this kind and has not been notified since. */
  predicate Sleeps(pc: Pc, kind: WaitKind) {
    match pc
    case WaitEmptyUnlock(result) => kind == Completion && result == None
    case WaitSleep(k) => kind == k
    case Asleep(k, notified) => kind == k && !notified
    case _ => false
  }

  /** The next thing the loop does, apart from letting a task run, is to complete a task and notify. */
  predicate WillNotify(m: Memory, w: WorkerPc) {
    match w
    case Mark => !EmptyNext(m)
    case Front => !EmptyNext(m)
    case PopUnlock(task) => !Is(m, task, EmptyJob)
    case ResetCanceled(_) => true
    case InTask(_) => true
    case FinishLock(_) => true
    case FinishClear(_) => true
    case FinishNotify => true
    case _ => false
  }

  /** The loop has committed itself to an empty task, or has ended on one. */
  predicate EmptyInHand(m: Memory, w: WorkerPc) {
    match w
    case Mark => EmptyNext(m)
    case Front => EmptyNext(m)
    case PopUnlock(task) => Is(m, task, EmptyJob)
    case Leaving(onEmptyJob) => onEmptyJob
    case Exited(onEmptyJob) => onEmptyJob
    case _ => false
  }

  predicate EmptyNext(m: Memory) {
    m.queue != [] && Is(m, m.queue[0], EmptyJob)
  }

  /** The loop will not notify anybody any more. */
  predicate Over(m: Memory, w: WorkerPc) {
    EmptyInHand(m, w) || (m.shutdown && !WillNotify(m, w))
  }

  /** How many steps of the loop there are up to and including its next notification. */
  function Distance(w: WorkerPc): nat {
    match w
    case Mark => 8
    case Front => 7
    case PopUnlock(_) => 6
    case ResetCanceled(_) => 5
    case InTask(_) => 4
    case FinishLock(_) => 3
    case FinishClear(_) => 2
    case FinishNotify => 1
    case _ => 0
  }

  // ---- what the loop has in hand ----

  predicate SameHand(m: Memory, m': Memory, w: WorkerPc) {
    && WillNotify(m', w) == WillNotify(m, w)
    && EmptyInHand(m', w) == EmptyInHand(m, w)
  }

  lemma PublicOpKeepsHand(m: Memory, w: WorkerPc, t: Tid, op: Op)
    requires Accounting(m, w) && CanDo(m, op) && PublicOp(op)
    requires op.Swap? || op.Enqueue? ==> !WorkerHoldsQueue(w)
    ensures SameHand(m, Do(m, t, op), w)
    ensures Do(m, t, op).shutdown == (m.shutdown || op == StoreShutdown)
  {
    PublicOpFrame(m, t, op);
    AccountedStarts(m, w);
  }

  lemma NotifyOneKeepsHand(m: Memory, w: WorkerPc)
    ensures WillNotify(m, NotifyOne(w)) == WillNotify(m, w) && EmptyInHand(m, NotifyOne(w)) == EmptyInHand(m, w)
    ensures Distance(NotifyOne(w)) == Distance(w) && (NotifyOne(w).FinishNotify? <==> w.FinishNotify?)
  {
  }

  /** The loop commits itself to the front of the queue. */
  predicate Commits(m: Memory, w: WorkerPc) {
    w.CheckStopped? && !m.shutdown
  }

  lemma LoopMovesHand(m: Memory, w: WorkerPc)
    requires Accounting(m, w) && CanDo(m, WorkerOp(w))
    ensures var m', w' := Do(m, WORKER, WorkerOp(w)), WorkerNext(m, w);
            && m'.shutdown == m.shutdown
            && (WillNotify(m, w) && !w.FinishNotify? ==> WillNotify(m', w') && Distance(w') == Distance(w) - 1)
            && (EmptyInHand(m', w') <==> EmptyInHand(m, w) || (Commits(m, w) && EmptyNext(m)))
            && (WillNotify(m', w') ==> WillNotify(m, w) || Commits(m, w))
  {
    AccountedStarts(m, w);
    if !w.Front? {
      WorkerOpFrame(m, w);
    }
  }

  lemma ThreadKeepsHand(s: State, t: Tid)
    requires Sound(s) && ThreadEnabled(s, t)
    ensures var s', op := ThreadStep(s, t), ThreadOp(s.threads[t]);
            && WillNotify(s'.mem, s'.worker) == WillNotify(s.mem, s.worker)
            && EmptyInHand(s'.mem, s'.worker) == EmptyInHand(s.mem, s.worker)
            && Distance(s'.worker) == Distance(s.worker)
            && s'.mem.shutdown == (s.mem.shutdown || op == StoreShutdown)
  {
    var op := ThreadOp(s.threads[t]);
    ThreadOps(s.threads[t]);
    Exclusion(s, t);
    PublicOpKeepsHand(s.mem, s.worker, t, op);
    NotifyOneKeepsHand(Do(s.mem, t, op), s.worker);
  }

  // ---- exactly when the loop stops being of help ----

  predicate StoresShutdown(s: State, a: Action) {
    a.Inside? && a.t in s.threads && s.threads[a.t].ShutdownStore?
  }

  /** The loop notifies everybody who is asleep. */
  predicate Notifies(s: State, a: Action) {
    a.Loop? && s.worker.FinishNotify?
  }

  lemma StepMovesHand(s: State, a: Action)
    requires Sound(s) && Enabled(s, a)
    ensures var s' := Apply(s, a);
            && s'.mem.shutdown == (s.mem.shutdown || StoresShutdown(s, a))
            && (EmptyInHand(s'.mem, s'.worker) <==>
                  EmptyInHand(s.mem, s.worker) || (a.Loop? && Commits(s.mem, s.worker) && EmptyNext(s.mem)))
            && (WillNotify(s'.mem, s'.worker) ==>
                  WillNotify(s.mem, s.worker) || (a.Loop? && Commits(s.mem, s.worker)))
            && (WillNotify(s.mem, s.worker) && !Notifies(s, a) ==>
                  && WillNotify(s'.mem, s'.worker)
                  && Distance(s'.worker) == Distance(s.worker) - if a.Loop? then 1 else 0)
  {
    match a
    case Loop => LoopMovesHand(s.mem, s.worker);
    case Inside(t) =>
      ThreadKeepsHand(s, t);
      ShutdownStoreTable(s.mem, s.threads[t]);
    case Invoke(_, _) =>
    case AskCanceled =>
  }

  /**
   The step is the last use of the loop to anybody asleep: `m_shutdown` is set while it has no task in hand, it
   takes an empty task, or it notifies with `m_shutdown` set.
   */
  predicate Finishes(s: State, a: Action) {
    || (StoresShutdown(s, a) && !WillNotify(s.mem, s.worker))
    || (a.Loop? && Commits(s.mem, s.worker) && EmptyNext(s.mem))
    || (Notifies(s, a) && s.mem.shutdown)
  }

  lemma OverExactly(s: State, a: Action)
    requires Sound(s) && Enabled(s, a)
    ensures Over(Apply(s, a).mem, Apply(s, a).worker) <==> Over(s.mem, s.worker) || Finishes(s, a)
  {
    StepMovesHand(s, a);
  }

  ghost predicate Finished(run: seq<State>, actions: seq<Action>, n: nat)
    requires n <= |actions| && |run| == |actions| + 1
  {
    exists l {:trigger actions[l]} :: 0 <= l < n && Finishes(run[l], actions[l])
  }

  lemma FinishedLater(run: seq<State>, actions: seq<Action>, n: nat)
    requires n < |actions| && |run| == |actions| + 1
    ensures Finished(run, actions, n + 1) <==> Finished(run, actions, n) || Finishes(run[n], actions[n])
  {
  }

  lemma TraceSound(run: seq<State>, actions: seq<Action>, n: nat)
    requires Trace(run, actions) && Inv(run[0]) && n <= |actions|
    ensures Sound(run[n])
  {
    TraceInv(run, actions, n);
  }

  lemma TraceStepFinishes(run: seq<State>, actions: seq<Action>, n: nat)
    requires Trace(run, actions) && Init(run[0]) && n < |actions|
    ensures Over(run[n + 1].mem, run[n + 1].worker) <==>
              Over(run[n].mem, run[n].worker) || Finishes(run[n], actions[n])
  {
    InitInv(run[0]);
    TraceSound(run, actions, n);
    assert Enabled(run[n], actions[n]);
    OverExactly(run[n], actions[n]);
  }

  /** In every run the loop is over if and only if one of these steps has been made. */
  lemma {:induction false} OverIffFinished(run: seq<State>, actions: seq<Action>, n: nat)
    requires Trace(run, actions) && Init(run[0]) && n <= |actions|
    ensures Over(run[n].mem, run[n].worker) <==> Finished(run, actions, n)
  {
    if n != 0 {
      OverIffFinished(run, actions, n - 1);
      TraceStepFinishes(run, actions, n - 1);
      FinishedLater(run, actions, n - 1);
    }
  }

  // ---- the way to the next notification ----

  predicate Unnotified(s: State, t: Tid) {
    t in s.threads && s.threads[t].Asleep? && !s.threads[t].notified
  }

  lemma NotifiesSleepers(s: State, a: Action, t: Tid)
    requires Enabled(s, a) && Notifies(s, a)
    ensures !Unnotified(Apply(s, a), t)
  {
  }

  lemma StepApproachesNotification(s: State, a: Action, t: Tid)
    requires Sound(s) && Enabled(s, a) && WillNotify(s.mem, s.worker) && Unnotified(Apply(s, a), t)
    ensures WillNotify(Apply(s, a).mem, Apply(s, a).worker)
    ensures Distance(Apply(s, a).worker) == Distance(s.worker) - if a.Loop? then 1 else 0
  {
    if Notifies(s, a) {
      NotifiesSleepers(s, a, t);
    }
    StepMovesHand(s, a);
  }

  /** The loop will still notify in the second state, and is `steps` of its own steps nearer to it. */
  predicate Nearer(s: State, s': State, steps: nat) {
    WillNotify(s'.mem, s'.worker) && Distance(s'.worker) + steps == Distance(s.worker)
  }

  lemma TraceStepApproaches(run: seq<State>, actions: seq<Action>, n: nat, t: Tid)
    requires Trace(run, actions) && Inv(run[0]) && n < |actions| && WillNotify(run[n].mem, run[n].worker)
    requires Unnotified(run[n + 1], t)
    ensures Nearer(run[n], run[n + 1], if actions[n].Loop? then 1 else 0)
  {
    TraceSound(run, actions, n);
    assert Enabled(run[n], actions[n]);
    StepApproachesNotification(run[n], actions[n], t);
  }

  /** `t` is asleep and not notified in the states up to number `n`. */
  ghost predicate SleepsOn(run: seq<State>, n: nat, t: Tid)
    requires n < |run|
  {
    forall k :: 0 <= k <= n ==> Unnotified(run[k], t)
  }

  lemma NearerNext(run: seq<State>, actions: seq<Action>, n: nat, t: Tid)
    requires Trace(run, actions) && Inv(run[0]) && n < |actions| && Unnotified(run[n + 1], t)
    requires Nearer(run[0], run[n], LoopSteps(actions[..n]))
    ensures Nearer(run[0], run[n + 1], LoopSteps(actions[..n + 1]))
  {
    LoopStepsNext(actions, n);
    TraceStepApproaches(run, actions, n, t);
  }

  lemma {:induction false} TraceApproachesNotification(run: seq<State>, actions: seq<Action>, n: nat, t: Tid)
    requires Trace(run, actions) && Inv(run[0]) && n <= |actions| && WillNotify(run[0].mem, run[0].worker)
    requires SleepsOn(run, |actions|, t)
    ensures Nearer(run[0], run[n], LoopSteps(actions[..n]))
  {
    if n != 0 {
      TraceApproachesNotification(run, actions, n - 1, t);
      assert Unnotified(run[n], t);
      NearerNext(run, actions, n - 1, t);
    }
  }

  /** While the loop has a task in hand that is not empty, a sleeper is notified within at most eight of its steps. */
  lemma NotificationComes(run: seq<State>, actions: seq<Action>, t: Tid)
    requires Trace(run, actions) && Reachable(run[0]) && WillNotify(run[0].mem, run[0].worker)
    requires SleepsOn(run, |actions|, t)
    ensures LoopSteps(actions) < Distance(run[0].worker) <= 8
  {
    TraceApproachesNotification(run, actions, |actions|, t) by {
      ReachableInv(run[0]);
    }
    assert actions[..|actions|] == actions;
  }

  // ---- no way to a notification ----

  predicate Notified(pc: Pc) {
    pc.Asleep? && pc.notified
  }

  lemma StepNotifies(s: State, a: Action, t: Tid)
    requires Enabled(s, a) && t in s.threads && !Notified(s.threads[t]) && !Notifies(s, a)
    ensures t in Apply(s, a).threads && !Notified(Apply(s, a).threads[t])
  {
  }

  lemma StepOver(s: State, a: Action, t: Tid)
    requires Sound(s) && Enabled(s, a) && Over(s.mem, s.worker)
    requires t in s.threads && !Notified(s.threads[t])
    ensures var s' := Apply(s, a); Over(s'.mem, s'.worker) && t in s'.threads && !Notified(s'.threads[t])
  {
    OverExactly(s, a);
    StepNotifies(s, a, t);
  }

  predicate Hopeless(s: State, t: Tid) {
    Over(s.mem, s.worker) && t in s.threads && !Notified(s.threads[t])
  }

  lemma TraceStepOver(run: seq<State>, actions: seq<Action>, n: nat, t: Tid)
    requires Trace(run, actions) && Inv(run[0]) && n < |actions| && Hopeless(run[n], t)
    ensures Hopeless(run[n + 1], t)
  {
    TraceSound(run, actions, n);
    assert Enabled(run[n], actions[n]);
    StepOver(run[n], actions[n], t);
  }

  lemma {:induction false} TraceOver(run: seq<State>, actions: seq<Action>, n: nat, t: Tid)
    requires Trace(run, actions) && Inv(run[0]) && n <= |actions| && Hopeless(run[0], t)
    ensures Hopeless(run[n], t)
  {
    if n != 0 {
      TraceOver(run, actions, n - 1, t);
      TraceStepOver(run, actions, n - 1, t);
    }
  }

  /** Once the loop is over, in every continuation nobody is notified any more. */
  lemma NobodyIsNotified(run: seq<State>, actions: seq<Action>, t: Tid)
    requires Trace(run, actions) && Reachable(run[0]) && Over(run[0].mem, run[0].worker)
    requires t in run[0].threads && !Notified(run[0].threads[t])
    ensures t in run[|actions|].threads && !Notified(run[|actions|].threads[t])
  {
    TraceOver(run, actions, |actions|, t) by {
      ReachableInv(run[0]);
    }
  }

  /** A wait has read `m_executing` as false and may still return. */
  predicate PastLook(pc: Pc) {
    match pc
    case WaitEmptyLock(_) => true
    case WaitEmpty(_) => true
    case WaitEmptyUnlock(result) => result.Some?
    case WaitUnlock(_) => true
    case _ => false
  }

  lemma StepLooks(s: State, a: Action, t: Tid)
    requires Enabled(s, a) && s.mem.executing && t in s.threads && !PastLook(s.threads[t])
    ensures t in Apply(s, a).threads && !PastLook(Apply(s, a).threads[t])
  {
  }

  ghost predicate Stuck(s: State, t: Tid) {
    EmptyInHand(s.mem, s.worker) && s.mem.executing && t in s.threads && !PastLook(s.threads[t])
  }

  lemma StepStuck(s: State, a: Action, t: Tid)
    requires Sound(s) && Enabled(s, a) && Stuck(s, t) && Sound(Apply(s, a))
    ensures Stuck(Apply(s, a), t)
  {
    StepMovesHand(s, a);
    StepLooks(s, a, t);
    NoReturnToMark(s, a);
  }

  lemma TraceStepStuck(run: seq<State>, actions: seq<Action>, n: nat, t: Tid)
    requires Trace(run, actions) && Inv(run[0]) && n < |actions| && Stuck(run[n], t)
    ensures Stuck(run[n + 1], t)
  {
    TraceSound(run, actions, n);
    TraceSound(run, actions, n + 1);
    assert Enabled(run[n], actions[n]);
    StepStuck(run[n], actions[n], t);
  }

  lemma {:induction false} TraceStuck(run: seq<State>, actions: seq<Action>, n: nat, t: Tid)
    requires Trace(run, actions) && Inv(run[0]) && n <= |actions| && Stuck(run[0], t)
    ensures Stuck(run[n], t)
  {
    if n != 0 {
      TraceStuck(run, actions, n - 1, t);
      TraceStepStuck(run, actions, n - 1, t);
    }
  }

  lemma NoReturnToMark(s: State, a: Action)
    requires Enabled(s, a) && EmptyInHand(s.mem, s.worker)
    ensures !Apply(s, a).worker.Mark? || s.worker.Mark?
  {
  }

  /** Once an empty task has been taken out, in every continuation no wait returns that has not looked before. */
  lemma NoWaitReturns(run: seq<State>, actions: seq<Action>, t: Tid)
    requires Trace(run, actions) && Reachable(run[0])
    requires EmptyInHand(run[0].mem, run[0].worker) && run[0].mem.executing
    requires t in run[0].threads && !PastLook(run[0].threads[t])
    ensures t in run[|actions|].threads && !run[|actions|].threads[t].WaitUnlock?
  {
    TraceStuck(run, actions, |actions|, t) by {
      ReachableInv(run[0]);
    }
  }

  // ---- forgotten by a clear ----

  /** Nothing is queued, nothing is in flight, and nobody is about to be notified; yet `t` sleeps. */
  predicate Forgotten(s: State, t: Tid) {
    && t in s.threads && Sleeps(s.threads[t], Completion)
    && s.mem.queue == [] && !s.mem.executing && !s.worker.FinishNotify?
  }

  /** A clear that takes effect on a queue with something in it, while nothing is in flight. */
  predicate Strands(s: State, a: Action) {
    && a.Inside? && a.t in s.threads && s.threads[a.t].ClearSwap?
    && s.mem.queue != [] && !s.mem.executing && !s.worker.FinishNotify?
  }

  lemma LoopKeepsIdle(m: Memory, w: WorkerPc)
    requires Accounting(m, w) && CanDo(m, WorkerOp(w))
    ensures var m', w' := Do(m, WORKER, WorkerOp(w)), WorkerNext(m, w);
            && m'.accepted == m.accepted
            && (m'.queue == [] && !m'.executing && !w'.FinishNotify? <==>
                  m.queue == [] && !m.executing && !w'.FinishNotify?)
            && (w'.FinishNotify? ==> m.executing)
  {
    if !w.Front? {
      WorkerOpFrame(m, w);
    }
  }

  lemma LoopForgets(s: State, t: Tid)
    requires Sound(s) && WorkerEnabled(s) && t in s.threads
    requires t in WorkerStep(s).threads && Sleeps(WorkerStep(s).threads[t], Completion)
    ensures WorkerStep(s).mem.accepted == s.mem.accepted
    ensures Forgotten(WorkerStep(s), t) <==> Forgotten(s, t)
  {
    LoopKeepsIdle(s.mem, s.worker);
    WorkerMovesThreads(s);
    Exclusion(s, t);
  }

  lemma PublicOpKeepsIdle(m: Memory, t: Tid, op: Op)
    requires CanDo(m, op) && PublicOp(op)
    ensures var m' := Do(m, t, op);
            && m'.executing == m.executing
            && (m'.queue == [] <==> !op.Enqueue? && (op.Swap? || m.queue == []))
            && |m'.accepted| == |m.accepted| + if op.Enqueue? then 1 else 0
  {
    match op
    case Enqueue(_, _, _) =>
    case Swap =>
    case _ =>
  }

  lemma SleepTable(m: Memory, pc: Pc)
    ensures ThreadOp(pc).Swap? <==> pc.ClearSwap?
    ensures Sleeps(NextPc(m, pc), Completion) ==> !ThreadOp(pc).Swap? && !ThreadOp(pc).Enqueue?
    ensures Sleeps(NextPc(m, pc), Completion) && !Sleeps(pc, Completion) ==> m.executing || m.queue != []
  {
  }

  lemma ThreadForgets(s: State, u: Tid, t: Tid)
    requires ThreadEnabled(s, u) && t in s.threads && Sleeps(ThreadStep(s, u).threads[t], Completion)
    ensures Forgotten(ThreadStep(s, u), t) <==>
              || Strands(s, Inside(u))
              || (Forgotten(s, t) && |ThreadStep(s, u).mem.accepted| == |s.mem.accepted|)
    ensures |s.mem.accepted| <= |ThreadStep(s, u).mem.accepted|
  {
    ThreadOps(s.threads[u]);
    PublicOpKeepsIdle(s.mem, u, ThreadOp(s.threads[u]));
    SleepTable(s.mem, s.threads[u]);
  }

  /** A step leaves `t` forgotten exactly if it is such a clear, or `t` was forgotten and nothing is accepted. */
  lemma ForgottenExactly(s: State, a: Action, t: Tid)
    requires Sound(s) && Enabled(s, a) && t in s.threads
    requires Sleeps(Apply(s, a).threads[t], Completion)
    ensures Forgotten(Apply(s, a), t) <==>
              Strands(s, a) || (Forgotten(s, t) && |Apply(s, a).mem.accepted| == |s.mem.accepted|)
    ensures |s.mem.accepted| <= |Apply(s, a).mem.accepted|
  {
    match a
    case Loop => LoopForgets(s, t);
    case Inside(u) => ThreadForgets(s, u, t);
    case Invoke(_, _) =>
    case AskCanceled =>
  }

  /** A clear has stranded `t`, which has been asleep ever since without anything accepted. */
  ghost predicate Stranded(run: seq<State>, actions: seq<Action>, n: nat, t: Tid)
    requires n <= |actions| && |run| == |actions| + 1
  {
    exists l: nat {:trigger actions[l]} :: l < n && SleptSince(run, l, n, t) && Strands(run[l], actions[l])
  }

  predicate SleptSince(run: seq<State>, l: nat, n: nat, t: Tid)
    requires l <= n < |run|
  {
    && (forall k :: l < k <= n ==> t in run[k].threads && Sleeps(run[k].threads[t], Completion))
    && |run[n].mem.accepted| == |run[l].mem.accepted|
  }

  lemma SleptLonger(run: seq<State>, l: nat, n: nat, t: Tid)
    requires l < n < |run| && t in run[n].threads && Sleeps(run[n].threads[t], Completion)
    requires |run[l].mem.accepted| <= |run[n - 1].mem.accepted| <= |run[n].mem.accepted|
    ensures SleptSince(run, l, n, t) <==>
              SleptSince(run, l, n - 1, t) && |run[n].mem.accepted| == |run[n - 1].mem.accepted|
  {
  }

  predicate MostAccepted(run: seq<State>, n: nat)
    requires n < |run|
  {
    forall l :: 0 <= l <= n ==> |run[l].mem.accepted| <= |run[n].mem.accepted|
  }

  lemma StrandedLater(run: seq<State>, actions: seq<Action>, n: nat, t: Tid)
    requires 0 < n <= |actions| && |run| == |actions| + 1
    requires t in run[n].threads && Sleeps(run[n].threads[t], Completion)
    requires MostAccepted(run, n - 1) && |run[n - 1].mem.accepted| <= |run[n].mem.accepted|
    requires Strands(run[n - 1], actions[n - 1]) ==> |run[n - 1].mem.accepted| == |run[n].mem.accepted|
    ensures Stranded(run, actions, n, t) <==>
              || Strands(run[n - 1], actions[n - 1])
              || (Stranded(run, actions, n - 1, t) && |run[n].mem.accepted| == |run[n - 1].mem.accepted|)
  {
    if Stranded(run, actions, n, t) {
      var l: nat :| l < n && SleptSince(run, l, n, t) && Strands(run[l], actions[l]);
      SleptLonger(run, l, n, t);
    }
    if Strands(run[n - 1], actions[n - 1]) {
      assert SleptSince(run, n - 1, n, t);
    }
    if Stranded(run, actions, n - 1, t) && |run[n].mem.accepted| == |run[n - 1].mem.accepted| {
      var l: nat :| l < n - 1 && SleptSince(run, l, n - 1, t) && Strands(run[l], actions[l]);
      SleptLonger(run, l, n, t);
    }
  }

  lemma StepAccepts(s: State, a: Action)
    requires Enabled(s, a)
    ensures |s.mem.accepted| <= |Apply(s, a).mem.accepted|
    ensures Strands(s, a) ==> |s.mem.accepted| == |Apply(s, a).mem.accepted|
    ensures s.threads.Keys == Apply(s, a).threads.Keys
  {
    match a
    case Loop => LoopAccepts(s.mem, s.worker);
    case Inside(t) =>
      ThreadOps(s.threads[t]);
      PublicOpKeepsIdle(s.mem, t, ThreadOp(s.threads[t]));
    case Invoke(_, _) =>
    case AskCanceled =>
  }

  lemma LoopAccepts(m: Memory, w: WorkerPc)
    requires CanDo(m, WorkerOp(w))
    ensures Do(m, WORKER, WorkerOp(w)).accepted == m.accepted
  {
    LoopOps(w);
    if !w.Front? {
      QuietOpKeepsStarts(m, WORKER, WorkerOp(w));
    }
  }

  lemma {:induction false} TraceAccepts(run: seq<State>, actions: seq<Action>, n: nat)
    requires Trace(run, actions) && n <= |actions|
    ensures MostAccepted(run, n)
  {
    if n != 0 {
      TraceAccepts(run, actions, n - 1);
      assert Enabled(run[n - 1], actions[n - 1]);
      StepAccepts(run[n - 1], actions[n - 1]);
    }
  }

  lemma TraceForgets(run: seq<State>, actions: seq<Action>, n: nat, t: Tid)
    requires Trace(run, actions) && Init(run[0]) && n < |actions|
    requires t in run[n + 1].threads && Sleeps(run[n + 1].threads[t], Completion)
    ensures Forgotten(run[n + 1], t) <==>
              || Strands(run[n], actions[n])
              || (Forgotten(run[n], t) && |run[n + 1].mem.accepted| == |run[n].mem.accepted|)
  {
    InitInv(run[0]);
    TraceSound(run, actions, n);
    assert Enabled(run[n], actions[n]) && run[n + 1] == Apply(run[n], actions[n]);
    StepAccepts(run[n], actions[n]);
    ForgottenExactly(run[n], actions[n], t);
  }

  lemma TraceStrands(run: seq<State>, actions: seq<Action>, n: nat, t: Tid)
    requires Trace(run, actions) && n < |actions|
    requires t in run[n + 1].threads && Sleeps(run[n + 1].threads[t], Completion)
    ensures Stranded(run, actions, n + 1, t) <==>
              || Strands(run[n], actions[n])
              || (Stranded(run, actions, n, t) && |run[n + 1].mem.accepted| == |run[n].mem.accepted|)
  {
    TraceAccepts(run, actions, n);
    assert Enabled(run[n], actions[n]) && run[n + 1] == Apply(run[n], actions[n]);
    StepAccepts(run[n], actions[n]);
    StrandedLater(run, actions, n + 1, t);
  }

  lemma NeitherIfAwake(run: seq<State>, actions: seq<Action>, n: nat, t: Tid)
    requires n <= |actions| && |run| == |actions| + 1
    requires !Awaits(run[n], t)
    ensures !Forgotten(run[n], t) && !Stranded(run, actions, n, t)
  {
  }

  predicate Awaits(s: State, t: Tid) {
    t in s.threads && Sleeps(s.threads[t], Completion)
  }

  lemma TraceStepForgets(run: seq<State>, actions: seq<Action>, n: nat, t: Tid)
    requires Trace(run, actions) && Init(run[0]) && n < |actions| && Awaits(run[n + 1], t)
    requires Awaits(run[n], t) ==> (Forgotten(run[n], t) <==> Stranded(run, actions, n, t))
    ensures Forgotten(run[n + 1], t) <==> Stranded(run, actions, n + 1, t)
  {
    TraceForgets(run, actions, n, t);
    TraceStrands(run, actions, n, t);
    if !Awaits(run[n], t) {
      NeitherIfAwake(run, actions, n, t);
    }
  }

  /**
   In every run a caller of `wait_completion` sleeps with nothing queued, nothing in flight and no notification on
   its way if and only if, since it decided to sleep, a clear emptied a queue with nothing in flight, and nothing
   has been accepted since.
   */
  lemma {:induction false} ForgottenIffStranded(run: seq<State>, actions: seq<Action>, n: nat, t: Tid)
    requires Trace(run, actions) && Init(run[0]) && n <= |actions| && Awaits(run[n], t)
    ensures Forgotten(run[n], t) <==> Stranded(run, actions, n, t)
  {
    if n != 0 {
      if Awaits(run[n - 1], t) {
        ForgottenIffStranded(run, actions, n - 1, t);
      }
      TraceStepForgets(run, actions, n - 1, t);
    }
  }

  // ---- what a sleeper can hope for ----

  lemma HandTable(m: Memory, w: WorkerPc)
    requires Accounting(m, w)
    ensures m.executing || w.FinishNotify? || w.Mark? <==> WillNotify(m, w) || EmptyInHand(m, w)
    ensures !(WillNotify(m, w) && Over(m, w))
    ensures w.Exited? ==> Over(m, w)
  {
  }

  lemma ReachableSleeper(s: State, t: Tid)
    requires Reachable(s) && t in s.threads
    ensures Accounting(s.mem, s.worker) && WaitHolds(s.mem, s.worker, s.threads[t])
    ensures s.worker.Mark? ==> s.mem.queue != []
  {
    ReachableInv(s);
  }

  /**
   A caller who sleeps un-notified in `wait_running_task` will be notified next thing, unless the loop has taken an
   empty task, in which case nobody ever notifies him; so an ended loop has sleepers of this kind only then.
   */
  lemma RunningSleeper(s: State, t: Tid)
    requires Reachable(s) && t in s.threads && Sleeps(s.threads[t], Running)
    ensures WillNotify(s.mem, s.worker) <==> !EmptyInHand(s.mem, s.worker)
    ensures Over(s.mem, s.worker) <==> EmptyInHand(s.mem, s.worker)
    ensures EmptyInHand(s.mem, s.worker) ==> s.mem.executing
    ensures s.worker.Exited? ==> s.worker == Exited(true)
  {
    ReachableSleeper(s, t);
    HandTable(s.mem, s.worker);
  }
}
