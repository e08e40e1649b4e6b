/**
 The callers asleep in `wait_completion` while the loop is between two tasks: exactly what keeps it from going on
 to the next task, and so from notifying them.
 */
module WorkerWaking {
  import opened WorkerMachine
  import opened WorkerInvariants
  import opened WorkerShutdown
  import opened WorkerTheorems
  import opened WorkerWaiters
  import opened WorkerDraining

  /** The worker has read that the loop is not paused, and goes on without reading it again. */
  predicate PastPause(w: WorkerPc) {
    w.PredEmpty? || w.CheckStopped?
  }

  /** The loop is between two tasks, and one that is not empty is there for it to take. */
  predicate Open(m: Memory, w: WorkerPc) {
    && !WillNotify(m, w) && !Over(m, w)
    && m.queue != [] && !EmptyNext(m)
    && (!m.blocked || PastPause(w))
  }

  /** The loop is between two tasks, and is paused, or has nothing to take, or an empty task next. */
  predicate Withheld(m: Memory, w: WorkerPc) {
    && !WillNotify(m, w) && !Over(m, w)
    && (m.queue == [] || EmptyNext(m) || (m.blocked && !PastPause(w)))
  }

  /** A notification comes if nobody hinders it. */
  predicate Helped(s: State) {
    WillNotify(s.mem, s.worker) || Open(s.mem, s.worker)
  }

  /** How many steps of the loop there are at most up to and including its next notification. */
  function Turns(m: Memory, w: WorkerPc): nat {
    if WillNotify(m, w) then Distance(w) else ToDequeue(w) + 6
  }

  // ---- the four cases ----

  /**
   One who sleeps un-notified in `wait_completion` is in exactly one of four cases: a task in hand will bring the
   notification, no notification will ever come, the next task will bring it, or the next task is withheld. What is
   forgotten by a clear is told apart by the queue and the worker's position, and is over or withheld.
   */
  lemma CompletionSleeper(s: State, t: Tid)
    requires Reachable(s) && t in s.threads && Sleeps(s.threads[t], Completion)
    ensures var m, w := s.mem, s.worker;
            && (WillNotify(m, w) ==> !Over(m, w) && !Open(m, w) && !Withheld(m, w))
            && (Over(m, w) ==> !Open(m, w) && !Withheld(m, w))
            && (Open(m, w) ==> !Withheld(m, w))
            && (WillNotify(m, w) || Over(m, w) || Open(m, w) || Withheld(m, w))
    ensures Open(s.mem, s.worker) || Withheld(s.mem, s.worker) ==>
              !s.mem.shutdown && !s.mem.executing && !s.worker.Leaving? && !s.worker.Exited?
    ensures Forgotten(s, t) <==>
              s.mem.queue == [] && !WillNotify(s.mem, s.worker) && !EmptyInHand(s.mem, s.worker)
    ensures Forgotten(s, t) ==> Over(s.mem, s.worker) || Withheld(s.mem, s.worker)
  {
    ReachableSleeper(s, t);
    HandTable(s.mem, s.worker);
  }

  // ---- what ends the help ----

  /** A clear, a shutdown, a pause in time, or a push that replaces everything by an empty task. */
  predicate OpHinders(w: WorkerPc, op: Op) {
    match op
    case Swap => true
    case StoreShutdown => true
    case StoreBlocked(value) => value && !PastPause(w)
    case Enqueue(job, clearothers, _) => clearothers && job == EmptyJob
    case _ => false
  }

  predicate Hinders(s: State, a: Action) {
    && Open(s.mem, s.worker)
    && a.Inside? && a.t in s.threads && OpHinders(s.worker, ThreadOp(s.threads[a.t]))
  }

  lemma OpMovesQueue(m: Memory, t: Tid, op: Op)
    requires CanDo(m, op) && PublicOp(op) && (m.queue != [] ==> m.queue[0] < |m.accepted|)
    ensures var m' := Do(m, t, op);
            && m'.blocked == (if op.StoreBlocked? then op.value else m.blocked)
            && (m'.queue == [] <==> op.Swap? || (m.queue == [] && !op.Enqueue?))
            && (m'.queue != [] ==>
                  (EmptyNext(m') <==>
                     if op.Enqueue? && (op.clearothers || m.queue == []) then op.job == EmptyJob else EmptyNext(m)))
  {
    match op
    case Enqueue(_, _, _) =>
    case Swap =>
    case _ =>
  }

  lemma OpKeepsOpen(m: Memory, w: WorkerPc, t: Tid, op: Op)
    requires Accounting(m, w) && Open(m, w) && CanDo(m, op) && PublicOp(op)
    requires op.Swap? || op.Enqueue? ==> !WorkerHoldsQueue(w)
    ensures Open(Do(m, t, op), w) <==> !OpHinders(w, op)
    ensures Turns(Do(m, t, op), w) == Turns(m, w)
  {
    AccountedStarts(m, w);
    PublicOpKeepsHand(m, w, t, op);
    OpMovesQueue(m, t, op);
  }

  lemma NotifyOneKeepsOpen(m: Memory, w: WorkerPc)
    ensures Open(m, NotifyOne(w)) == Open(m, w) && Turns(m, NotifyOne(w)) == Turns(m, w)
  {
  }

  lemma OpenStages(m: Memory, w: WorkerPc)
    requires Accounting(m, w) && Open(m, w) && CanDo(m, WorkerOp(w))
    ensures var m', w' := Do(m, WORKER, WorkerOp(w)), WorkerNext(m, w);
            && m'.queue == m.queue && m'.accepted == m.accepted && m'.blocked == m.blocked && m'.shutdown == m.shutdown
            && ToDequeue(w') < ToDequeue(w)
            && (m.blocked ==> PastPause(w') || w'.Mark?)
            && (w.CheckStopped? <==> w'.Mark?)
  {
  }

  lemma LoopKeepsOpen(m: Memory, w: WorkerPc)
    requires Accounting(m, w) && Open(m, w) && CanDo(m, WorkerOp(w))
    ensures var m', w' := Do(m, WORKER, WorkerOp(w)), WorkerNext(m, w);
            (WillNotify(m', w') || Open(m', w')) && Turns(m', w') < Turns(m, w)
  {
    OpenStages(m, w);
    LoopMovesHand(m, w);
  }

  lemma OpenStep(s: State, a: Action)
    requires Sound(s) && Enabled(s, a) && Open(s.mem, s.worker)
    ensures Helped(Apply(s, a)) <==> !Hinders(s, a)
    ensures Helped(Apply(s, a)) ==>
              Turns(Apply(s, a).mem, Apply(s, a).worker) + (if a.Loop? then 1 else 0) <= Turns(s.mem, s.worker)
  {
    match a
    case Loop => LoopKeepsOpen(s.mem, s.worker);
    case Inside(t) =>
      var op := ThreadOp(s.threads[t]);
      ThreadOps(s.threads[t]);
      Exclusion(s, t);
      OpKeepsOpen(s.mem, s.worker, t, op);
      NotifyOneKeepsOpen(Do(s.mem, t, op), s.worker);
      ThreadKeepsHand(s, t);
    case Invoke(_, _) =>
    case AskCanceled =>
  }

  /** Until the notification, help ends exactly where somebody hinders it. */
  lemma HelpEndsExactly(s: State, a: Action)
    requires Sound(s) && Enabled(s, a) && Helped(s) && !Notifies(s, a)
    ensures Helped(Apply(s, a)) <==> !Hinders(s, a)
    ensures Helped(Apply(s, a)) ==>
              Turns(Apply(s, a).mem, Apply(s, a).worker) + (if a.Loop? then 1 else 0) <= Turns(s.mem, s.worker)
  {
    if Open(s.mem, s.worker) {
      OpenStep(s, a);
    } else {
      StepMovesHand(s, a);
    }
  }

  // ---- the next task brings the notification ----

  ghost predicate NobodyHinders(run: seq<State>, actions: seq<Action>)
    requires |run| == |actions| + 1
  {
    forall k {:trigger actions[k]} :: 0 <= k < |actions| ==> !Hinders(run[k], actions[k])
  }

  ghost predicate Nearing(s: State, s': State, steps: nat) {
    Helped(s') && Turns(s'.mem, s'.worker) + steps <= Turns(s.mem, s.worker)
  }

  lemma StepNears(s: State, a: Action, t: Tid)
    requires Sound(s) && Enabled(s, a) && Helped(s) && !Hinders(s, a) && Unnotified(Apply(s, a), t)
    ensures Nearing(s, Apply(s, a), if a.Loop? then 1 else 0)
  {
    if Notifies(s, a) {
      NotifiesSleepers(s, a, t);
    }
    HelpEndsExactly(s, a);
  }

  lemma NearingNext(run: seq<State>, actions: seq<Action>, n: nat, t: Tid)
    requires Trace(run, actions) && Inv(run[0]) && n < |actions| && Unnotified(run[n + 1], t)
    requires !Hinders(run[n], actions[n]) && Nearing(run[0], run[n], LoopSteps(actions[..n]))
    ensures Nearing(run[0], run[n + 1], LoopSteps(actions[..n + 1]))
  {
    TraceSound(run, actions, n);
    assert Enabled(run[n], actions[n]);
    StepNears(run[n], actions[n], t);
    LoopStepsNext(actions, n);
  }

  lemma {:induction false} TraceNears(run: seq<State>, actions: seq<Action>, n: nat, t: Tid)
    requires Trace(run, actions) && Inv(run[0]) && n <= |actions| && Helped(run[0])
    requires SleepsOn(run, |actions|, t) && NobodyHinders(run, actions)
    ensures Nearing(run[0], run[n], LoopSteps(actions[..n]))
  {
    if n != 0 {
      TraceNears(run, actions, n - 1, t);
      assert Unnotified(run[n], t) && !Hinders(run[n - 1], actions[n - 1]);
      NearingNext(run, actions, n - 1, t);
    }
  }

  lemma NotificationIsAhead(s: State)
    requires Helped(s)
    ensures 0 < Turns(s.mem, s.worker) <= 15
  {
  }

  /**
   While a task in hand or the next task will bring a notification and nobody hinders that, a sleeper is notified
   within at most fifteen steps of the loop, as given by its position.
   */
  lemma UnhinderedSleeperIsNotified(run: seq<State>, actions: seq<Action>, t: Tid)
    requires Trace(run, actions) && Reachable(run[0]) && Helped(run[0])
    requires SleepsOn(run, |actions|, t) && NobodyHinders(run, actions)
    ensures LoopSteps(actions) < Turns(run[0].mem, run[0].worker) <= 15
  {
    TraceNears(run, actions, |actions|, t) by {
      ReachableInv(run[0]);
    }
    assert actions[..|actions|] == actions;
    NotificationIsAhead(run[0]);
    NotificationIsAhead(run[|actions|]);
  }

  // ---- the next task is withheld ----

  /** A resumption with a task to take, or a push that brings one to the front while the loop is not paused. */
  predicate OpReleases(m: Memory, op: Op) {
    match op
    case StoreBlocked(value) => !value && m.queue != [] && !EmptyNext(m)
    case Enqueue(job, clearothers, _) => !m.blocked && job != EmptyJob && (clearothers || m.queue == [])
    case _ => false
  }

  predicate Releases(s: State, a: Action) {
    a.Inside? && a.t in s.threads && OpReleases(s.mem, ThreadOp(s.threads[a.t]))
  }

  lemma OpKeepsWithheld(m: Memory, w: WorkerPc, t: Tid, op: Op)
    requires Accounting(m, w) && Withheld(m, w) && CanDo(m, op) && PublicOp(op)
    requires op.Swap? || op.Enqueue? ==> !WorkerHoldsQueue(w)
    ensures WillNotify(Do(m, t, op), w) || Open(Do(m, t, op), w) <==> OpReleases(m, op)
  {
    AccountedStarts(m, w);
    PublicOpKeepsHand(m, w, t, op);
    OpMovesQueue(m, t, op);
  }

  lemma LoopKeepsWithheld(m: Memory, w: WorkerPc)
    requires Accounting(m, w) && Withheld(m, w) && CanDo(m, WorkerOp(w))
    ensures var m', w' := Do(m, WORKER, WorkerOp(w)), WorkerNext(m, w); !WillNotify(m', w') && !Open(m', w')
  {
  }

  /** The next task ceases to be withheld exactly where somebody releases it. */
  lemma HelpBeginsExactly(s: State, a: Action)
    requires Sound(s) && Enabled(s, a) && Withheld(s.mem, s.worker)
    ensures Helped(Apply(s, a)) <==> Releases(s, a)
  {
    match a
    case Loop => LoopKeepsWithheld(s.mem, s.worker);
    case Inside(t) =>
      var op := ThreadOp(s.threads[t]);
      ThreadOps(s.threads[t]);
      Exclusion(s, t);
      OpKeepsWithheld(s.mem, s.worker, t, op);
      NotifyOneKeepsOpen(Do(s.mem, t, op), s.worker);
      NotifyOneKeepsHand(Do(s.mem, t, op), s.worker);
    case Invoke(_, _) =>
    case AskCanceled =>
  }

  lemma OneOfFour(m: Memory, w: WorkerPc)
    ensures WillNotify(m, w) || Over(m, w) || Open(m, w) || Withheld(m, w)
  {
  }

  /** Over or withheld, and nobody has released the next task. */
  lemma StepStaysUnhelped(s: State, a: Action)
    requires Sound(s) && Enabled(s, a) && !Helped(s) && (Withheld(s.mem, s.worker) ==> !Releases(s, a))
    ensures !Helped(Apply(s, a))
  {
    OneOfFour(s.mem, s.worker);
    if Over(s.mem, s.worker) {
      OverExactly(s, a);
      NotBoth(Apply(s, a).mem, Apply(s, a).worker) by {
        KeepsSound(s, a);
      }
    } else {
      HelpBeginsExactly(s, a);
    }
  }

  lemma NotBoth(m: Memory, w: WorkerPc)
    requires Accounting(m, w) && Over(m, w)
    ensures !WillNotify(m, w) && !Open(m, w)
  {
    HandTable(m, w);
  }

  ghost predicate NobodyReleases(run: seq<State>, actions: seq<Action>)
    requires |run| == |actions| + 1
  {
    forall k {:trigger actions[k]} :: 0 <= k < |actions| ==>
      Withheld(run[k].mem, run[k].worker) ==> !Releases(run[k], actions[k])
  }

  predicate Unhelped(s: State, t: Tid) {
    !Helped(s) && t in s.threads && !Notified(s.threads[t])
  }

  lemma NoNotification(s: State, a: Action)
    requires !Helped(s)
    ensures !Notifies(s, a)
  {
  }

  lemma TraceStepWaits(run: seq<State>, actions: seq<Action>, n: nat, t: Tid)
    requires Trace(run, actions) && Inv(run[0]) && n < |actions| && Unhelped(run[n], t)
    requires Withheld(run[n].mem, run[n].worker) ==> !Releases(run[n], actions[n])
    ensures Unhelped(run[n + 1], t)
  {
    assert Enabled(run[n], actions[n]);
    NoNotification(run[n], actions[n]);
    StepNotifies(run[n], actions[n], t);
    StepStaysUnhelped(run[n], actions[n]) by {
      TraceSound(run, actions, n);
    }
  }

  lemma {:induction false} TraceWaits(run: seq<State>, actions: seq<Action>, n: nat, t: Tid)
    requires Trace(run, actions) && Inv(run[0]) && n <= |actions| && Unhelped(run[0], t) && NobodyReleases(run, actions)
    ensures Unhelped(run[n], t)
  {
    if n != 0 {
      TraceWaits(run, actions, n - 1, t);
      TraceStepWaits(run, actions, n - 1, t);
    }
  }

  /**
   While the next task is withheld, or the loop is over, and nobody releases one, nobody is notified in any
   continuation.
   */
  lemma WithheldSleeperWaits(run: seq<State>, actions: seq<Action>, t: Tid)
    requires Trace(run, actions) && Reachable(run[0]) && !Helped(run[0]) && NobodyReleases(run, actions)
    requires t in run[0].threads && !Notified(run[0].threads[t])
    ensures t in run[|actions|].threads && !Notified(run[|actions|].threads[t])
    ensures !Helped(run[|actions|])
  {
    TraceWaits(run, actions, |actions|, t) by {
      ReachableInv(run[0]);
    }
  }
}
