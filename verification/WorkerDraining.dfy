/** How long the worker takes to drain its queue up to a job that ends the loop. */
module WorkerDraining {
  import opened WorkerMachine
  import opened WorkerInvariants
  import opened WorkerShutdown
  import opened WorkerTheorems
  import opened WorkerWaiters

  /** How many steps of the loop there are up to and including the next removal from a queue that is open to it. */
  function ToDequeue(w: WorkerPc): nat {
    match w
    case PopUnlock(_) => 15
    case ResetCanceled(_) => 14
    case InTask(_) => 13
    case FinishLock(_) => 12
    case FinishClear(_) => 11
    case FinishNotify => 10
    case FinishUnlock => 9
    case RunTest => 8
    case PopLock => 7
    case EnterWait => 9
    case PopAsleep(_) => 8
    case PopRelock => 7
    case PredStopped => 6
    case PredBlocked => 5
    case PredEmpty => 4
    case CheckStopped => 3
    case Mark => 2
    case Front => 1
    case _ => 0
  }

  /** The loop is on its way out: it was told to stop, or has taken a job that ends it. */
  predicate Ends(m: Memory) {
    m.shutdown || LastIs(m, ShutdownJob) || LastIs(m, EmptyJob)
  }

  /** How many steps of the loop are left if the job that ends it is number `p` of the started and queued ones. */
  function Left(m: Memory, w: WorkerPc, p: nat): int {
    if Ends(m) then Rank(w) else ToDequeue(w) + 15 * (p - |m.started|) + 9
  }

  /** Number `p` of the started and queued jobs ends the loop, and is still queued unless that has happened. */
  ghost predicate Aims(m: Memory, p: nat) {
    && p < |m.started + m.queue|
    && (m.started + m.queue)[p] < |m.accepted| && Terminal(m.accepted[(m.started + m.queue)[p]])
    && (Ends(m) || |m.started| <= p)
  }

  lemma {:induction false} RemainingPrefix(n: nat, n': nat, dropped: set<nat>)
    requires n <= n'
    ensures Remaining(n, dropped) <= Remaining(n', dropped)
  {
    if n < n' {
      RemainingPrefix(n, n' - 1, dropped);
    }
  }

  /** Nothing dropped, a step keeps the started and queued jobs in their places. */
  lemma StepKeepsPlaces(m: Memory, w: WorkerPc, m': Memory, w': WorkerPc, p: nat)
    requires Accounting(m, w) && Accounting(m', w') && m.accepted <= m'.accepted && m'.dropped == m.dropped
    requires p < |m.started + m.queue|
    ensures p < |m'.started + m'.queue| && (m'.started + m'.queue)[p] == (m.started + m.queue)[p]
  {
    RemainingPrefix(|m.accepted|, |m'.accepted|, m.dropped);
  }

  // ---- the loop ----

  lemma DequeueAims(m: Memory, p: nat)
    requires Accounting(m, Front) && Aims(m, p) && !Ends(m)
    ensures var m' := Do(m, WORKER, Dequeue);
            && (Ends(m') || |m'.started| <= p)
            && Left(m', WorkerNext(m, Front), p) < Left(m, Front, p)
  {
    assert (m.started + m.queue)[|m.started|] == m.queue[0];
    AccountedStarts(m, Front);
  }

  /** An open queue with something in it brings the loop nearer to taking it. */
  lemma LoopApproaches(m: Memory, w: WorkerPc)
    requires Accounting(m, w) && CanDo(m, WorkerOp(w)) && !w.Front?
    requires !Ends(m) && !m.blocked && m.queue != []
    ensures ToDequeue(WorkerNext(m, w)) < ToDequeue(w)
  {
  }

  lemma EndDescends(m: Memory, w: WorkerPc)
    requires Accounting(m, w) && Ends(m) && StageOf(m, w, Idle) && !w.Exited? && CanDo(m, WorkerOp(w))
    ensures Rank(WorkerNext(m, w)) < Rank(w)
  {
    if m.shutdown {
      LoopDescends(m, w);
    }
  }

  lemma LoopKeepsEnds(m: Memory, w: WorkerPc)
    requires CanDo(m, WorkerOp(w)) && !w.Front?
    ensures Ends(Do(m, WORKER, WorkerOp(w))) == Ends(m)
    ensures |Do(m, WORKER, WorkerOp(w)).started| == |m.started|
  {
    LoopOps(w);
    QuietOpKeepsStarts(m, WORKER, WorkerOp(w));
  }

  lemma NoDequeueAtEnd(m: Memory, w: WorkerPc)
    requires StageOf(m, w, Idle) && w.Front? && !m.shutdown
    ensures !Ends(m)
  {
  }

  lemma DequeueAfterEnd(m: Memory)
    requires Accounting(m, Front) && m.shutdown
    ensures Ends(Do(m, WORKER, Dequeue))
    ensures Rank(WorkerNext(m, Front)) < Rank(Front)
  {
  }

  lemma LoopDrains(s: State, p: nat)
    requires Sound(s) && Ending(s) && WorkerEnabled(s) && Aims(s.mem, p) && (s.mem.shutdown || !s.mem.blocked)
    ensures var s' := WorkerStep(s);
            && (Ends(s'.mem) || |s'.mem.started| <= p)
            && Left(s'.mem, s'.worker, p) < Left(s.mem, s.worker, p)
  {
    var m, w := s.mem, s.worker;
    if w.Front? {
      if m.shutdown {
        DequeueAfterEnd(m);
      } else {
        NoDequeueAtEnd(m, w);
        DequeueAims(m, p);
      }
    } else {
      LoopKeepsEnds(m, w);
      if Ends(m) {
        EndDescends(m, w);
      } else {
        LoopApproaches(m, w);
      }
    }
  }

  // ---- the other threads ----

  lemma RankIsLess(w: WorkerPc)
    ensures Rank(w) <= ToDequeue(w) + 9
  {
  }

  lemma ThreadDrains(s: State, t: Tid, p: nat)
    requires Sound(s) && Ending(s) && ThreadEnabled(s, t) && Aims(s.mem, p)
    ensures var s' := ThreadStep(s, t);
            && (Ends(s'.mem) || |s'.mem.started| <= p)
            && Left(s'.mem, s'.worker, p) <= Left(s.mem, s.worker, p)
  {
    var op := ThreadOp(s.threads[t]);
    ThreadOps(s.threads[t]);
    PublicOpFrame(s.mem, t, op);
    AccountedStarts(s.mem, s.worker);
    FrameKeepsLastTask(s.mem, Do(s.mem, t, op), op);
    RankIsLess(s.worker);
  }

  lemma StepDrains(s: State, a: Action, p: nat)
    requires Sound(s) && Ending(s) && Enabled(s, a) && Aims(s.mem, p) && (s.mem.shutdown || !s.mem.blocked)
    ensures var s' := Apply(s, a);
            && (Ends(s'.mem) || |s'.mem.started| <= p)
            && Left(s'.mem, s'.worker, p) + (if a.Loop? then 1 else 0) <= Left(s.mem, s.worker, p)
  {
    match a
    case Loop => LoopDrains(s, p);
    case Inside(t) => ThreadDrains(s, t, p);
    case Invoke(_, _) =>
    case AskCanceled =>
  }

  lemma StepExtends(s: State, a: Action)
    requires Enabled(s, a)
    ensures s.mem.accepted <= Apply(s, a).mem.accepted
  {
    match a
    case Loop => LoopAccepts(s.mem, s.worker);
    case Inside(t) =>
      ThreadOps(s.threads[t]);
      PublicOpFrame(s.mem, t, ThreadOp(s.threads[t]));
    case Invoke(_, _) =>
    case AskCanceled =>
  }

  // ---- runs ----

  /** The loop is not paused before it is told to stop, and no clear takes anything away. */
  ghost predicate Unhindered(run: seq<State>) {
    forall i :: 0 <= i < |run| ==>
      (run[i].mem.shutdown || !run[i].mem.blocked) && run[i].mem.dropped == run[0].mem.dropped
  }

  lemma TraceEnding(run: seq<State>, actions: seq<Action>, n: nat)
    requires Trace(run, actions) && Inv(run[0]) && n <= |actions|
    ensures Sound(run[n]) && Ending(run[n])
  {
    TraceInv(run, actions, n);
  }

  lemma StepAims(s: State, a: Action, p: nat)
    requires Sound(s) && Enabled(s, a) && Aims(s.mem, p) && Sound(Apply(s, a))
    requires Apply(s, a).mem.dropped == s.mem.dropped
    requires Ends(Apply(s, a).mem) || |Apply(s, a).mem.started| <= p
    ensures Aims(Apply(s, a).mem, p)
  {
    var s' := Apply(s, a);
    StepExtends(s, a);
    StepKeepsPlaces(s.mem, s.worker, s'.mem, s'.worker, p);
  }

  lemma StepNears(s: State, a: Action, s': State, p: nat)
    requires Sound(s) && Ending(s) && Enabled(s, a) && s' == Apply(s, a) && Aims(s.mem, p) && Sound(s')
    requires (s.mem.shutdown || !s.mem.blocked) && s'.mem.dropped == s.mem.dropped
    ensures Nears(s, s', p, if a.Loop? then 1 else 0)
  {
    StepDrains(s, a, p);
    StepAims(s, a, p);
  }

  ghost predicate Nears(s: State, s': State, p: nat, steps: nat) {
    Aims(s'.mem, p) && Left(s'.mem, s'.worker, p) + steps <= Left(s.mem, s.worker, p)
  }

  lemma StepOfRun(run: seq<State>, actions: seq<Action>, n: nat)
    requires Trace(run, actions) && n < |actions|
    ensures Enabled(run[n], actions[n]) && run[n + 1] == Apply(run[n], actions[n])
  {
  }

  lemma SoundAround(run: seq<State>, actions: seq<Action>, n: nat)
    requires Trace(run, actions) && Inv(run[0]) && n < |actions|
    ensures Sound(run[n]) && Ending(run[n]) && Sound(run[n + 1])
  {
    TraceEnding(run, actions, n);
    TraceSound(run, actions, n + 1);
  }

  lemma TraceStepDrains(run: seq<State>, actions: seq<Action>, n: nat, p: nat)
    requires Trace(run, actions) && Inv(run[0]) && n < |actions| && Aims(run[n].mem, p)
    requires run[n].mem.shutdown || !run[n].mem.blocked
    requires run[n + 1].mem.dropped == run[n].mem.dropped
    ensures Nears(run[n], run[n + 1], p, if actions[n].Loop? then 1 else 0)
  {
    StepOfRun(run, actions, n);
    SoundAround(run, actions, n);
    StepNears(run[n], actions[n], run[n + 1], p);
  }

  lemma UnhinderedAt(run: seq<State>, n: nat)
    requires Unhindered(run) && n + 1 < |run|
    ensures run[n].mem.shutdown || !run[n].mem.blocked
    ensures run[n + 1].mem.dropped == run[n].mem.dropped
  {
  }

  lemma NearsNext(run: seq<State>, actions: seq<Action>, n: nat, p: nat)
    requires Trace(run, actions) && Inv(run[0]) && n < |actions| && Unhindered(run)
    requires Nears(run[0], run[n], p, LoopSteps(actions[..n]))
    ensures Nears(run[0], run[n + 1], p, LoopSteps(actions[..n + 1]))
  {
    LoopStepsNext(actions, n);
    UnhinderedAt(run, n);
    TraceStepDrains(run, actions, n, p);
  }

  lemma NothingNearer(s: State, p: nat)
    requires Aims(s.mem, p)
    ensures Nears(s, s, p, 0)
  {
  }

  lemma {:induction false} TraceDrains(run: seq<State>, actions: seq<Action>, n: nat, p: nat)
    requires Trace(run, actions) && Inv(run[0]) && n <= |actions| && Unhindered(run) && Aims(run[0].mem, p)
    ensures Nears(run[0], run[n], p, LoopSteps(actions[..n]))
  {
    if n == 0 {
      NothingNearer(run[0], p);
    } else {
      TraceDrains(run, actions, n - 1, p);
      NearsNext(run, actions, n - 1, p);
    }
  }

  /**
   With a planned shutdown queued behind `k` other jobs, no pause and no clear that takes anything away, the loop
   ends within fifteen of its own steps for each of those jobs and at most twenty-four more.
   */
  lemma DrainIsBounded(run: seq<State>, actions: seq<Action>, k: nat)
    requires Trace(run, actions) && Reachable(run[0]) && Unhindered(run)
    requires k < |run[0].mem.queue| && Is(run[0].mem, run[0].mem.queue[k], ShutdownJob)
    ensures LoopSteps(actions) <= 15 * k + 24
    ensures LoopSteps(actions) >= ToDequeue(run[0].worker) + 15 * k + 9 ==> run[|actions|].worker.Exited?
  {
    var m, w, p := run[0].mem, run[0].worker, |run[0].mem.started| + k;
    assert (m.started + m.queue)[p] == m.queue[k];
    assert Aims(m, p);
    TraceDrains(run, actions, |actions|, p) by {
      ReachableInv(run[0]);
    }
    assert actions[..|actions|] == actions;
    LeftBounds(m, w, p);
    LeftBounds(run[|actions|].mem, run[|actions|].worker, p);
  }

  lemma LeftBounds(m: Memory, w: WorkerPc, p: nat)
    requires Aims(m, p)
    ensures 0 <= Left(m, w, p)
    ensures |m.started| <= p ==> Left(m, w, p) <= ToDequeue(w) + 15 * (p - |m.started|) + 9
    ensures ToDequeue(w) <= 15
    ensures Left(m, w, p) == 0 ==> w.Exited?
  {
    RankIsLess(w);
    RankBounds(w);
  }
}
