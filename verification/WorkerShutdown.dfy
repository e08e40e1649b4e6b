/** How the worker ends. */
module WorkerShutdown {
  import opened WorkerMachine
  import opened WorkerInvariants

  // ---- the last task ----

  /** After such a job the loop does not take another one. */
  predicate Terminal(job: Job) {
    job != Body
  }

  predicate LastIs(m: Memory, job: Job) {
    m.started != [] && Is(m, m.started[|m.started| - 1], job)
  }

  predicate OnlyLastTerminal(m: Memory) {
    forall i {:trigger m.started[i]} :: 0 <= i < |m.started| - 1 ==> Is(m, m.started[i], Body)
  }

  /** The worker has a task in hand, or is between two tasks, or is leaving. */
  predicate Winding(w: WorkerPc) {
    match w
    case PopUnlock(_) => true
    case ResetCanceled(_) => true
    case _ => Finishing(w)
  }

  predicate Finishing(w: WorkerPc) {
    match w
    case InTask(_) => true
    case FinishLock(_) => true
    case FinishClear(_) => true
    case FinishNotify => true
    case FinishUnlock => true
    case RunTest => true
    case Leaving(_) => true
    case Exited(_) => true
    case _ => false
  }

  /**
   The worker stands at `w`, its thread at `pc` inside a call of its task; the task started last was empty,
   or was the closure of `planned_shutdown`.
   */
  predicate Stage(lastEmpty: bool, lastShutdown: bool, shutdown: bool, foreign: bool, w: WorkerPc, pc: Pc) {
    && (lastEmpty ==> w.PopUnlock? || w == Leaving(true) || w == Exited(true))
    && (lastShutdown ==>
          && Winding(w)
          && (w.PopUnlock? || w.ResetCanceled? || (w.InTask? && pc.ShutdownStore?) || shutdown))
    && (shutdown && !foreign ==> lastShutdown && Finishing(w))
  }

  predicate StageOf(m: Memory, w: WorkerPc, pc: Pc) {
    Stage(LastIs(m, EmptyJob), LastIs(m, ShutdownJob), m.shutdown, m.foreignShutdown, w, pc)
  }

  ghost predicate OwnShutdown(s: State) {
    !s.mem.foreignShutdown ==>
      forall t <- s.threads :: s.threads[t].ShutdownStore? ==>
        t == WORKER && s.worker.InTask? && LastIs(s.mem, ShutdownJob)
  }

  ghost predicate Ending(s: State) {
    && WORKER in s.threads
    && OnlyLastTerminal(s.mem)
    && StageOf(s.mem, s.worker, s.threads[WORKER])
    && OwnShutdown(s)
  }

  predicate StartedAccepted(m: Memory) {
    forall i {:trigger m.started[i]} :: 0 <= i < |m.started| ==> m.started[i] < |m.accepted|
  }

  lemma AccountedStarts(m: Memory, w: WorkerPc)
    requires Accounting(m, w)
    ensures StartedAccepted(m)
    ensures m.queue != [] ==> m.queue[0] < |m.accepted|
  {
    RemainingElements(|m.accepted|, m.dropped);
    assert forall i :: 0 <= i < |m.started| ==> m.started[i] in m.started + m.queue;
    assert m.queue != [] ==> m.queue[0] in m.started + m.queue;
  }

  lemma FrameKeepsLastTask(m: Memory, m': Memory, op: Op)
    requires StartedAccepted(m) && Frame(m, m', op)
    ensures LastIs(m, EmptyJob) == LastIs(m', EmptyJob) && LastIs(m, ShutdownJob) == LastIs(m', ShutdownJob)
    ensures OnlyLastTerminal(m) ==> OnlyLastTerminal(m')
  {
  }

  lemma StoreKeepsStage(empty: bool, last: bool, shutdown: bool, foreign: bool, op: Op, w: WorkerPc, pc: Pc, pc': Pc)
    requires Stage(empty, last, shutdown, foreign, w, pc)
    requires op == StoreShutdown && !foreign ==> last && w.InTask?
    requires pc.ShutdownStore? && !pc'.ShutdownStore? ==> op == StoreShutdown
    ensures Stage(empty, last, shutdown || op == StoreShutdown, foreign, w, pc')
    ensures Stage(empty, last, shutdown || op == StoreShutdown, foreign, NotifyOne(w), pc')
  {
  }

  lemma LoopKeepsStage(empty: bool, last: bool, m: Memory, w: WorkerPc, pc': Pc)
    requires Stage(empty, last, m.shutdown, m.foreignShutdown, w, Idle)
    requires !w.Front? && !w.Exited? && !(empty && last)
    requires w.PopUnlock? ==> (empty <==> Is(m, w.task, EmptyJob))
    requires w.ResetCanceled? && last ==> pc'.ShutdownStore?
    ensures Stage(empty, last, m.shutdown, m.foreignShutdown, WorkerNext(m, w), pc')
  {
  }

  lemma ShutdownStoreTable(m: Memory, pc: Pc)
    ensures pc.ShutdownStore? <==> ThreadOp(pc) == StoreShutdown
    ensures !NextPc(m, pc).ShutdownStore?
  {
  }

  lemma ThreadKeepsEnding(s: State, t: Tid)
    requires Sound(s) && Ending(s) && ThreadEnabled(s, t)
    ensures Ending(ThreadStep(s, t))
  {
    var op := ThreadOp(s.threads[t]);
    var s' := ThreadStep(s, t);
    ThreadOps(s.threads[t]);
    ShutdownStoreTable(s.mem, s.threads[t]);
    PublicOpFrame(s.mem, t, op);
    AccountedStarts(s.mem, s.worker);
    FrameKeepsLastTask(s.mem, s'.mem, op);
    StoreKeepsStage(LastIs(s.mem, EmptyJob), LastIs(s.mem, ShutdownJob), s.mem.shutdown, s.mem.foreignShutdown,
                    op, s.worker, s.threads[WORKER], s'.threads[WORKER]);
  }

  lemma DequeueKeepsEnding(s: State)
    requires Sound(s) && Ending(s) && WorkerEnabled(s) && s.worker.Front?
    ensures Ending(WorkerStep(s))
  {
    AccountedStarts(s.mem, s.worker);
    var m, m' := s.mem, WorkerStep(s).mem;
    assert m.started != [] ==> Is(m, m.started[|m.started| - 1], Body);
    assert m'.started == m.started + [m.queue[0]];
  }

  lemma LoopKeepsEnding(s: State)
    requires Sound(s) && Ending(s) && WorkerEnabled(s) && !s.worker.Front?
    ensures Ending(WorkerStep(s))
  {
    var s' := WorkerStep(s);
    LoopOps(s.worker);
    QuietOpKeepsStarts(s.mem, WORKER, WorkerOp(s.worker));
    WorkerMovesThreads(s);
    assert StageOf(s'.mem, s'.worker, s'.threads[WORKER]) by {
      LoopKeepsStageOf(s);
    }
    assert OwnShutdown(s') by {
      LoopKeepsOwnShutdown(s);
    }
  }

  lemma SameStartsSameStage(m: Memory, m': Memory, w: WorkerPc, pc: Pc)
    requires SameStarts(m, m') && StageOf(m, w, pc)
    ensures StageOf(m', w, pc)
  {
    SameStartsSameLast(m, m', EmptyJob);
    SameStartsSameLast(m, m', ShutdownJob);
    assert Stage(LastIs(m', EmptyJob), LastIs(m', ShutdownJob), m'.shutdown, m'.foreignShutdown, w, pc);
  }

  lemma SameStartsSameLast(m: Memory, m': Memory, job: Job)
    requires SameStarts(m, m')
    ensures LastIs(m', job) == LastIs(m, job)
  {
  }

  lemma NotBothLast(m: Memory)
    ensures !(LastIs(m, EmptyJob) && LastIs(m, ShutdownJob))
  {
  }

  /** What the loop's own position says of the task in hand. */
  lemma TaskInHandIsLast(m: Memory, w: WorkerPc)
    requires Accounting(m, w)
    ensures w.PopUnlock? ==> (LastIs(m, EmptyJob) <==> Is(m, w.task, EmptyJob))
    ensures w.ResetCanceled? ==> (LastIs(m, ShutdownJob) <==> Is(m, w.task, ShutdownJob))
  {
  }

  lemma LoopKeepsStageOf(s: State)
    requires Ending(s) && Sound(s) && WorkerEnabled(s) && !s.worker.Front?
    ensures var s' := WorkerStep(s); StageOf(s'.mem, s'.worker, s'.threads[WORKER])
  {
    var s' := WorkerStep(s);
    NotBothLast(s.mem);
    TaskInHandIsLast(s.mem, s.worker);
    LoopKeepsStage(LastIs(s.mem, EmptyJob), LastIs(s.mem, ShutdownJob), s.mem, s.worker, s'.threads[WORKER]);
    assert StageOf(s.mem, s'.worker, s'.threads[WORKER]);
    LoopOps(s.worker);
    QuietOpKeepsStarts(s.mem, WORKER, WorkerOp(s.worker));
    SameStartsSameStage(s.mem, s'.mem, s'.worker, s'.threads[WORKER]);
  }

  lemma LoopKeepsOwnShutdown(s: State)
    requires Ending(s) && Sound(s) && WorkerEnabled(s) && !s.worker.Front?
    ensures OwnShutdown(WorkerStep(s))
  {
    LoopOps(s.worker);
    QuietOpKeepsStarts(s.mem, WORKER, WorkerOp(s.worker));
    WorkerMovesThreads(s);
  }

  /** Operations that neither start, accept nor drop a task, nor shut the loop down. */
  predicate QuietOp(op: Op) {
    match op
    case Dequeue => false
    case Enqueue(_, _, _) => false
    case Swap => false
    case StoreShutdown => false
    case _ => true
  }

  lemma LoopOps(w: WorkerPc)
    ensures QuietOp(WorkerOp(w)) <==> !w.Front?
  {
  }

  predicate SameStarts(m: Memory, m': Memory) {
    && m'.started == m.started && m'.accepted == m.accepted
    && m'.shutdown == m.shutdown && m'.foreignShutdown == m.foreignShutdown
    && m'.dropped == m.dropped && m'.droppedLive == m.droppedLive && m'.posted == m.posted
  }

  lemma QuietOpKeepsStarts(m: Memory, t: Tid, op: Op)
    requires CanDo(m, op) && QuietOp(op)
    ensures SameStarts(m, Do(m, t, op))
  {
  }

  lemma KeepsEnding(s: State, a: Action)
    requires Sound(s) && Ending(s) && Enabled(s, a)
    ensures Ending(Apply(s, a))
  {
    match a
    case Loop => if s.worker.Front? { DequeueKeepsEnding(s); } else { LoopKeepsEnding(s); }
    case Inside(t) => ThreadKeepsEnding(s, t);
    case Invoke(t, call) => InvokeKeepsEnding(s, t, call);
    case AskCanceled =>
  }

  lemma InvokeKeepsEnding(s: State, t: Tid, call: Call)
    requires Sound(s) && Ending(s) && Enabled(s, Invoke(t, call))
    ensures Ending(Apply(s, Invoke(t, call)))
  {
    var m, m' := s.mem, Apply(s, Invoke(t, call)).mem;
    assert LastIs(m, EmptyJob) == LastIs(m', EmptyJob) && LastIs(m, ShutdownJob) == LastIs(m', ShutdownJob);
  }

  // ---- nothing dropped ----

  /** As long as no clear has taken effect before the end, tasks start one by one as they were accepted. */
  predicate Undisturbed(m: Memory) {
    !m.droppedLive ==> m.started == Upto(|m.started|) && (m.ended || m.dropped == {})
  }

  lemma DequeueKeepsUndisturbed(m: Memory)
    requires Accounting(m, Front) && Undisturbed(m)
    ensures Undisturbed(Do(m, WORKER, Dequeue))
  {
    if !m.droppedLive {
      RemainingOfAll(|m.accepted|);
      assert m.queue[0] == (m.started + m.queue)[|m.started|] == |m.started|;
    }
  }

  lemma PublicOpKeepsUndisturbed(m: Memory, t: Tid, op: Op)
    requires CanDo(m, op) && PublicOp(op) && Undisturbed(m)
    ensures Undisturbed(Do(m, t, op))
  {
    PublicOpFrame(m, t, op);
  }

  lemma QuietOpKeepsUndisturbed(m: Memory, t: Tid, op: Op)
    requires CanDo(m, op) && QuietOp(op) && Undisturbed(m)
    ensures Undisturbed(Do(m, t, op))
  {
    QuietOpKeepsStarts(m, t, op);
  }

  lemma KeepsUndisturbed(s: State, a: Action)
    requires Sound(s) && Undisturbed(s.mem) && Enabled(s, a)
    ensures Undisturbed(Apply(s, a).mem)
  {
    match a
    case Loop =>
      if s.worker.Front? {
        DequeueKeepsUndisturbed(s.mem);
      } else {
        LoopOps(s.worker);
        QuietOpKeepsUndisturbed(s.mem, WORKER, WorkerOp(s.worker));
      }
    case Inside(t) =>
      ThreadOps(s.threads[t]);
      PublicOpKeepsUndisturbed(s.mem, t, ThreadOp(s.threads[t]));
    case Invoke(_, _) =>
    case AskCanceled =>
  }

  // ---- after m_shutdown ----

  /** The worker has passed its last test of `m_shutdown` and is about to take a task. */
  predicate Committed(w: WorkerPc) {
    w.Mark? || w.Front?
  }

  function Starts(s: State): nat {
    |s.mem.started| + if Committed(s.worker) then 1 else 0
  }

  /** How many steps of the loop are left at most once `m_shutdown` is true. */
  function Rank(w: WorkerPc): nat {
    match w
    case Mark => 11
    case Front => 10
    case PopUnlock(_) => 9
    case ResetCanceled(_) => 8
    case InTask(_) => 7
    case FinishLock(_) => 6
    case FinishClear(_) => 5
    case FinishNotify => 4
    case FinishUnlock => 3
    case RunTest => 2
    case PredBlocked => 9
    case PredEmpty => 8
    case EnterWait => 7
    case PopAsleep(_) => 6
    case PopRelock => 5
    case PopLock => 5
    case PredStopped => 4
    case CheckStopped => 3
    case EndUnlock => 2
    case Leaving(_) => 1
    case Exited(_) => 0
  }

  lemma LoopDescends(m: Memory, w: WorkerPc)
    requires m.shutdown && !w.Exited? && CanDo(m, WorkerOp(w))
    ensures Rank(WorkerNext(m, w)) < Rank(w)
    ensures Committed(WorkerNext(m, w)) ==> w.Mark?
  {
  }

  lemma StepAfterShutdown(s: State, a: Action)
    requires Enabled(s, a) && s.mem.shutdown
    ensures var s' := Apply(s, a);
            && s'.mem.shutdown && Starts(s') <= Starts(s)
            && Rank(s'.worker) + (if a.Loop? then 1 else 0) <= Rank(s.worker)
  {
    match a
    case Loop =>
      LoopDescends(s.mem, s.worker);
      LoopOps(s.worker);
      if !s.worker.Front? {
        QuietOpKeepsStarts(s.mem, WORKER, WorkerOp(s.worker));
      }
    case Inside(t) =>
      ThreadOps(s.threads[t]);
      PublicOpFrame(s.mem, t, ThreadOp(s.threads[t]));
    case Invoke(_, _) =>
    case AskCanceled =>
  }
}
