/** Sleeping and waking: the worker inside `pop`, and the callers of the two waits. */
module WorkerWakeups {
  import opened WorkerMachine
  import opened WorkerInvariants

  // ---- the worker asleep in pop ----

  /** Inside `push`, `block` or `emit_shutdown`, after the store and before the notification that follows it. */
  predicate Pending(pc: Pc) {
    match pc
    case ShutdownBlock(_) => true
    case BlockLock(_) => true
    case BlockNotify(_) => true
    case PushNotify(_) => true
    case _ => false
  }

  ghost predicate SomePending(threads: map<Tid, Pc>) {
    exists t <- threads :: Pending(threads[t])
  }

  /** The worker has read `m_shutdown` as false and has not been notified since. */
  predicate TrustsRunning(w: WorkerPc) {
    match w
    case PredBlocked => true
    case PredEmpty => true
    case EnterWait => true
    case PopAsleep(notified) => !notified
    case _ => false
  }

  /** The worker has found the loop paused or the queue empty and has not been notified since. */
  predicate TrustsIdle(w: WorkerPc) {
    match w
    case EnterWait => true
    case PopAsleep(notified) => !notified
    case _ => false
  }

  predicate Stale(m: Memory, w: WorkerPc) {
    || (TrustsRunning(w) && m.shutdown)
    || (TrustsIdle(w) && !m.blocked && m.queue != [])
  }

  /** What the worker relies on is still so, or a notification is on its way. */
  ghost predicate NoLostWakeup(s: State) {
    Stale(s.mem, s.worker) ==> SomePending(s.threads)
  }

  lemma PendingTable(m: Memory, pc: Pc)
    ensures ThreadOp(pc).StoreShutdown? || ThreadOp(pc).StoreBlocked? || ThreadOp(pc).Enqueue? ==>
              Pending(NextPc(m, pc))
    ensures Pending(pc) ==> Pending(NextPc(m, pc)) || ThreadOp(pc) == NotifyNonempty
    ensures ThreadOp(pc) == NotifyNonempty ==> HoldsQueue(pc)
  {
  }

  lemma StaleOnlyByStore(m: Memory, t: Tid, op: Op, w: WorkerPc)
    requires CanDo(m, op) && PublicOp(op) && !op.StoreShutdown? && !op.StoreBlocked? && !op.Enqueue?
    requires Stale(Do(m, t, op), w)
    ensures Stale(m, w)
  {
  }

  lemma ThreadKeepsNoLostWakeup(s: State, t: Tid)
    requires Sound(s) && NoLostWakeup(s) && ThreadEnabled(s, t)
    ensures NoLostWakeup(ThreadStep(s, t))
  {
    var pc := s.threads[t];
    var s' := ThreadStep(s, t);
    Exclusion(s, t);
    ThreadOps(pc);
    PendingTable(s.mem, pc);
    if ThreadOp(pc) == NotifyNonempty {
      assert !Stale(s'.mem, s'.worker);
    } else if Pending(s'.threads[t]) {
    } else if Stale(s'.mem, s'.worker) {
      StaleOnlyByStore(s.mem, t, ThreadOp(pc), s.worker);
      var u :| u in s.threads && Pending(s.threads[u]);
      assert Pending(s'.threads[u]);
    }
  }

  lemma StaleLoop(m: Memory, w: WorkerPc)
    requires CanDo(m, WorkerOp(w)) && Stale(Do(m, WORKER, WorkerOp(w)), WorkerNext(m, w))
    ensures Stale(m, w)
  {
  }

  lemma LoopKeepsNoLostWakeup(s: State)
    requires NoLostWakeup(s) && WorkerEnabled(s)
    ensures NoLostWakeup(WorkerStep(s))
  {
    var s' := WorkerStep(s);
    if Stale(s'.mem, s'.worker) {
      StaleLoop(s.mem, s.worker);
      WorkerMovesThreads(s);
      var u :| u in s.threads && Pending(s.threads[u]);
      assert Pending(s'.threads[u]);
    }
  }

  lemma KeepsNoLostWakeup(s: State, a: Action)
    requires Sound(s) && NoLostWakeup(s) && Enabled(s, a)
    ensures NoLostWakeup(Apply(s, a))
  {
    match a
    case Loop => LoopKeepsNoLostWakeup(s);
    case Inside(t) => ThreadKeepsNoLostWakeup(s, t);
    case Invoke(t, call) =>
      var s' := Apply(s, a);
      if Stale(s.mem, s.worker) {
        var u :| u in s.threads && Pending(s.threads[u]);
        assert Pending(s'.threads[u]);
      }
    case AskCanceled =>
  }

  // ---- the callers of wait_running_task and wait_completion ----

  /** What a finished wait reports stays true while its caller holds `m_mutex`, without which no task completes. */
  ghost predicate ReportHolds(m: Memory, r: Report) {
    && r.startedIdle == m.finished
    && r.startedIdle <= r.startedEmpty <= r.startedIdle + 1
    && r.startedEmpty <= |m.started|
    && r.accepted <= |m.accepted|
    && (r.kind == Running ==> r.startedEmpty == r.startedIdle)
    && (r.kind == Completion ==>
          && (forall id: nat :: id < r.accepted ==> id in m.dropped || id in m.started[..r.startedEmpty])
          && (forall i {:trigger m.started[i]} :: 0 <= i < r.startedEmpty ==> m.started[i] < r.accepted))
  }

  /** What is so while a thread is at `pc` of a wait. */
  ghost predicate WaitHolds(m: Memory, w: WorkerPc, pc: Pc) {
    match pc
    case WaitEmptyLock(n) => n == m.finished
    case WaitEmpty(n) => n == m.finished
    case WaitEmptyUnlock(result) => result.Some? ==> ReportHolds(m, result.value)
    case WaitSleep(kind) => kind == Running ==> m.executing
    case Asleep(kind, notified) => kind == Running && !notified ==> m.executing || w.FinishNotify?
    case WaitUnlock(report) => ReportHolds(m, report)
    case _ => true
  }

  ghost predicate AllWaitsHold(s: State) {
    forall t <- s.threads :: WaitHolds(s.mem, s.worker, s.threads[t])
  }

  lemma FrameKeepsReport(m: Memory, m': Memory, r: Report)
    requires ReportHolds(m, r)
    requires m.started <= m'.started && m.finished == m'.finished
    requires m.accepted <= m'.accepted && m.dropped <= m'.dropped
    ensures ReportHolds(m', r)
  {
    assert m.started[..r.startedEmpty] == m'.started[..r.startedEmpty];
  }

  lemma PublicOpKeepsWait(m: Memory, w: WorkerPc, t: Tid, op: Op, pc: Pc)
    requires Accounting(m, w) && WaitHolds(m, w, pc) && CanDo(m, op) && PublicOp(op)
    ensures WaitHolds(Do(m, t, op), w, pc)
  {
    var m' := Do(m, t, op);
    PublicOpFrame(m, t, op);
    match pc
    case WaitEmptyUnlock(result) => if result.Some? { FrameKeepsReport(m, m', result.value); }
    case WaitUnlock(report) => FrameKeepsReport(m, m', report);
    case _ =>
  }

  /** What a step of the loop cannot change. */
  predicate LoopFrame(m: Memory, w: WorkerPc, m': Memory, w': WorkerPc) {
    && m.started <= m'.started && m'.accepted == m.accepted && m'.dropped == m.dropped
    && m'.finished == m.finished + (if w.FinishClear? then 1 else 0)
    && (m.executing && !w.FinishClear? ==> m'.executing)
    && (w.FinishClear? <==> w'.FinishNotify?)
  }

  lemma LoopHasFrame(m: Memory, w: WorkerPc)
    requires Accounting(m, w) && CanDo(m, WorkerOp(w))
    ensures LoopFrame(m, w, Do(m, WORKER, WorkerOp(w)), WorkerNext(m, w))
  {
    if !w.Front? {
      WorkerOpFrame(m, w);
    }
  }

  lemma LoopKeepsWait(m: Memory, w: WorkerPc, m': Memory, w': WorkerPc, pc: Pc)
    requires WaitHolds(m, w, pc) && LoopFrame(m, w, m', w')
    requires HoldsMutex(pc) ==> !w.FinishClear?
    requires w.FinishNotify? && pc.Asleep? ==> pc.notified
    ensures WaitHolds(m', w', pc)
  {
    match pc
    case WaitEmptyUnlock(result) => if result.Some? { FrameKeepsReport(m, m', result.value); }
    case WaitUnlock(report) => FrameKeepsReport(m, m', report);
    case _ =>
  }

  lemma NextWaitHolds(m: Memory, w: WorkerPc, pc: Pc)
    requires Accounting(m, w) && WaitHolds(m, w, pc)
    ensures WaitHolds(m, w, NextPc(m, pc))
  {
    RemainingElements(|m.accepted|, m.dropped);
    assert m.started[..|m.started|] == m.started;
    assert m.queue == [] ==> m.started + m.queue == m.started;
    assert forall i :: 0 <= i < |m.started| ==> m.started[i] in m.started + m.queue;
  }

  lemma ThreadKeepsWaits(s: State, t: Tid)
    requires Sound(s) && AllWaitsHold(s) && ThreadEnabled(s, t)
    ensures AllWaitsHold(ThreadStep(s, t))
  {
    var s' := ThreadStep(s, t);
    var op := ThreadOp(s.threads[t]);
    ThreadOps(s.threads[t]);
    NextWaitHolds(s.mem, s.worker, s.threads[t]);
    forall u <- s'.threads ensures WaitHolds(s'.mem, s'.worker, s'.threads[u]) {
      assert WaitHolds(s.mem, s.worker, s.threads[u]);
      PublicOpKeepsWait(s.mem, s.worker, t, op, s'.threads[u]);
      NotifyOneKeepsWait(s'.mem, s.worker, s'.threads[u]);
    }
  }

  lemma NotifyOneKeepsWait(m: Memory, w: WorkerPc, pc: Pc)
    requires WaitHolds(m, w, pc)
    ensures WaitHolds(m, NotifyOne(w), pc)
  {
  }

  lemma LoopKeepsWaits(s: State)
    requires Sound(s) && AllWaitsHold(s) && WorkerEnabled(s)
    ensures AllWaitsHold(WorkerStep(s))
  {
    var s' := WorkerStep(s);
    LoopHasFrame(s.mem, s.worker);
    WorkerMovesThreads(s);
    forall u <- s'.threads ensures WaitHolds(s'.mem, s'.worker, s'.threads[u]) {
      assert WaitHolds(s.mem, s.worker, s.threads[u]);
      Exclusion(s, u);
      LoopKeepsWait(s.mem, s.worker, s'.mem, s'.worker, s'.threads[u]);
    }
  }

  lemma KeepsWaits(s: State, a: Action)
    requires Sound(s) && AllWaitsHold(s) && Enabled(s, a)
    ensures AllWaitsHold(Apply(s, a))
  {
    var s' := Apply(s, a);
    match a
    case Loop => LoopKeepsWaits(s);
    case Inside(t) => ThreadKeepsWaits(s, t);
    case Invoke(t, call) => ChangeKeepsWaits(s, s', t);
    case AskCanceled => ChangeKeepsWaits(s, s', WORKER);
  }

  /** Only histories change, and thread `t` moves to a place where nothing is claimed. */
  lemma ChangeKeepsWaits(s: State, s': State, t: Tid)
    requires AllWaitsHold(s) && t in s.threads && s'.worker == s.worker
    requires s'.mem == s.mem.(foreignShutdown := s'.mem.foreignShutdown, log := s'.mem.log)
    requires s'.threads == s.threads || exists call :: s'.threads == s.threads[t := Entry(call)]
    ensures AllWaitsHold(s')
  {
    forall u <- s'.threads ensures WaitHolds(s'.mem, s'.worker, s'.threads[u]) {
      assert WaitHolds(s.mem, s.worker, s.threads[u]);
    }
  }
}
