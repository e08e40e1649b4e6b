/** What every step of the worker machine keeps. */
module WorkerInvariants {
  import opened Prelude
  import opened WorkerMachine

  // ---- locks ----

  predicate HoldsQueue(pc: Pc) {
    match pc
    case PushStore(_, _, _) => true
    case PushNotify(_) => true
    case PushUnlock(_) => true
    case ClearSwap(_) => true
    case ClearUnlock(_) => true
    case BlockNotify(_) => true
    case BlockUnlock(_) => true
    case WaitEmpty(_) => true
    case WaitEmptyUnlock(_) => true
    case _ => false
  }

  /** Past the switch of `post`, before the job is in the queue. */
  predicate PastSwitch(pc: Pc) {
    match pc
    case PostCancel(_) => true
    case ClearLock(next) => next.Some?
    case ClearSwap(next) => next.Some?
    case ClearUnlock(next) => next.Some?
    case PushLock(_, _, posting) => posting
    case PushStore(_, _, posting) => posting
    case _ => false
  }

  predicate HoldsMutex(pc: Pc) {
    match pc
    case PostSwitch(_, _) => true
    case PostUnlock => true
    case PushNotify(posting) => posting
    case PushUnlock(posting) => posting
    case WaitExecuting(_) => true
    case WaitEmptyLock(_) => true
    case WaitEmpty(_) => true
    case WaitEmptyUnlock(_) => true
    case WaitSleep(_) => true
    case WaitUnlock(_) => true
    case _ => PastSwitch(pc)
  }

  predicate WorkerHoldsQueue(w: WorkerPc) {
    match w
    case PredStopped => true
    case PredBlocked => true
    case PredEmpty => true
    case EnterWait => true
    case CheckStopped => true
    case EndUnlock => true
    case Mark => true
    case Front => true
    case PopUnlock(_) => true
    case _ => false
  }

  predicate WorkerHoldsMutex(w: WorkerPc) {
    w.FinishClear? || w.FinishNotify? || w.FinishUnlock?
  }

  predicate Waiting(pc: Pc) {
    match pc
    case WaitLock(_) => true
    case WaitExecuting(_) => true
    case WaitEmptyLock(_) => true
    case WaitEmpty(_) => true
    case WaitEmptyUnlock(_) => true
    case WaitSleep(_) => true
    case Asleep(_, _) => true
    case WaitRelock(_) => true
    case WaitUnlock(_) => true
    case Join => true
    case _ => false
  }

  predicate HoldsQueueAt(s: State, t: Tid)
    requires t in s.threads
  {
    HoldsQueue(s.threads[t]) || (t == WORKER && WorkerHoldsQueue(s.worker))
  }

  predicate HoldsMutexAt(s: State, t: Tid)
    requires t in s.threads
  {
    HoldsMutex(s.threads[t]) || (t == WORKER && WorkerHoldsMutex(s.worker))
  }

  predicate LocksAt(s: State, t: Tid)
    requires t in s.threads
  {
    && (s.mem.queueMutex == Some(t) <==> HoldsQueueAt(s, t))
    && (s.mem.mutex == Some(t) <==> HoldsMutexAt(s, t))
  }

  /** Each mutex is held by exactly the thread whose position says so; the worker's thread is in one place. */
  ghost predicate Locks(s: State) {
    && WORKER in s.threads
    && (s.worker.InTask? || s.threads[WORKER] == Idle)
    && !Waiting(s.threads[WORKER])
    && (s.mem.queueMutex.Some? ==> s.mem.queueMutex.value in s.threads)
    && (s.mem.mutex.Some? ==> s.mem.mutex.value in s.threads)
    && (forall t <- s.threads :: LocksAt(s, t))
  }

  /** Whether a lock is held after `op` by the thread that did it. */
  function After(op: Op, lock: Op, unlock: Op, held: bool): bool {
    if op == lock then true else if op == unlock then false else held
  }

  lemma ThreadTable(m: Memory, pc: Pc)
    ensures HoldsQueue(NextPc(m, pc)) == After(ThreadOp(pc), LockQueue, UnlockQueue, HoldsQueue(pc))
    ensures HoldsMutex(NextPc(m, pc)) == After(ThreadOp(pc), LockMutex, UnlockMutex, HoldsMutex(pc))
    ensures ThreadOp(pc) == UnlockQueue ==> HoldsQueue(pc)
    ensures ThreadOp(pc) == UnlockMutex ==> HoldsMutex(pc)
    ensures Waiting(NextPc(m, pc)) ==> Waiting(pc)
  {
  }

  lemma WorkerTable(m: Memory, w: WorkerPc)
    ensures WorkerHoldsQueue(WorkerNext(m, w)) ==
            After(WorkerOp(w), LockQueue, UnlockQueue, WorkerHoldsQueue(w))
    ensures WorkerHoldsMutex(WorkerNext(m, w)) ==
            After(WorkerOp(w), LockMutex, UnlockMutex, WorkerHoldsMutex(w))
    ensures WorkerOp(w) == UnlockQueue ==> WorkerHoldsQueue(w)
    ensures WorkerOp(w) == UnlockMutex ==> WorkerHoldsMutex(w)
  {
  }

  /** What `op` of thread `t` does to the two mutexes. */
  predicate LocksDone(m: Memory, m': Memory, t: Tid, op: Op) {
    && (op == LockQueue ==> m.queueMutex == None)
    && (op == LockMutex ==> m.mutex == None)
    && m'.queueMutex == (if op == LockQueue then Some(t) else if op == UnlockQueue then None else m.queueMutex)
    && m'.mutex == (if op == LockMutex then Some(t) else if op == UnlockMutex then None else m.mutex)
  }

  lemma DoMovesLocks(m: Memory, t: Tid, op: Op)
    requires CanDo(m, op)
    ensures LocksDone(m, Do(m, t, op), t, op)
  {
  }

  lemma OpKeepsLocks(s: State, s': State, t: Tid, op: Op)
    requires Locks(s) && t in s.threads && s'.threads.Keys == s.threads.Keys
    requires LocksDone(s.mem, s'.mem, t, op)
    requires op == UnlockQueue ==> HoldsQueueAt(s, t)
    requires op == UnlockMutex ==> HoldsMutexAt(s, t)
    requires HoldsQueueAt(s', t) == After(op, LockQueue, UnlockQueue, HoldsQueueAt(s, t))
    requires HoldsMutexAt(s', t) == After(op, LockMutex, UnlockMutex, HoldsMutexAt(s, t))
    requires forall u <- s.threads :: u != t ==>
               HoldsQueueAt(s', u) == HoldsQueueAt(s, u) && HoldsMutexAt(s', u) == HoldsMutexAt(s, u)
    ensures forall u <- s'.threads :: LocksAt(s', u)
    ensures s'.mem.queueMutex.Some? ==> s'.mem.queueMutex.value in s'.threads
    ensures s'.mem.mutex.Some? ==> s'.mem.mutex.value in s'.threads
  {
    forall u <- s'.threads ensures LocksAt(s', u) {
      assert LocksAt(s, u) && LocksAt(s, t);
    }
  }

  lemma ThreadKeepsLocks(s: State, t: Tid)
    requires Locks(s) && ThreadEnabled(s, t)
    ensures Locks(ThreadStep(s, t))
  {
    ThreadTable(s.mem, s.threads[t]);
    DoMovesLocks(s.mem, t, ThreadOp(s.threads[t]));
    OpKeepsLocks(s, ThreadStep(s, t), t, ThreadOp(s.threads[t]));
  }

  /** What a step of the loop does to the positions of the threads. */
  lemma WorkerMovesThreads(s: State)
    requires WorkerEnabled(s)
    ensures var s' := WorkerStep(s);
            && s'.threads.Keys == s.threads.Keys
            && (forall u <- s.threads :: u != WORKER ==>
                  s'.threads[u] == s.threads[u] || (s.threads[u].Asleep? && s'.threads[u].Asleep?))
            && (s'.threads[WORKER] == Idle ||
                (s.worker.ResetCanceled? && s'.threads[WORKER] == ShutdownStore(THROW)))
  {
  }

  lemma AsleepHoldsNothing(s: State, s': State)
    requires s'.threads.Keys == s.threads.Keys
    requires forall u <- s.threads :: u != WORKER ==>
               s'.threads[u] == s.threads[u] || (s.threads[u].Asleep? && s'.threads[u].Asleep?)
    ensures forall u <- s.threads :: u != WORKER ==>
              && HoldsQueue(s'.threads[u]) == HoldsQueue(s.threads[u])
              && HoldsMutex(s'.threads[u]) == HoldsMutex(s.threads[u])
  {
  }

  lemma LoopKeepsLocks(s: State, s': State, op: Op)
    requires Locks(s) && s.threads[WORKER] == Idle && LocksDone(s.mem, s'.mem, WORKER, op)
    requires op == UnlockQueue ==> WorkerHoldsQueue(s.worker)
    requires op == UnlockMutex ==> WorkerHoldsMutex(s.worker)
    requires WorkerHoldsQueue(s'.worker) == After(op, LockQueue, UnlockQueue, WorkerHoldsQueue(s.worker))
    requires WorkerHoldsMutex(s'.worker) == After(op, LockMutex, UnlockMutex, WorkerHoldsMutex(s.worker))
    requires s'.threads.Keys == s.threads.Keys
    requires forall u <- s.threads :: u != WORKER ==>
               && HoldsQueue(s'.threads[u]) == HoldsQueue(s.threads[u])
               && HoldsMutex(s'.threads[u]) == HoldsMutex(s.threads[u])
    requires s'.threads[WORKER] == Idle || (s'.worker.InTask? && s'.threads[WORKER].ShutdownStore?)
    ensures Locks(s')
  {
    OpKeepsLocks(s, s', WORKER, op);
  }

  lemma WorkerKeepsLocks(s: State)
    requires Locks(s) && WorkerEnabled(s)
    ensures Locks(WorkerStep(s))
  {
    WorkerMovesThreads(s);
    AsleepHoldsNothing(s, WorkerStep(s));
    WorkerTable(s.mem, s.worker);
    DoMovesLocks(s.mem, WORKER, WorkerOp(s.worker));
    LoopKeepsLocks(s, WorkerStep(s), WorkerOp(s.worker));
  }

  lemma InvokeKeepsLocks(s: State, s': State, t: Tid, pc: Pc)
    requires Locks(s) && t in s.threads && s.threads[t] == Idle
    requires t == WORKER ==> s.worker.InTask? && !Waiting(pc)
    requires !HoldsQueue(pc) && !HoldsMutex(pc)
    requires s'.threads == s.threads[t := pc] && s'.worker == s.worker
    requires s'.mem.mutex == s.mem.mutex && s'.mem.queueMutex == s.mem.queueMutex
    ensures Locks(s')
  {
    forall u <- s'.threads ensures LocksAt(s', u) {
      assert LocksAt(s, u);
    }
  }

  lemma KeepsLocks(s: State, a: Action)
    requires Locks(s) && Enabled(s, a)
    ensures Locks(Apply(s, a))
  {
    match a
    case Loop => WorkerKeepsLocks(s);
    case Inside(t) => ThreadKeepsLocks(s, t);
    case Invoke(t, call) => InvokeKeepsLocks(s, Apply(s, a), t, Entry(call));
    case AskCanceled =>
      var s' := Apply(s, a);
      assert forall u <- s'.threads :: LocksAt(s, u) ==> LocksAt(s', u);
  }

  // ---- accounting of tasks ----

  /** The positions below `n` that were not dropped, in order. */
  function Remaining(n: nat, dropped: set<nat>): (ids: seq<nat>) {
    if n == 0 then [] else Remaining(n - 1, dropped) + (if n - 1 in dropped then [] else [n - 1])
  }

  lemma {:induction false} RemainingElements(n: nat, dropped: set<nat>)
    ensures forall id: nat :: id in Remaining(n, dropped) <==> id < n && id !in dropped
    ensures forall i, j :: 0 <= i < j < |Remaining(n, dropped)| ==> Remaining(n, dropped)[i] < Remaining(n, dropped)[j]
  {
    if n != 0 {
      RemainingElements(n - 1, dropped);
      var ids := Remaining(n - 1, dropped);
      assert forall i :: 0 <= i < |ids| ==> ids[i] in ids;
      assert n - 1 in dropped || Remaining(n, dropped)[|ids|] == n - 1;
      assert forall id: nat :: id in Remaining(n, dropped) <==> id in ids || (id == n - 1 && n - 1 !in dropped);
    }
  }

  lemma {:induction false} RemainingIgnoresLater(n: nat, dropped: set<nat>, dropped': set<nat>)
    requires forall id: nat :: id < n ==> (id in dropped <==> id in dropped')
    ensures Remaining(n, dropped) == Remaining(n, dropped')
  {
    if n != 0 {
      RemainingIgnoresLater(n - 1, dropped, dropped');
    }
  }

  /** Dropping what is at the end leaves what was in front of it. */
  lemma {:induction false} RemainingAfterDrop(n: nat, dropped: set<nat>, front: seq<nat>, back: seq<nat>)
    requires Remaining(n, dropped) == front + back
    ensures Remaining(n, dropped + (set id | id in back)) == front
  {
    if back == [] {
      assert dropped + (set id | id in back) == dropped;
    } else if n - 1 in dropped {
      RemainingAfterDrop(n - 1, dropped, front, back);
    } else {
      var back' := back[..|back| - 1];
      SplitLast(Remaining(n - 1, dropped), n - 1, front, back);
      RemainingAfterDrop(n - 1, dropped, front, back');
      RemainingIgnoresLater(n - 1, dropped + (set id | id in back'), dropped + (set id | id in back));
    }
  }

  lemma SplitLast(ids: seq<nat>, last: nat, front: seq<nat>, back: seq<nat>)
    requires ids + [last] == front + back && back != []
    ensures ids == front + back[..|back| - 1] && back == back[..|back| - 1] + [last]
  {
    assert ids == (ids + [last])[..|ids|];
    assert back[|back| - 1] == (ids + [last])[|ids|];
  }

  /** A task has been taken out of the queue and has not completed. */
  predicate InFlight(w: WorkerPc) {
    match w
    case PopUnlock(_) => true
    case ResetCanceled(_) => true
    case InTask(_) => true
    case FinishLock(_) => true
    case FinishClear(_) => true
    case Leaving(onEmptyJob) => onEmptyJob
    case Exited(onEmptyJob) => onEmptyJob
    case _ => false
  }

  predicate LastStarted(m: Memory, task: nat) {
    m.started != [] && m.started[|m.started| - 1] == task
  }

  /** What the worker's position says about the task in hand and the queue. */
  predicate Position(m: Memory, w: WorkerPc) {
    match w
    case CheckStopped => m.shutdown || m.queue != []
    case EndUnlock => m.shutdown
    case Mark => m.queue != []
    case Front => m.queue != []
    case PopUnlock(task) => LastStarted(m, task) && task < |m.accepted|
    case ResetCanceled(task) => LastStarted(m, task) && task < |m.accepted| && m.accepted[task] != EmptyJob
    case InTask(task) => LastStarted(m, task) && task < |m.accepted| && m.accepted[task] != EmptyJob
    case FinishLock(task) => LastStarted(m, task) && task < |m.accepted| && m.accepted[task] != EmptyJob
    case FinishClear(task) => LastStarted(m, task) && task < |m.accepted| && m.accepted[task] != EmptyJob
    case Leaving(onEmptyJob) =>
      if onEmptyJob then m.started != [] && Is(m, m.started[|m.started| - 1], EmptyJob) else m.shutdown
    case Exited(onEmptyJob) =>
      if onEmptyJob then m.started != [] && Is(m, m.started[|m.started| - 1], EmptyJob) else m.shutdown
    case _ => true
  }

  predicate Accounting(m: Memory, w: WorkerPc) {
    && (m.executing <==> InFlight(w) || w.Front?)
    && |m.started| == m.finished + (if InFlight(w) then 1 else 0)
    && m.started + m.queue == Remaining(|m.accepted|, m.dropped)
    && (forall id <- m.dropped :: id < |m.accepted|)
    && (m.ended <==> w.Exited?)
    && Position(m, w)
  }

  /** The operations that the public interface consists of. */
  predicate PublicOp(op: Op) {
    match op
    case NotifyCompleted => false
    case MarkExecuting => false
    case Dequeue => false
    case ForgetCancel(_) => false
    case ClearExecuting => false
    case EndThread => false
    case _ => true
  }

  lemma ThreadOps(pc: Pc)
    ensures PublicOp(ThreadOp(pc))
    ensures ThreadOp(pc).Swap? || ThreadOp(pc).Enqueue? ==> HoldsQueue(pc)
  {
  }

  lemma DropKeepsRemaining(m: Memory)
    requires m.started + m.queue == Remaining(|m.accepted|, m.dropped)
    requires forall id <- m.dropped :: id < |m.accepted|
    ensures Drop(m).started == Remaining(|m.accepted|, Drop(m).dropped)
    ensures forall id <- Drop(m).dropped :: id < |m.accepted|
  {
    RemainingAfterDrop(|m.accepted|, m.dropped, m.started, m.queue);
    RemainingElements(|m.accepted|, m.dropped);
    assert forall id <- m.queue :: id in m.started + m.queue;
  }

  lemma EnqueueKeepsRemaining(m: Memory, t: Tid, op: Op)
    requires op.Enqueue?
    requires m.started + m.queue == Remaining(|m.accepted|, m.dropped)
    requires forall id <- m.dropped :: id < |m.accepted|
    ensures var m' := Do(m, t, op);
            && m'.started + m'.queue == Remaining(|m'.accepted|, m'.dropped)
            && (forall id <- m'.dropped :: id < |m.accepted|)
  {
    DropKeepsRemaining(m);
    assert m.started + (m.queue + [|m.accepted|]) == m.started + m.queue + [|m.accepted|];
  }

  /** What an operation of the public interface cannot change. */
  predicate Frame(m: Memory, m': Memory, op: Op) {
    && m'.started == m.started && m'.finished == m.finished
    && m'.executing == m.executing && m'.ended == m.ended
    && m'.shutdown == (m.shutdown || op == StoreShutdown)
    && m'.foreignShutdown == m.foreignShutdown
    && m.accepted <= m'.accepted && m.dropped <= m'.dropped
    && (m.queue != [] && !op.Swap? ==> m'.queue != [])
    && (!op.Swap? && !op.Enqueue? ==>
          && m'.queue == m.queue && m'.accepted == m.accepted && m'.posted == m.posted
          && m'.dropped == m.dropped && m'.droppedLive == m.droppedLive)
  }

  lemma PublicOpFrame(m: Memory, t: Tid, op: Op)
    requires CanDo(m, op) && PublicOp(op)
    ensures Frame(m, Do(m, t, op), op)
  {
  }

  lemma FrameKeepsPosition(m: Memory, m': Memory, op: Op, w: WorkerPc)
    requires Position(m, w) && Frame(m, m', op) && (op.Swap? ==> !WorkerHoldsQueue(w))
    ensures Position(m', w)
  {
  }

  lemma PublicOpKeepsAccounting(m: Memory, w: WorkerPc, t: Tid, op: Op)
    requires Accounting(m, w) && CanDo(m, op) && PublicOp(op)
    requires op.Swap? || op.Enqueue? ==> !WorkerHoldsQueue(w)
    ensures Accounting(Do(m, t, op), w)
  {
    PublicOpFrame(m, t, op);
    FrameKeepsPosition(m, Do(m, t, op), op, w);
    if op.Swap? {
      DropKeepsRemaining(m);
    } else if op.Enqueue? {
      EnqueueKeepsRemaining(m, t, op);
    }
  }

  lemma DequeueKeepsAccounting(m: Memory)
    requires Accounting(m, Front)
    ensures Accounting(Do(m, WORKER, Dequeue), WorkerNext(m, Front))
  {
    RemainingElements(|m.accepted|, m.dropped);
    assert m.queue[0] in m.started + m.queue;
    assert m.started + [m.queue[0]] + m.queue[1..] == m.started + m.queue;
  }

  /** What the worker's other operations cannot change, and what they do to the flags. */
  predicate WorkerFrame(m: Memory, m': Memory, w: WorkerPc) {
    && m'.started == m.started && m'.queue == m.queue && m'.accepted == m.accepted && m'.dropped == m.dropped
    && m'.shutdown == m.shutdown
    && m'.executing == (w.Mark? || (m.executing && !w.FinishClear?))
    && m'.finished == m.finished + (if w.FinishClear? then 1 else 0)
    && m'.ended == (m.ended || w.Leaving?)
  }

  lemma WorkerOpFrame(m: Memory, w: WorkerPc)
    requires CanDo(m, WorkerOp(w)) && !w.Front?
    ensures WorkerFrame(m, Do(m, WORKER, WorkerOp(w)), w)
  {
    match w
    case Mark =>
    case FinishClear(_) =>
    case Leaving(_) =>
    case _ =>
  }

  lemma FrameMovesPosition(m: Memory, m': Memory, w: WorkerPc)
    requires Position(m, w) && WorkerFrame(m, m', w) && !w.Front?
    ensures Position(m', WorkerNext(m, w))
  {
  }

  lemma FlightTable(m: Memory, w: WorkerPc)
    requires !w.Front? && Position(m, w)
    ensures InFlight(WorkerNext(m, w)) <==> InFlight(w) && !w.FinishClear?
    ensures WorkerNext(m, w).Front? <==> w.Mark?
    ensures WorkerNext(m, w).Exited? <==> w.Exited? || w.Leaving?
  {
  }

  lemma WorkerOpKeepsAccounting(m: Memory, w: WorkerPc)
    requires Accounting(m, w) && CanDo(m, WorkerOp(w))
    ensures Accounting(Do(m, WORKER, WorkerOp(w)), WorkerNext(m, w))
  {
    if w.Front? {
      DequeueKeepsAccounting(m);
    } else {
      WorkerOpFrame(m, w);
      FrameMovesPosition(m, Do(m, WORKER, WorkerOp(w)), w);
      FlightTable(m, w);
    }
  }

  // ---- both together ----

  ghost predicate Sound(s: State) {
    Locks(s) && Accounting(s.mem, s.worker)
  }

  /** A thread inside a critical section keeps the worker's loop, and every other thread, out of it. */
  lemma Exclusion(s: State, t: Tid)
    requires Locks(s) && t in s.threads
    ensures HoldsQueue(s.threads[t]) ==> !WorkerHoldsQueue(s.worker)
    ensures HoldsMutex(s.threads[t]) ==> !WorkerHoldsMutex(s.worker)
    ensures forall u <- s.threads :: HoldsMutex(s.threads[t]) && HoldsMutex(s.threads[u]) ==> u == t
  {
    assert LocksAt(s, t) && LocksAt(s, WORKER);
    assert forall u <- s.threads :: LocksAt(s, u);
  }

  lemma NotifyOneKeepsAccounting(m: Memory, w: WorkerPc)
    requires Accounting(m, w)
    ensures Accounting(m, NotifyOne(w))
  {
  }

  lemma ThreadKeepsAccounting(s: State, t: Tid)
    requires Sound(s) && ThreadEnabled(s, t)
    ensures Accounting(ThreadStep(s, t).mem, ThreadStep(s, t).worker)
  {
    var op := ThreadOp(s.threads[t]);
    Exclusion(s, t);
    ThreadOps(s.threads[t]);
    PublicOpKeepsAccounting(s.mem, s.worker, t, op);
    NotifyOneKeepsAccounting(Do(s.mem, t, op), s.worker);
  }

  lemma KeepsSound(s: State, a: Action)
    requires Sound(s) && Enabled(s, a)
    ensures Sound(Apply(s, a))
  {
    KeepsLocks(s, a);
    match a
    case Loop => WorkerOpKeepsAccounting(s.mem, s.worker);
    case Inside(t) => ThreadKeepsAccounting(s, t);
    case Invoke(_, _) =>
    case AskCanceled =>
  }

  lemma {:induction false} InitSound(s: State)
    requires Init(s)
    ensures Sound(s)
  {
    RemainingOfAll(|s.mem.accepted|);
    assert s.mem.started + s.mem.queue == s.mem.queue;
    assert forall t <- s.threads :: LocksAt(s, t);
  }

  lemma {:induction false} RemainingOfAll(n: nat)
    ensures Remaining(n, {}) == Upto(n)
  {
    if n != 0 {
      RemainingOfAll(n - 1);
    }
  }
}
