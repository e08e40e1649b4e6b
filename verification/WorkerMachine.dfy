/**
 The task worker of `languages/cxx/taskmgr/worker.cpp` and its queue as a step machine.

 One thread, `WORKER`, runs `Worker::run`; any finite number of other threads call the public interface in
 any order. Every access to an atomic, every lock acquisition or release, every notification and every change
 of the queue is a step of its own, and steps of different threads interleave freely. While the worker runs a
 task, the task may call the same interface from the worker's thread.

 A step is one atomic operation (`ThreadOp`, `WorkerOp`, with its effect in `Do`) together with the move to the
 next program point (`NextPc`, `WorkerNext`). Fields below "history" record what happened, and no branch depends on
 them: a job is named by its position in `accepted`, and a wait carries how many jobs had been started and accepted.
 */
module WorkerMachine {
  import opened Prelude
  import opened AsyncQueue

  type Tid = nat

  const WORKER: Tid := 0

  datatype Policy = ALLOW | IGNORE | LOGIGNORE | THROW | WAIT {
    /** `post` goes on past its switch. */
    predicate Admits() {
      ALLOW? || WAIT?
    }
  }

  /** An ordinary closure, the closure pushed by `planned_shutdown`, or an empty `std::function`. */
  datatype Job = Body | ShutdownJob | EmptyJob

  /** What the caller of a wait waits for: `wait_running_task` or `wait_completion`. */
  datatype WaitKind = Running | Completion

  /**
   What a finished wait saw: how many tasks had been started when it read `m_executing` as false, and how many
   had been started and accepted when it read the queue as empty (the same moment for `wait_running_task`).
   */
  datatype Report = Report(kind: WaitKind, startedIdle: nat, startedEmpty: nat, accepted: nat)

  /** Where a thread is inside a call of the public interface. */
  datatype Pc =
    | Idle
    // Worker::post
    | PostLock(job: Job, supplant: bool)
    | PostSwitch(job: Job, supplant: bool)
    | PostCancel(job: Job)
    | PostUnlock
    // async_queue::push, from post (which then holds m_mutex) or on its own
    | PushLock(job: Job, clearothers: bool, posting: bool)
    | PushStore(job: Job, clearothers: bool, posting: bool)
    | PushNotify(posting: bool)
    | PushUnlock(posting: bool)
    // async_queue::clear, with the job that a supplanting post will push afterwards
    | ClearLock(next: Option<Job>)
    | ClearSwap(next: Option<Job>)
    | ClearUnlock(next: Option<Job>)
    // async_queue::block, with the policy that emit_shutdown will set afterwards
    | BlockStore(blocked: bool)
    | BlockLock(policy: Option<Policy>)
    | BlockNotify(policy: Option<Policy>)
    | BlockUnlock(policy: Option<Policy>)
    // Worker::emit_shutdown, set_policy, emit_cancel
    | ShutdownStore(newPolicy: Policy)
    | ShutdownBlock(newPolicy: Policy)
    | PolicyStore(newPolicy: Policy, thenCancel: bool)
    | CancelStore
    // Worker::wait_running_task, wait_completion
    | WaitLock(kind: WaitKind)
    | WaitExecuting(kind: WaitKind)
    | WaitEmptyLock(startedIdle: nat)
    | WaitEmpty(startedIdle: nat)
    | WaitEmptyUnlock(result: Option<Report>)
    | WaitSleep(kind: WaitKind)
    | Asleep(kind: WaitKind, notified: bool)
    | WaitRelock(kind: WaitKind)
    | WaitUnlock(report: Report)
    // Worker::wait_shutdown
    | Join

  /** Where the worker is inside `run`, `pop` and `exec`. */
  datatype WorkerPc =
    | RunTest
    | PopLock
    | PredStopped
    | PredBlocked
    | PredEmpty
    | EnterWait
    | PopAsleep(notified: bool)
    | PopRelock
    | CheckStopped
    | EndUnlock
    | Mark
    | Front
    | PopUnlock(task: nat)
    | ResetCanceled(task: nat)
    | InTask(task: nat)
    | FinishLock(task: nat)
    | FinishClear(task: nat)
    | FinishNotify
    | FinishUnlock
    | Leaving(onEmptyJob: bool)
    | Exited(onEmptyJob: bool)

  datatype Event = Reset(task: nat) | Canceled(thread: Tid) | SawCanceled(task: nat)

  datatype Memory = Memory(
    policy: Policy,
    executing: bool,
    canceled: bool,
    shutdown: bool,
    mutex: Option<Tid>,         // Worker::m_mutex
    queue: seq<nat>,            // positions in `accepted`
    blocked: bool,
    queueMutex: Option<Tid>,    // async_queue::m_mutex
    ended: bool,                // the worker thread can be joined without blocking
    // history
    accepted: seq<Job>,         // every job ever put into the queue, in order
    posted: nat,                // how many of them came through `post`
    dropped: set<nat>,          // swapped away by a clear
    droppedLive: bool,          // a clear took effect before the worker ended
    started: seq<nat>,          // taken out by `pop`, in order
    finished: nat,              // completion sections passed
    foreignShutdown: bool,      // emit_shutdown was called otherwise than by planned_shutdown's closure
    log: seq<Event>)

  datatype State = State(mem: Memory, worker: WorkerPc, threads: map<Tid, Pc>)

  predicate Is(m: Memory, task: nat, job: Job) {
    task < |m.accepted| && m.accepted[task] == job
  }

  // ---- atomic operations ----

  datatype Op =
    | Read
    | LockMutex | UnlockMutex
    | LockQueue | UnlockQueue
    | StorePolicy(newPolicy: Policy)
    | StoreBlocked(value: bool)
    | StoreShutdown
    | StoreCanceled
    | Enqueue(job: Job, clearothers: bool, posting: bool)
    | Swap
    | NotifyNonempty
    | NotifyCompleted
    | MarkExecuting
    | Dequeue
    | ForgetCancel(task: nat)
    | ClearExecuting
    | EndThread

  predicate CanDo(m: Memory, op: Op) {
    match op
    case LockMutex => m.mutex == None
    case LockQueue => m.queueMutex == None
    case Dequeue => m.queue != []
    case _ => true
  }

  /** The effect on memory of operation `op` of thread `t`. A notification changes no memory. */
  function Do(m: Memory, t: Tid, op: Op): Memory
    requires CanDo(m, op)
  {
    match op
    case Read => m
    case LockMutex => m.(mutex := Some(t))
    case UnlockMutex => m.(mutex := None)
    case LockQueue => m.(queueMutex := Some(t))
    case UnlockQueue => m.(queueMutex := None)
    case StorePolicy(p) => m.(policy := p)
    case StoreBlocked(b) => m.(blocked := b)
    case StoreShutdown => m.(shutdown := true)
    case StoreCanceled => m.(canceled := true, log := m.log + [Canceled(t)])
    case Enqueue(job, clearothers, posting) =>
      (if clearothers then Drop(m) else m).(
        queue := Pushed(m.queue, |m.accepted|, clearothers),
        accepted := m.accepted + [job],
        posted := m.posted + if posting then 1 else 0)
    case Swap => Drop(m)
    case NotifyNonempty => m
    case NotifyCompleted => m
    case MarkExecuting => m.(executing := true)
    case Dequeue => m.(queue := Popped(m.queue), started := m.started + [m.queue[0]])
    case ForgetCancel(task) => m.(canceled := false, log := m.log + [Reset(task)])
    case ClearExecuting => m.(executing := false, finished := m.finished + 1)
    case EndThread => m.(ended := true)
  }

  /** The queue is swapped with an empty one. */
  function Drop(m: Memory): Memory {
    m.(queue := [], dropped := m.dropped + (set id | id in m.queue), droppedLive := m.droppedLive || !m.ended)
  }

  // ---- the public interface ----

  // The calls a thread can make. cancel, stop_now, stop_when_done, resume, reset, shutdown and
  // wait_shutdown_finished are sequences of these.
  datatype Call =
    | Post(job: Job, supplant: bool)
    | QueuePush(job: Job, clearothers: bool)
    | PlannedShutdown
    | ClearQueue
    | PauseLoop(paused: bool)
    | SetPolicy(policy: Policy)
    | EmitCancel
    | EmitShutdown(policy: Policy)
    | WaitRunningTask
    | WaitCompletion
    | WaitShutdown

  function Entry(call: Call): Pc {
    match call
    case Post(job, supplant) => PostLock(job, supplant)
    case QueuePush(job, clearothers) => PushLock(job, clearothers, false)
    case PlannedShutdown => PushLock(ShutdownJob, false, false)
    case ClearQueue => ClearLock(None)
    case PauseLoop(paused) => BlockStore(paused)
    case SetPolicy(policy) => PolicyStore(policy, false)
    case EmitCancel => CancelStore
    case EmitShutdown(policy) => ShutdownStore(policy)
    case WaitRunningTask => WaitLock(Running)
    case WaitCompletion => WaitLock(Completion)
    case WaitShutdown => Join
  }

  /** The waits refuse the worker's own thread. */
  predicate Waits(call: Call) {
    call.WaitRunningTask? || call.WaitCompletion? || call.WaitShutdown?
  }

  function ThreadOp(pc: Pc): Op {
    match pc
    case PostLock(_, _) => LockMutex
    case PostCancel(_) => StoreCanceled
    case PostUnlock => UnlockMutex
    case PushLock(_, _, _) => LockQueue
    case PushStore(job, clearothers, posting) => Enqueue(job, clearothers, posting)
    case PushNotify(_) => NotifyNonempty
    case PushUnlock(_) => UnlockQueue
    case ClearLock(_) => LockQueue
    case ClearSwap(_) => Swap
    case ClearUnlock(_) => UnlockQueue
    case BlockStore(blocked) => StoreBlocked(blocked)
    case BlockLock(_) => LockQueue
    case BlockNotify(_) => NotifyNonempty
    case BlockUnlock(_) => UnlockQueue
    case ShutdownStore(_) => StoreShutdown
    case ShutdownBlock(_) => StoreBlocked(true)
    case PolicyStore(p, _) => StorePolicy(p)
    case CancelStore => StoreCanceled
    case WaitLock(_) => LockMutex
    case WaitEmptyLock(_) => LockQueue
    case WaitEmptyUnlock(_) => UnlockQueue
    case WaitSleep(_) => UnlockMutex
    case WaitRelock(_) => LockMutex
    case WaitUnlock(_) => UnlockMutex
    case _ => Read
  }

  /** Where a thread at `pc` goes next; the tests read `m`. */
  function NextPc(m: Memory, pc: Pc): Pc {
    match pc
    case Idle => Idle
    case PostLock(job, supplant) => PostSwitch(job, supplant)
    case PostSwitch(job, supplant) =>
      if !m.policy.Admits() then PostUnlock
      else if supplant then PostCancel(job) else PushLock(job, false, true)
    case PostCancel(job) => ClearLock(Some(job))
    case PostUnlock => Idle
    case PushLock(job, clearothers, posting) => PushStore(job, clearothers, posting)
    case PushStore(_, _, posting) => PushNotify(posting)
    case PushNotify(posting) => PushUnlock(posting)
    case PushUnlock(posting) => if posting then PostUnlock else Idle
    case ClearLock(next) => ClearSwap(next)
    case ClearSwap(next) => ClearUnlock(next)
    case ClearUnlock(next) => if next.Some? then PushLock(next.value, false, true) else Idle
    case BlockStore(_) => BlockLock(None)
    case BlockLock(policy) => BlockNotify(policy)
    case BlockNotify(policy) => BlockUnlock(policy)
    case BlockUnlock(policy) => if policy.Some? then PolicyStore(policy.value, true) else Idle
    case ShutdownStore(p) => ShutdownBlock(p)
    case ShutdownBlock(p) => BlockLock(Some(p))
    case PolicyStore(_, thenCancel) => if thenCancel then CancelStore else Idle
    case CancelStore => Idle
    case WaitLock(kind) => WaitExecuting(kind)
    case WaitExecuting(kind) =>
      if m.executing then WaitSleep(kind)
      else if kind == Completion then WaitEmptyLock(|m.started|)
      else WaitUnlock(Report(Running, |m.started|, |m.started|, |m.accepted|))
    case WaitEmptyLock(n) => WaitEmpty(n)
    case WaitEmpty(n) =>
      WaitEmptyUnlock(if m.queue == [] then Some(Report(Completion, n, |m.started|, |m.accepted|)) else None)
    case WaitEmptyUnlock(result) =>
      if result.Some? then WaitUnlock(result.value) else WaitSleep(Completion)
    case WaitSleep(kind) => Asleep(kind, false)
    case Asleep(kind, _) => WaitRelock(kind)  // notified, or a spurious wakeup
    case WaitRelock(kind) => WaitExecuting(kind)
    case WaitUnlock(_) => Idle
    case Join => ClearLock(None)
  }

  predicate ThreadEnabled(s: State, t: Tid) {
    && t in s.threads
    && s.threads[t] != Idle
    && CanDo(s.mem, ThreadOp(s.threads[t]))
    && (s.threads[t].Join? ==> s.mem.ended)
  }

  /** One step of thread `t` inside the call it is making. */
  function ThreadStep(s: State, t: Tid): State
    requires ThreadEnabled(s, t)
  {
    var pc := s.threads[t];
    State(Do(s.mem, t, ThreadOp(pc)),
          if ThreadOp(pc) == NotifyNonempty then NotifyOne(s.worker) else s.worker,
          s.threads[t := NextPc(s.mem, pc)])
  }

  function NotifyOne(w: WorkerPc): WorkerPc {
    if w.PopAsleep? then PopAsleep(true) else w
  }

  // ---- the worker's loop ----

  function WorkerOp(w: WorkerPc): Op {
    match w
    case PopLock => LockQueue
    case EnterWait => UnlockQueue
    case PopRelock => LockQueue
    case EndUnlock => UnlockQueue
    case Mark => MarkExecuting
    case Front => Dequeue
    case PopUnlock(_) => UnlockQueue
    case ResetCanceled(task) => ForgetCancel(task)
    case FinishLock(_) => LockMutex
    case FinishClear(_) => ClearExecuting
    case FinishNotify => NotifyCompleted
    case FinishUnlock => UnlockMutex
    case Leaving(_) => EndThread
    case _ => Read
  }

  /** Where the worker goes next; from `InTask` this is the return, or the throw, of the task. */
  function WorkerNext(m: Memory, w: WorkerPc): WorkerPc {
    match w
    case RunTest => if m.shutdown then Leaving(false) else PopLock
    case PopLock => PredStopped
    case PredStopped => if m.shutdown then CheckStopped else PredBlocked
    case PredBlocked => if m.blocked then EnterWait else PredEmpty
    case PredEmpty => if m.queue == [] then EnterWait else CheckStopped
    case EnterWait => PopAsleep(false)
    case PopAsleep(_) => PopRelock  // notified, or a spurious wakeup
    case PopRelock => PredStopped
    case CheckStopped => if m.shutdown then EndUnlock else Mark
    case EndUnlock => Leaving(false)
    case Mark => Front
    case Front => if m.queue != [] then PopUnlock(m.queue[0]) else Front
    case PopUnlock(task) => if Is(m, task, EmptyJob) then Leaving(true) else ResetCanceled(task)
    case ResetCanceled(task) => InTask(task)
    case InTask(task) => FinishLock(task)
    case FinishLock(task) => FinishClear(task)
    case FinishClear(_) => FinishNotify
    case FinishNotify => FinishUnlock
    case FinishUnlock => RunTest
    case Leaving(onEmptyJob) => Exited(onEmptyJob)
    case Exited(onEmptyJob) => Exited(onEmptyJob)
  }

  /** The thread can take a step of the loop: it is not inside a call that its task makes, and has not ended. */
  predicate WorkerEnabled(s: State) {
    && WORKER in s.threads && s.threads[WORKER] == Idle
    && !s.worker.Exited?
    && CanDo(s.mem, WorkerOp(s.worker))
  }

  /** One step of `run`. The closure of `planned_shutdown` starts by calling `emit_shutdown`. */
  function WorkerStep(s: State): State
    requires WorkerEnabled(s)
  {
    State(Do(s.mem, WORKER, WorkerOp(s.worker)),
          WorkerNext(s.mem, s.worker),
          if WorkerOp(s.worker) == NotifyCompleted then NotifyAll(s.threads)
          else if s.worker.ResetCanceled? && Is(s.mem, s.worker.task, ShutdownJob)
          then s.threads[WORKER := ShutdownStore(THROW)]
          else s.threads)
  }

  function NotifyAll(threads: map<Tid, Pc>): map<Tid, Pc> {
    map t <- threads :: if threads[t].Asleep? then threads[t].(notified := true) else threads[t]
  }

  // ---- runs ----

  /** 0, 1, ..., n - 1 */
  function Upto(n: nat): seq<nat> {
    seq(n, i => i)
  }

  /** A worker over a queue that may have been constructed with some jobs in it. */
  ghost predicate Init(s: State) {
    && s.worker == RunTest
    && WORKER in s.threads && (forall t <- s.threads :: s.threads[t] == Idle)
    && var m := s.mem;
    && m.policy == ALLOW && !m.executing && !m.canceled && !m.shutdown && !m.blocked && !m.ended
    && m.mutex == None && m.queueMutex == None
    && m.queue == Upto(|m.accepted|)
    && m.posted == 0 && m.dropped == {} && !m.droppedLive && m.started == [] && m.finished == 0
    && !m.foreignShutdown && m.log == []
  }

  /** `AskCanceled` is a running task that calls its `isCancelled` argument. */
  datatype Action = Loop | Inside(t: Tid) | Invoke(t: Tid, call: Call) | AskCanceled

  /** An ordinary closure is running. */
  predicate InBody(s: State) {
    s.worker.InTask? && Is(s.mem, s.worker.task, Body)
  }

  predicate Enabled(s: State, a: Action) {
    match a
    case Loop => WorkerEnabled(s)
    case Inside(t) => ThreadEnabled(s, t)
    case Invoke(t, call) =>
      t in s.threads && s.threads[t] == Idle && (t == WORKER ==> InBody(s) && !Waits(call))
    case AskCanceled => InBody(s)
  }

  function Apply(s: State, a: Action): State
    requires Enabled(s, a)
  {
    match a
    case Loop => WorkerStep(s)
    case Inside(t) => ThreadStep(s, t)
    case Invoke(t, call) =>
      State(s.mem.(foreignShutdown := s.mem.foreignShutdown || call.EmitShutdown?), s.worker,
            s.threads[t := Entry(call)])
    case AskCanceled =>
      if s.mem.canceled then s.(mem := s.mem.(log := s.mem.log + [SawCanceled(s.worker.task)])) else s
  }

  /** `run[0]`, `actions[0]`, `run[1]`, ... are consecutive, not necessarily from the beginning. */
  ghost predicate Trace(run: seq<State>, actions: seq<Action>) {
    && |run| == |actions| + 1
    && forall i {:trigger actions[i]} :: 0 <= i < |actions| ==>
         Enabled(run[i], actions[i]) && run[i + 1] == Apply(run[i], actions[i])
  }

  ghost predicate Reachable(s: State) {
    exists run, actions :: Trace(run, actions) && Init(run[0]) && run[|actions|] == s
  }
}
