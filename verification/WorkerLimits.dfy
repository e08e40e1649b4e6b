/** Things one might expect of `wait_completion` and `wait_running_task`, and runs in which they do not happen. */
module WorkerLimits {
  import opened Prelude
  import opened WorkerMachine
  import opened WorkerTheorems

  // ---- moving along a run ----

  lemma Start(s: State)
    requires Init(s)
    ensures Reachable(s)
  {
    assert Trace([s], []);
  }

  lemma GoLoop(m: Memory, w: WorkerPc, threads: map<Tid, Pc>)
    requires Reachable(State(m, w, threads)) && WORKER in threads && threads[WORKER] == Idle
    requires !w.Exited? && !w.FinishNotify? && CanDo(m, WorkerOp(w))
    requires w.ResetCanceled? ==> !Is(m, w.task, ShutdownJob)
    ensures Reachable(State(Do(m, WORKER, WorkerOp(w)), WorkerNext(m, w), threads))
  {
    ReachNext(State(m, w, threads), Loop);
  }

  lemma GoInside(m: Memory, w: WorkerPc, threads: map<Tid, Pc>, t: Tid, pc: Pc)
    requires Reachable(State(m, w, threads[t := pc])) && pc != Idle && !pc.Join?
    requires CanDo(m, ThreadOp(pc)) && (ThreadOp(pc) == NotifyNonempty ==> !w.PopAsleep?)
    ensures Reachable(State(Do(m, t, ThreadOp(pc)), w, threads[t := NextPc(m, pc)]))
  {
    ReachNext(State(m, w, threads[t := pc]), Inside(t));
    assert threads[t := pc][t := NextPc(m, pc)] == threads[t := NextPc(m, pc)];
  }

  lemma GoInvoke(m: Memory, w: WorkerPc, threads: map<Tid, Pc>, t: Tid, call: Call)
    requires Reachable(State(m, w, threads)) && t in threads && threads[t] == Idle && t != WORKER
    requires !call.EmitShutdown?
    ensures Reachable(State(m, w, threads[t := Entry(call)]))
  {
    ReachNext(State(m, w, threads), Invoke(t, call));
    assert m.(foreignShutdown := m.foreignShutdown || false) == m;
  }

  /** A queue constructed with one task; threads 1 and 2 are the clients. */
  function AtStart(job: Job): Memory {
    Memory(ALLOW, false, false, false, None, [0], false, None, false, [job], 0, {}, false, [], 0, false, [])
  }

  function Threads(): map<Tid, Pc> {
    map[WORKER := Idle, 1 := Idle, 2 := Idle]
  }

  lemma StartsReachable(job: Job)
    ensures Reachable(State(AtStart(job), RunTest, Threads()))
  {
    Start(State(AtStart(job), RunTest, Threads()));
  }

  // ---- a task may be running when wait_completion returns ----

  lemma WaiterReadsIdle(m: Memory, w: WorkerPc, threads: map<Tid, Pc>)
    requires Reachable(State(m, w, threads)) && 1 in threads && threads[1] == Idle
    requires m.mutex == None && !m.executing && m.started == []
    ensures Reachable(State(m.(mutex := Some(1)), w, threads[1 := WaitEmptyLock(0)]))
  {
    GoInvoke(m, w, threads, 1, WaitCompletion);
    GoInside(m, w, threads, 1, WaitLock(Completion));
    GoInside(m.(mutex := Some(1)), w, threads, 1, WaitExecuting(Completion));
  }

  lemma WorkerTests(m: Memory, threads: map<Tid, Pc>)
    requires Reachable(State(m, RunTest, threads)) && WORKER in threads && threads[WORKER] == Idle
    requires !m.shutdown && !m.blocked && m.queue != [] && m.queueMutex == None
    ensures Reachable(State(m.(queueMutex := Some(WORKER)), Mark, threads))
  {
    var m' := m.(queueMutex := Some(WORKER));
    GoLoop(m, RunTest, threads);
    GoLoop(m, PopLock, threads);
    GoLoop(m', PredStopped, threads);
    GoLoop(m', PredBlocked, threads);
    GoLoop(m', PredEmpty, threads);
    GoLoop(m', CheckStopped, threads);
  }

  function Taken(m: Memory): Memory
    requires m.queue != []
  {
    m.(executing := true, queue := m.queue[1..], started := m.started + [m.queue[0]])
  }

  lemma WorkerTakes(m: Memory, threads: map<Tid, Pc>)
    requires Reachable(State(m, Mark, threads)) && WORKER in threads && threads[WORKER] == Idle
    requires m.queue != []
    ensures Reachable(State(Taken(m), PopUnlock(m.queue[0]), threads))
  {
    GoLoop(m, Mark, threads);
    WorkerDequeues(m.(executing := true), threads);
  }

  lemma WorkerDequeues(m: Memory, threads: map<Tid, Pc>)
    requires Reachable(State(m, Front, threads)) && WORKER in threads && threads[WORKER] == Idle
    requires m.queue != [] && m.executing
    ensures Reachable(State(Taken(m), PopUnlock(m.queue[0]), threads))
  {
    GoLoop(m, Front, threads);
    assert Do(m, WORKER, Dequeue) == Taken(m);
  }

  lemma WorkerRuns(m: Memory, threads: map<Tid, Pc>, task: nat)
    requires Reachable(State(m, PopUnlock(task), threads)) && WORKER in threads && threads[WORKER] == Idle
    requires Is(m, task, Body)
    ensures Reachable(State(m.(queueMutex := None, canceled := false, log := m.log + [Reset(task)]),
                            InTask(task), threads))
  {
    GoLoop(m, PopUnlock(task), threads);
    GoLoop(m.(queueMutex := None), ResetCanceled(task), threads);
  }

  lemma WaiterLooks(m: Memory, w: WorkerPc, threads: map<Tid, Pc>, r: Report)
    requires Reachable(State(m, w, threads[1 := WaitEmptyLock(0)]))
    requires m.queue == [] && m.queueMutex == None && r == Report(Completion, 0, |m.started|, |m.accepted|)
    ensures Reachable(State(m.(queueMutex := None), w, threads[1 := WaitUnlock(r)]))
  {
    var m' := m.(queueMutex := Some(1));
    GoInside(m, w, threads, 1, WaitEmptyLock(0));
    WaiterSeesNone(m', w, threads, r);
    assert m'.(queueMutex := None) == m.(queueMutex := None);
  }

  lemma WaiterSeesNone(m: Memory, w: WorkerPc, threads: map<Tid, Pc>, r: Report)
    requires Reachable(State(m, w, threads[1 := WaitEmpty(0)]))
    requires m.queue == [] && r == Report(Completion, 0, |m.started|, |m.accepted|)
    ensures Reachable(State(m.(queueMutex := None), w, threads[1 := WaitUnlock(r)]))
  {
    GoInside(m, w, threads, 1, WaitEmpty(0));
    GoInside(m, w, threads, 1, WaitEmptyUnlock(Some(r)));
  }

  /** A task may be running when `wait_completion` returns: the bound of `CompletionWaited` is met. */
  lemma TaskMayRunWhenWaitReturns()
    ensures exists s: State ::
              && Reachable(s) && 1 in s.threads
              && s.threads[1] == WaitUnlock(Report(Completion, 0, 1, 1)) && s.worker == InTask(0)
  {
    StartsReachable(Body);
    var m0, threads := AtStart(Body), Threads();
    WaiterReadsIdle(m0, RunTest, threads);
    var m1, threads1 := m0.(mutex := Some(1)), threads[1 := WaitEmptyLock(0)];
    WorkerTests(m1, threads1);
    var m2 := m1.(queueMutex := Some(WORKER));
    WorkerTakes(m2, threads1);
    WorkerRuns(Taken(m2), threads1, 0);
    var m3 := Taken(m2).(queueMutex := None, canceled := false, log := Taken(m2).log + [Reset(0)]);
    WaiterLooks(m3, InTask(0), threads, Report(Completion, 0, 1, 1));
  }

  // ---- wait_completion may sleep although nothing is queued and nothing runs ----

  lemma Pauses(m: Memory, w: WorkerPc, threads: map<Tid, Pc>)
    requires Reachable(State(m, w, threads)) && 1 in threads && threads[1] == Idle
    requires m.queueMutex == None && !w.PopAsleep?
    ensures Reachable(State(m.(blocked := true), w, threads))
  {
    GoInvoke(m, w, threads, 1, PauseLoop(true));
    GoInside(m, w, threads, 1, BlockStore(true));
    PauseNotifies(m.(blocked := true), w, threads);
  }

  lemma PauseNotifies(m: Memory, w: WorkerPc, threads: map<Tid, Pc>)
    requires Reachable(State(m, w, threads[1 := BlockLock(None)])) && 1 in threads && threads[1] == Idle
    requires m.queueMutex == None && !w.PopAsleep?
    ensures Reachable(State(m, w, threads))
  {
    var m' := m.(queueMutex := Some(1));
    GoInside(m, w, threads, 1, BlockLock(None));
    GoInside(m', w, threads, 1, BlockNotify(None));
    PauseReturns(m', w, threads);
    assert m'.(queueMutex := None) == m;
  }

  lemma PauseReturns(m: Memory, w: WorkerPc, threads: map<Tid, Pc>)
    requires Reachable(State(m, w, threads[1 := BlockUnlock(None)])) && 1 in threads && threads[1] == Idle
    ensures Reachable(State(m.(queueMutex := None), w, threads))
  {
    GoInside(m, w, threads, 1, BlockUnlock(None));
    assert threads[1 := Idle] == threads;
  }

  lemma WaiterSeesTask(m: Memory, w: WorkerPc, threads: map<Tid, Pc>)
    requires Reachable(State(m, w, threads[1 := WaitEmptyLock(0)]))
    requires m.queue != [] && m.queueMutex == None
    ensures Reachable(State(m.(queueMutex := Some(1)), w, threads[1 := WaitEmptyUnlock(None)]))
  {
    GoInside(m, w, threads, 1, WaitEmptyLock(0));
    GoInside(m.(queueMutex := Some(1)), w, threads, 1, WaitEmpty(0));
  }

  lemma WaiterSleeps(m: Memory, w: WorkerPc, threads: map<Tid, Pc>)
    requires Reachable(State(m, w, threads[1 := WaitEmptyUnlock(None)]))
    ensures Reachable(State(m.(queueMutex := None, mutex := None), w, threads[1 := Asleep(Completion, false)]))
  {
    GoInside(m, w, threads, 1, WaitEmptyUnlock(None));
    GoInside(m.(queueMutex := None), w, threads, 1, WaitSleep(Completion));
  }

  lemma Clears(m: Memory, w: WorkerPc, threads: map<Tid, Pc>)
    requires Reachable(State(m, w, threads)) && 2 in threads && threads[2] == Idle && m.queueMutex == None
    ensures Reachable(State(Drop(m), w, threads))
  {
    var m1 := m.(queueMutex := Some(2));
    GoInvoke(m, w, threads, 2, ClearQueue);
    GoInside(m, w, threads, 2, ClearLock(None));
    Swaps(m1, w, threads);
    assert Drop(m1).(queueMutex := None) == Drop(m);
  }

  lemma Swaps(m: Memory, w: WorkerPc, threads: map<Tid, Pc>)
    requires Reachable(State(m, w, threads[2 := ClearSwap(None)])) && 2 in threads && threads[2] == Idle
    ensures Reachable(State(Drop(m).(queueMutex := None), w, threads))
  {
    GoInside(m, w, threads, 2, ClearSwap(None));
    GoInside(Drop(m), w, threads, 2, ClearUnlock(None));
    assert threads[2 := Idle] == threads;
  }

  /** A caller of `wait_completion` may sleep un-notified while the queue is empty and no task is in flight. */
  lemma WaiterMayBeForgotten()
    ensures exists s: State ::
              && Reachable(s) && 1 in s.threads
              && s.threads[1] == Asleep(Completion, false)
              && s.mem.queue == [] && !s.mem.executing && s.mem.mutex == None && s.mem.queueMutex == None
  {
    StartsReachable(Body);
    var m, w, threads := AtStart(Body), RunTest, Threads();
    Pauses(m, w, threads);
    var m1 := m.(blocked := true);
    WaiterReadsIdle(m1, w, threads);
    WaiterSeesTask(m1.(mutex := Some(1)), w, threads);
    WaiterSleeps(m1.(mutex := Some(1), queueMutex := Some(1)), w, threads);
    Clears(m1, w, threads[1 := Asleep(Completion, false)]);
  }

  // ---- wait_running_task may sleep for ever after an empty task ----

  lemma WorkerLeaves(m: Memory, threads: map<Tid, Pc>, task: nat)
    requires Reachable(State(m, PopUnlock(task), threads)) && WORKER in threads && threads[WORKER] == Idle
    requires Is(m, task, EmptyJob)
    ensures Reachable(State(m.(queueMutex := None, ended := true), Exited(true), threads))
  {
    GoLoop(m, PopUnlock(task), threads);
    GoLoop(m.(queueMutex := None), Leaving(true), threads);
  }

  lemma WaiterReadsExecuting(m: Memory, w: WorkerPc, threads: map<Tid, Pc>)
    requires Reachable(State(m, w, threads)) && 1 in threads && threads[1] == Idle
    requires m.mutex == None && m.executing
    ensures Reachable(State(m.(mutex := Some(1)), w, threads[1 := WaitSleep(Running)]))
  {
    GoInvoke(m, w, threads, 1, WaitRunningTask);
    GoInside(m, w, threads, 1, WaitLock(Running));
    GoInside(m.(mutex := Some(1)), w, threads, 1, WaitExecuting(Running));
  }

  /** A caller of `wait_running_task` may sleep although the loop has ended, and no wait returns any more. */
  lemma WaiterMayOutliveLoop()
    ensures exists s: State ::
              && Reachable(s) && 1 in s.threads
              && s.threads[1] == Asleep(Running, false) && s.worker == Exited(true) && s.mem.executing
  {
    StartsReachable(EmptyJob);
    var m0, threads := AtStart(EmptyJob), Threads();
    WorkerTests(m0, threads);
    var m1 := m0.(queueMutex := Some(WORKER));
    WorkerTakes(m1, threads);
    WorkerLeaves(Taken(m1), threads, 0);
    var m2 := Taken(m1).(queueMutex := None, ended := true);
    WaiterReadsExecuting(m2, Exited(true), threads);
    GoInside(m2.(mutex := Some(1)), Exited(true), threads, 1, WaitSleep(Running));
  }

  // ---- wait_completion may sleep for ever after a shutdown ----

  /** The first step of `emit_shutdown` in thread 2. */
  lemma StoresShutdownFlag(m: Memory, w: WorkerPc, threads: map<Tid, Pc>, policy: Policy)
    requires Reachable(State(m, w, threads)) && 2 in threads && threads[2] == Idle
    ensures Reachable(State(m.(foreignShutdown := true, shutdown := true), w, threads[2 := ShutdownBlock(policy)]))
  {
    ReachNext(State(m, w, threads), Invoke(2, EmitShutdown(policy)));
    assert m.(foreignShutdown := m.foreignShutdown || true) == m.(foreignShutdown := true);
    GoInside(m.(foreignShutdown := true), w, threads, 2, ShutdownStore(policy));
  }

  lemma WorkerStops(m: Memory, threads: map<Tid, Pc>)
    requires Reachable(State(m, RunTest, threads)) && WORKER in threads && threads[WORKER] == Idle && m.shutdown
    ensures Reachable(State(m.(ended := true), Exited(false), threads))
  {
    GoLoop(m, RunTest, threads);
    GoLoop(m, Leaving(false), threads);
  }

  /** A caller of `wait_completion` may sleep un-notified although the loop has ended, with a task left in the queue. */
  lemma WaiterMayBeLeftBehind()
    ensures exists s: State ::
              && Reachable(s) && 1 in s.threads
              && s.threads[1] == Asleep(Completion, false) && s.worker == Exited(false) && s.mem.queue == [0]
  {
    StartsReachable(Body);
    var m, threads := AtStart(Body), Threads();
    WaiterReadsIdle(m, RunTest, threads);
    WaiterSeesTask(m.(mutex := Some(1)), RunTest, threads);
    WaiterSleeps(m.(mutex := Some(1), queueMutex := Some(1)), RunTest, threads);
    var threads1 := threads[1 := Asleep(Completion, false)];
    StoresShutdownFlag(m, RunTest, threads1, THROW);
    WorkerStops(m.(foreignShutdown := true, shutdown := true), threads1[2 := ShutdownBlock(THROW)]);
  }

  // ---- a task may call the interface ----

  lemma TaskInvokes(m: Memory, threads: map<Tid, Pc>, task: nat, call: Call)
    requires Reachable(State(m, InTask(task), threads)) && WORKER in threads && threads[WORKER] == Idle
    requires Is(m, task, Body) && !Waits(call) && !call.EmitShutdown?
    ensures Reachable(State(m, InTask(task), threads[WORKER := Entry(call)]))
  {
    ReachNext(State(m, InTask(task), threads), Invoke(WORKER, call));
    assert m.(foreignShutdown := m.foreignShutdown || false) == m;
  }

  lemma TaskPushes(m: Memory, threads: map<Tid, Pc>, job: Job)
    requires Reachable(State(m, InTask(0), threads[WORKER := PushLock(job, false, false)]))
    requires m.queueMutex == None && m.queue == []
    ensures Reachable(State(m.(queueMutex := Some(WORKER), queue := [|m.accepted|], accepted := m.accepted + [job]),
                            InTask(0), threads[WORKER := PushNotify(false)]))
  {
    var m' := m.(queueMutex := Some(WORKER));
    GoInside(m, InTask(0), threads, WORKER, PushLock(job, false, false));
    GoInside(m', InTask(0), threads, WORKER, PushStore(job, false, false));
    assert Do(m', WORKER, Enqueue(job, false, false)) ==
           m'.(queue := [|m.accepted|], accepted := m.accepted + [job]);
  }

  /** A running task may push another one. */
  lemma TaskMayPush()
    ensures exists s: State ::
              && Reachable(s) && s.worker == InTask(0) && s.mem.queue == [1] && s.mem.accepted == [Body, Body]
              && WORKER in s.threads && s.threads[WORKER] == PushNotify(false)
  {
    StartsReachable(Body);
    var m0, threads := AtStart(Body), Threads();
    WorkerTests(m0, threads);
    var m1 := m0.(queueMutex := Some(WORKER));
    WorkerTakes(m1, threads);
    WorkerRuns(Taken(m1), threads, 0);
    var m2 := Taken(m1).(queueMutex := None, canceled := false, log := Taken(m1).log + [Reset(0)]);
    TaskPushesAnother(m2, threads);
  }

  lemma TaskPushesAnother(m: Memory, threads: map<Tid, Pc>)
    requires Reachable(State(m, InTask(0), threads)) && WORKER in threads && threads[WORKER] == Idle
    requires m.accepted == [Body] && m.queue == [] && m.queueMutex == None
    ensures Reachable(State(m.(queueMutex := Some(WORKER), queue := [1], accepted := [Body, Body]),
                            InTask(0), threads[WORKER := PushNotify(false)]))
  {
    TaskInvokes(m, threads, 0, QueuePush(Body, false));
    TaskPushes(m, threads, Body);
    assert [Body] + [Body] == [Body, Body];
  }
}
