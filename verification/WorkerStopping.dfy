/** What `Worker::stop_now` achieves: policy IGNORE, no pause, a clear and a cancellation, one after the other. */
module WorkerStopping {
  import opened WorkerMachine
  import opened WorkerInvariants
  import opened WorkerShutdown
  import opened WorkerPosting
  import opened WorkerTheorems

  predicate Does(s: State, a: Action, op: Op) {
    a.Inside? && a.t in s.threads && ThreadOp(s.threads[a.t]) == op
  }

  predicate Pushes(s: State, a: Action) {
    a.Inside? && a.t in s.threads && ThreadOp(s.threads[a.t]).Enqueue?
  }

  /** A push that does not come through `post`. */
  predicate PushesDirectly(s: State, a: Action) {
    Pushes(s, a) && !ThreadOp(s.threads[a.t]).posting
  }

  /** A change to a policy under which `post` goes on. */
  predicate Readmits(s: State, a: Action) {
    && a.Inside? && a.t in s.threads && ThreadOp(s.threads[a.t]).StorePolicy?
    && ThreadOp(s.threads[a.t]).newPolicy.Admits()
  }

  // ---- one step ----

  /** What is only added to. */
  ghost predicate Later(m: Memory, m': Memory) {
    m.started <= m'.started && m.dropped <= m'.dropped && m.accepted <= m'.accepted
  }

  lemma OpAccepts(m: Memory, t: Tid, op: Op)
    requires CanDo(m, op) && PublicOp(op)
    ensures var m' := Do(m, t, op);
            && Later(m, m')
            && |m'.accepted| == |m.accepted| + (if op.Enqueue? then 1 else 0)
            && m'.posted == m.posted + (if op.Enqueue? && op.posting then 1 else 0)
            && m'.policy == if op.StorePolicy? then op.newPolicy else m.policy
  {
    PublicOpFrame(m, t, op);
    match op
    case Enqueue(_, _, _) =>
    case StorePolicy(_) =>
    case _ =>
  }

  lemma OpKeepsPolicy(m: Memory, t: Tid, op: Op)
    requires CanDo(m, op) && !op.StorePolicy?
    ensures Do(m, t, op).policy == m.policy
  {
    match op
    case Enqueue(_, _, _) =>
    case Swap =>
    case _ =>
  }

  lemma LoopStoresNoPolicy(w: WorkerPc)
    ensures !WorkerOp(w).StorePolicy?
  {
  }

  lemma DequeueAdds(m: Memory)
    requires m.queue != []
    ensures var m' := Do(m, WORKER, Dequeue); Later(m, m') && m'.accepted == m.accepted && m'.posted == m.posted
  {
  }

  lemma LoopAdds(m: Memory, w: WorkerPc)
    requires CanDo(m, WorkerOp(w))
    ensures var m' := Do(m, WORKER, WorkerOp(w));
            Later(m, m') && m'.accepted == m.accepted && m'.posted == m.posted && m'.policy == m.policy
  {
    LoopStoresNoPolicy(w);
    OpKeepsPolicy(m, WORKER, WorkerOp(w));
    LoopOps(w);
    if w.Front? {
      DequeueAdds(m);
    } else {
      QuietOpKeepsStarts(m, WORKER, WorkerOp(w));
    }
  }

  lemma StepAdds(s: State, a: Action)
    requires Enabled(s, a)
    ensures var m, m' := s.mem, Apply(s, a).mem;
            && Later(m, m')
            && |m'.accepted| == |m.accepted| + (if Pushes(s, a) then 1 else 0)
            && (!PushesDirectly(s, a) ==> |m'.accepted| - m'.posted == |m.accepted| - m.posted)
            && (!m.policy.Admits() && !Readmits(s, a) ==> !m'.policy.Admits())
  {
    match a
    case Loop => LoopAdds(s.mem, s.worker);
    case Inside(t) =>
      ThreadOps(s.threads[t]);
      OpAccepts(s.mem, t, ThreadOp(s.threads[t]));
    case Invoke(_, _) =>
    case AskCanceled =>
  }

  // ---- runs under a refusing policy ----

  ghost predicate NobodyReadmits(run: seq<State>, actions: seq<Action>)
    requires |run| == |actions| + 1
  {
    forall i {:trigger actions[i]} :: 0 <= i < |actions| ==> !Readmits(run[i], actions[i])
  }

  ghost predicate NobodyPushesDirectly(run: seq<State>, actions: seq<Action>)
    requires |run| == |actions| + 1
  {
    forall i {:trigger actions[i]} :: 0 <= i < |actions| ==> !PushesDirectly(run[i], actions[i])
  }

  lemma {:induction false} TraceStaysRefusing(run: seq<State>, actions: seq<Action>, n: nat)
    requires Trace(run, actions) && n <= |actions| && !run[0].mem.policy.Admits() && NobodyReadmits(run, actions)
    ensures forall i :: 0 <= i <= n ==> !run[i].mem.policy.Admits()
  {
    if n != 0 {
      TraceStaysRefusing(run, actions, n - 1);
      StaysRefusing(run, actions, n - 1);
    }
  }

  ghost predicate SomePush(run: seq<State>, actions: seq<Action>, n: nat)
    requires n <= |actions| && |run| == |actions| + 1
  {
    exists i {:trigger actions[i]} :: 0 <= i < n && Pushes(run[i], actions[i])
  }

  ghost predicate Adds(run: seq<State>, actions: seq<Action>, n: nat)
    requires n <= |actions| && |run| == |actions| + 1
  {
    && Later(run[0].mem, run[n].mem)
    && |run[n].mem.accepted| - run[n].mem.posted == |run[0].mem.accepted| - run[0].mem.posted
    && (SomePush(run, actions, n) <==> |run[n].mem.accepted| > |run[0].mem.accepted|)
  }

  lemma AddsNothing(run: seq<State>, actions: seq<Action>)
    requires |run| == |actions| + 1
    ensures Adds(run, actions, 0)
  {
  }

  lemma SomePushLater(run: seq<State>, actions: seq<Action>, n: nat)
    requires n < |actions| && |run| == |actions| + 1
    ensures SomePush(run, actions, n + 1) <==> SomePush(run, actions, n) || Pushes(run[n], actions[n])
  {
  }

  lemma LaterIsTransitive(m: Memory, m': Memory, m'': Memory)
    requires Later(m, m') && Later(m', m'')
    ensures Later(m, m'')
  {
  }

  lemma AddsNext(run: seq<State>, actions: seq<Action>, n: nat)
    requires Trace(run, actions) && n < |actions| && NobodyPushesDirectly(run, actions) && Adds(run, actions, n)
    ensures Adds(run, actions, n + 1)
  {
    assert Enabled(run[n], actions[n]) && !PushesDirectly(run[n], actions[n]);
    StepAdds(run[n], actions[n]);
    SomePushLater(run, actions, n);
    LaterIsTransitive(run[0].mem, run[n].mem, run[n + 1].mem);
  }

  lemma {:induction false} TraceAdds(run: seq<State>, actions: seq<Action>, n: nat)
    requires Trace(run, actions) && n <= |actions| && NobodyPushesDirectly(run, actions)
    ensures Adds(run, actions, n)
  {
    if n == 0 {
      AddsNothing(run, actions);
    } else {
      TraceAdds(run, actions, n - 1);
      AddsNext(run, actions, n - 1);
    }
  }

  /** From when the queue has been emptied, at most one task is accepted, by a caller who was past the switch. */
  lemma OneAccepted(run: seq<State>, actions: seq<Action>)
    requires Trace(run, actions) && Reachable(run[0]) && !run[0].mem.policy.Admits()
    requires NobodyReadmits(run, actions) && NobodyPushesDirectly(run, actions)
    ensures var m, m' := run[0].mem, run[|actions|].mem;
            && Later(m, m') && |m'.accepted| <= |m.accepted| + 1
            && (|m'.accepted| == |m.accepted| + 1 <==> SomePush(run, actions, |actions|))
            && (SomePush(run, actions, |actions|) ==> SomePastSwitch(run[0]))
  {
    TraceStaysRefusing(run, actions, |actions|);
    PolicyRefuses(run, actions);
    TraceAdds(run, actions, |actions|);
  }

  // ---- the last look of stop_now ----

  lemma OldTasksAreGone(m: Memory, w: WorkerPc, m': Memory)
    requires Accounting(m, w) && m.queue == [] && Later(m, m')
    ensures forall id: nat :: id < |m.accepted| ==> id in m'.dropped || id in m'.started
  {
    RemainingElements(|m.accepted|, m.dropped);
    assert m.started + m.queue == m.started;
    forall id: nat | id in m.started ensures id in m'.started {
      var i :| 0 <= i < |m.started| && m.started[i] == id;
      assert m'.started[i] == id;
    }
  }

  lemma QueueIsNew(s: State, n: nat)
    requires Reachable(s)
    requires forall id: nat :: id < n ==> id in s.mem.dropped || id in s.mem.started
    ensures forall id <- s.mem.queue :: n <= id < |s.mem.accepted|
    ensures forall i, j :: 0 <= i < j < |s.mem.queue| ==> s.mem.queue[i] < s.mem.queue[j]
    ensures forall id: nat :: id < |s.mem.accepted| && id !in s.mem.dropped && id !in s.mem.started ==>
              id in s.mem.queue
    ensures forall id <- s.mem.queue :: id !in s.mem.dropped && id !in s.mem.started
  {
    TasksConserved(s);
    ReachableAccounting(s);
    var started, queue := s.mem.started, s.mem.queue;
    RemainingElements(|s.mem.accepted|, s.mem.dropped);
    Joined(started, queue);
    forall id <- queue ensures id !in started {
      var j :| 0 <= j < |queue| && queue[j] == id;
    }
  }

  lemma Joined(front: seq<nat>, back: seq<nat>)
    requires forall i, j :: 0 <= i < j < |front + back| ==> (front + back)[i] < (front + back)[j]
    ensures forall i, j :: 0 <= i < j < |back| ==> back[i] < back[j]
    ensures forall id: nat :: id in front + back <==> id in front || id in back
  {
    assert forall j {:trigger back[j]} :: 0 <= j < |back| ==> (front + back)[|front| + j] == back[j];
  }

  lemma AtMostOne(queue: seq<nat>, id: nat)
    requires forall x <- queue :: x == id
    requires forall i, j :: 0 <= i < j < |queue| ==> queue[i] < queue[j]
    ensures queue == if id in queue then [id] else []
  {
    if queue != [] {
      assert queue[0] in queue && queue[|queue| - 1] in queue;
    }
  }

  lemma TraceSlice(run: seq<State>, actions: seq<Action>, lo: nat, hi: nat)
    requires Trace(run, actions) && lo <= hi <= |actions|
    ensures Trace(run[lo..hi + 1], actions[lo..hi])
  {
    forall i | 0 <= i < hi - lo
      ensures Enabled(run[lo..hi + 1][i], actions[lo..hi][i])
      ensures run[lo..hi + 1][i + 1] == Apply(run[lo..hi + 1][i], actions[lo..hi][i])
    {
      assert Enabled(run[lo + i], actions[lo + i]);
    }
  }

  lemma {:induction false} ReachableAt(run: seq<State>, actions: seq<Action>, n: nat)
    requires Trace(run, actions) && Reachable(run[0]) && n <= |actions|
    ensures Reachable(run[n])
  {
    if n != 0 {
      ReachableAt(run, actions, n - 1);
      assert Enabled(run[n - 1], actions[n - 1]);
      ReachNext(run[n - 1], actions[n - 1]);
    }
  }

  predicate DoneBy(run: seq<State>, actions: seq<Action>, i: nat, c: Tid, op: Op)
    requires |run| == |actions| + 1
  {
    i < |actions| && actions[i] == Inside(c) && Does(run[i], actions[i], op)
  }

  /** The steps of a call of `stop_now` by `c`: policy IGNORE, no pause, the clear, the cancellation, the last look. */
  predicate StopsNow(
    run: seq<State>, actions: seq<Action>, c: Tid, refuse: nat, resume: nat, swap: nat, cancel: nat, look: nat)
    requires |run| == |actions| + 1
  {
    && refuse < resume < swap < cancel < look < |actions|
    && DoneBy(run, actions, refuse, c, StorePolicy(IGNORE))
    && DoneBy(run, actions, resume, c, StoreBlocked(false))
    && DoneBy(run, actions, swap, c, Op.Swap)
    && DoneBy(run, actions, cancel, c, StoreCanceled)
    && actions[look] == Inside(c) && c in run[look].threads && run[look].threads[c] == WaitExecuting(Running)
    && c in run[look + 1].threads && run[look + 1].threads[c].WaitUnlock?
  }

  ghost predicate PushBetween(run: seq<State>, actions: seq<Action>, lo: nat, hi: nat)
    requires lo <= hi <= |actions| && |run| == |actions| + 1
  {
    exists i {:trigger actions[i]} :: lo < i < hi && Pushes(run[i], actions[i])
  }

  /** Nobody makes `post` go on again after the first step, and nobody pushes directly after the clear. */
  ghost predicate NobodyInterferes(run: seq<State>, actions: seq<Action>, refuse: nat, swap: nat, look: nat)
    requires refuse <= swap < look <= |actions| && |run| == |actions| + 1
  {
    && (forall i {:trigger actions[i]} :: refuse < i < look ==> !Readmits(run[i], actions[i]))
    && (forall i {:trigger actions[i]} :: swap < i < look ==> !PushesDirectly(run[i], actions[i]))
  }

  lemma SliceOfPushes(run: seq<State>, actions: seq<Action>, refuse: nat, lo: nat, hi: nat)
    requires refuse < lo < hi <= |actions| && |run| == |actions| + 1
    requires NobodyInterferes(run, actions, refuse, lo, hi)
    ensures var run', actions' := run[lo + 1..hi + 1], actions[lo + 1..hi];
            && NobodyReadmits(run', actions') && NobodyPushesDirectly(run', actions')
            && (SomePush(run', actions', |actions'|) <==> PushBetween(run, actions, lo, hi))
  {
    var run', actions' := run[lo + 1..hi + 1], actions[lo + 1..hi];
    assert forall i {:trigger actions'[i]} :: 0 <= i < |actions'| ==>
        run'[i] == run[lo + 1 + i] && actions'[i] == actions[lo + 1 + i];
    if i :| lo < i < hi && Pushes(run[i], actions[i]) {
      assert Pushes(run'[i - lo - 1], actions'[i - lo - 1]);
    }
  }

  lemma RefusesAfter(run: seq<State>, actions: seq<Action>, c: Tid, refuse: nat)
    requires Trace(run, actions) && DoneBy(run, actions, refuse, c, StorePolicy(IGNORE))
    ensures !run[refuse + 1].mem.policy.Admits()
  {
    assert Enabled(run[refuse], actions[refuse]);
  }

  lemma StaysRefusing(run: seq<State>, actions: seq<Action>, n: nat)
    requires Trace(run, actions) && n < |actions| && !run[n].mem.policy.Admits() && !Readmits(run[n], actions[n])
    ensures !run[n + 1].mem.policy.Admits()
  {
    assert Enabled(run[n], actions[n]);
    StepAdds(run[n], actions[n]);
  }

  lemma {:induction false} StillRefusing(
    run: seq<State>, actions: seq<Action>, refuse: nat, swap: nat, look: nat, n: nat)
    requires Trace(run, actions) && refuse < n <= look <= |actions| && refuse < swap < look
    requires !run[refuse + 1].mem.policy.Admits() && NobodyInterferes(run, actions, refuse, swap, look)
    ensures !run[n].mem.policy.Admits()
  {
    var i := n - 1;
    if i > refuse {
      StillRefusing(run, actions, refuse, swap, look, i);
      assert !Readmits(run[i], actions[i]);
      StaysRefusing(run, actions, i);
    }
  }

  lemma Emptied(run: seq<State>, actions: seq<Action>, c: Tid, swap: nat)
    requires Trace(run, actions) && DoneBy(run, actions, swap, c, Op.Swap)
    ensures run[swap + 1].mem.queue == [] && run[swap + 1].mem.accepted == run[swap].mem.accepted
  {
    assert Enabled(run[swap], actions[swap]);
  }

  lemma LookSeesNone(run: seq<State>, actions: seq<Action>, c: Tid, look: nat)
    requires Trace(run, actions) && look < |actions| && Reachable(run[look]) && actions[look] == Inside(c)
    requires c in run[look].threads && run[look].threads[c] == WaitExecuting(Running)
    requires c in run[look + 1].threads && run[look + 1].threads[c].WaitUnlock?
    ensures !run[look].worker.Front? && !InFlight(run[look].worker)
    ensures |run[look].mem.started| == run[look].mem.finished
  {
    assert Enabled(run[look], actions[look]);
    CancelWaitsForTask(run[look], c);
  }

  /** The queue has just been emptied and `post` refuses; `id` is the number of the next task. */
  predicate Cleared(s: State, id: nat) {
    s.mem.queue == [] && |s.mem.accepted| == id && !s.mem.policy.Admits()
  }

  ghost predicate AtMostOneMore(m: Memory, m': Memory, pushed: bool) {
    && Later(m, m') && |m'.accepted| <= |m.accepted| + 1
    && (|m'.accepted| == |m.accepted| + 1 <==> pushed)
  }

  lemma OneAcceptedSince(run: seq<State>, actions: seq<Action>, refuse: nat, swap: nat, look: nat, id: nat)
    requires Trace(run, actions) && refuse < swap < look <= |actions| && Reachable(run[swap + 1])
    requires Cleared(run[swap + 1], id) && NobodyInterferes(run, actions, refuse, swap, look)
    ensures AtMostOneMore(run[swap + 1].mem, run[look].mem, PushBetween(run, actions, swap, look))
    ensures PushBetween(run, actions, swap, look) ==> SomePastSwitch(run[swap + 1])
  {
    var run', actions' := run[swap + 1..look + 1], actions[swap + 1..look];
    TraceSlice(run, actions, swap + 1, look);
    SliceOfPushes(run, actions, refuse, swap, look);
    assert run'[0] == run[swap + 1] && run'[|actions'|] == run[look];
    OneAccepted(run', actions');
  }

  /** Everything before number `id` is gone, and that one is queued exactly if it was pushed and is not gone too. */
  ghost predicate OnlyNewTask(m: Memory, id: nat, pushed: bool) {
    && (forall k: nat :: k < id ==> k in m.dropped || k in m.started)
    && (m.queue == [] || m.queue == [id])
    && (m.queue == [id] <==> pushed && id !in m.started && id !in m.dropped)
  }

  lemma QueueCleared(run: seq<State>, actions: seq<Action>, c: Tid, refuse: nat, swap: nat, look: nat)
    requires Trace(run, actions) && refuse < swap < look <= |actions|
    requires DoneBy(run, actions, refuse, c, StorePolicy(IGNORE)) && DoneBy(run, actions, swap, c, Op.Swap)
    requires NobodyInterferes(run, actions, refuse, swap, look)
    ensures Cleared(run[swap + 1], |run[swap].mem.accepted|)
  {
    assert !run[swap + 1].mem.policy.Admits() by {
      RefusesAfter(run, actions, c, refuse);
      StillRefusing(run, actions, refuse, swap, look, swap + 1);
    }
    Emptied(run, actions, c, swap);
  }

  lemma QueueAtLook(run: seq<State>, actions: seq<Action>, refuse: nat, swap: nat, look: nat, id: nat)
    requires Trace(run, actions) && Reachable(run[0]) && refuse < swap < look <= |actions|
    requires Cleared(run[swap + 1], id) && NobodyInterferes(run, actions, refuse, swap, look)
    ensures OnlyNewTask(run[look].mem, id, PushBetween(run, actions, swap, look))
    ensures PushBetween(run, actions, swap, look) ==> SomePastSwitch(run[swap + 1])
  {
    OneAcceptedSince(run, actions, refuse, swap, look, id) by {
      ReachableAt(run, actions, swap + 1);
    }
    NewQueue(run[swap + 1], run[look], id, PushBetween(run, actions, swap, look)) by {
      ReachableAt(run, actions, swap + 1);
      ReachableAt(run, actions, look);
    }
  }

  /**
   At the last look of `stop_now` no task is in flight, and every task accepted before its clear has completed or been
   dropped. At most one task may still be queued: one that a caller already past the switch pushed after the clear.
   If nobody makes `post` go on and nobody pushes without it, it is there exactly if there was such a push and
   nothing has taken or dropped it.
   */
  lemma StopNowQuiesces(
    run: seq<State>, actions: seq<Action>, c: Tid, refuse: nat, resume: nat, swap: nat, cancel: nat, look: nat)
    requires Trace(run, actions) && Reachable(run[0])
    requires StopsNow(run, actions, c, refuse, resume, swap, cancel, look)
    requires NobodyInterferes(run, actions, refuse, swap, look)
    ensures var s := run[look];
            && !s.worker.Front? && !InFlight(s.worker) && |s.mem.started| == s.mem.finished
            && OnlyNewTask(s.mem, |run[swap].mem.accepted|, PushBetween(run, actions, swap, look))
            && (PushBetween(run, actions, swap, look) ==> SomePastSwitch(run[swap + 1]))
  {
    LookSeesNone(run, actions, c, look) by {
      ReachableAt(run, actions, look);
    }
    QueueCleared(run, actions, c, refuse, swap, look);
    QueueAtLook(run, actions, refuse, swap, look, |run[swap].mem.accepted|);
  }

  lemma NewQueue(s: State, s': State, id: nat, pushed: bool)
    requires Reachable(s) && Reachable(s') && Cleared(s, id) && AtMostOneMore(s.mem, s'.mem, pushed)
    ensures OnlyNewTask(s'.mem, id, pushed)
  {
    ReachableAccounting(s);
    OldTasksAreGone(s.mem, s.worker, s'.mem);
    QueueIsNew(s', id);
    AtMostOne(s'.mem.queue, id);
  }
}
