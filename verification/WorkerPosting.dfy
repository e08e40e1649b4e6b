/** The policy for new tasks, and cancellation. */
module WorkerPosting {
  import opened WorkerMachine
  import opened WorkerInvariants
  import opened WorkerShutdown

  // ---- a policy that refuses ----

  ghost predicate SomePastSwitch(s: State) {
    exists t <- s.threads :: PastSwitch(s.threads[t])
  }

  /** The tasks that came through `post`, with the one that can no longer be refused. */
  ghost function Posts(s: State): nat {
    s.mem.posted + if SomePastSwitch(s) then 1 else 0
  }

  lemma SwitchTable(m: Memory, pc: Pc)
    ensures PastSwitch(NextPc(m, pc)) ==> PastSwitch(pc) || m.policy.Admits()
    ensures ThreadOp(pc).Enqueue? && ThreadOp(pc).posting ==> PastSwitch(pc) && !PastSwitch(NextPc(m, pc))
  {
  }

  lemma PublicOpPosts(m: Memory, t: Tid, op: Op)
    requires CanDo(m, op) && PublicOp(op)
    ensures Do(m, t, op).posted == m.posted + if op.Enqueue? && op.posting then 1 else 0
  {
    match op
    case Enqueue(_, _, _) =>
    case Swap =>
    case _ =>
  }

  lemma ThreadRefused(s: State, t: Tid)
    requires Locks(s) && !s.mem.policy.Admits() && ThreadEnabled(s, t)
    ensures Posts(ThreadStep(s, t)) <= Posts(s)
  {
    var s' := ThreadStep(s, t);
    var op := ThreadOp(s.threads[t]);
    ThreadOps(s.threads[t]);
    SwitchTable(s.mem, s.threads[t]);
    PublicOpPosts(s.mem, t, op);
    if SomePastSwitch(s') {
      var u :| u in s'.threads && PastSwitch(s'.threads[u]);
      assert PastSwitch(s.threads[u]);
      Exclusion(s, t);
    }
    if op.Enqueue? && op.posting {
      assert PastSwitch(s.threads[t]);
    }
  }

  lemma LoopRefused(s: State)
    requires WorkerEnabled(s)
    ensures Posts(WorkerStep(s)) <= Posts(s)
  {
    var s' := WorkerStep(s);
    WorkerMovesThreads(s);
    LoopPosts(s.mem, s.worker);
    if SomePastSwitch(s') {
      var u :| u in s'.threads && PastSwitch(s'.threads[u]);
      assert PastSwitch(s.threads[u]);
    }
  }

  lemma LoopPosts(m: Memory, w: WorkerPc)
    requires CanDo(m, WorkerOp(w))
    ensures Do(m, WORKER, WorkerOp(w)).posted == m.posted
  {
    LoopOps(w);
    if !w.Front? {
      QuietOpKeepsStarts(m, WORKER, WorkerOp(w));
    }
  }

  lemma EntryRefused(s: State, t: Tid, call: Call)
    requires Enabled(s, Invoke(t, call))
    ensures Posts(Apply(s, Invoke(t, call))) <= Posts(s)
  {
    var s' := Apply(s, Invoke(t, call));
    if SomePastSwitch(s') {
      var u :| u in s'.threads && PastSwitch(s'.threads[u]);
      assert !PastSwitch(Entry(call));
      assert PastSwitch(s.threads[u]);
    }
  }

  lemma StepRefused(s: State, a: Action)
    requires Locks(s) && !s.mem.policy.Admits() && Enabled(s, a)
    ensures Posts(Apply(s, a)) <= Posts(s)
  {
    match a
    case Loop => LoopRefused(s);
    case Inside(t) => ThreadRefused(s, t);
    case Invoke(t, call) => EntryRefused(s, t, call);
    case AskCanceled =>
  }

  // ---- cancellation ----

  /** `log[k]` is a cancellation between `log[i]`, the reset for `task`, and the end; no other reset follows. */
  ghost predicate CanceledSince(log: seq<Event>, task: nat, i: nat, k: nat) {
    && i < k < |log|
    && log[i] == Reset(task) && log[k].Canceled?
    && forall j :: i < j < |log| ==> !log[j].Reset?
  }

  ghost predicate ResetSince(log: seq<Event>, task: nat, i: nat) {
    && i < |log| && log[i] == Reset(task)
    && forall j :: i < j < |log| ==> !log[j].Reset?
  }

  /** Every task that saw itself canceled was canceled after its own reset. */
  ghost predicate SightsExplained(log: seq<Event>) {
    forall j :: 0 <= j < |log| && log[j].SawCanceled? ==>
      exists i: nat, k: nat :: CanceledSince(log[..j], log[j].task, i, k)
  }

  ghost predicate CancelHistory(m: Memory, w: WorkerPc) {
    && SightsExplained(m.log)
    && (w.InTask? ==> exists i: nat :: ResetSince(m.log, w.task, i))
    && (w.InTask? && m.canceled ==> exists i: nat, k: nat :: CanceledSince(m.log, w.task, i, k))
  }

  lemma ExtendSights(log: seq<Event>, e: Event)
    requires SightsExplained(log)
    requires e.SawCanceled? ==> exists i: nat, k: nat :: CanceledSince(log, e.task, i, k)
    ensures SightsExplained(log + [e])
  {
    var log' := log + [e];
    forall j | 0 <= j < |log'| && log'[j].SawCanceled?
      ensures exists i: nat, k: nat :: CanceledSince(log'[..j], log'[j].task, i, k)
    {
      if j < |log| {
        assert log'[..j] == log[..j];
      } else {
        assert log'[..j] == log;
      }
    }
  }

  /** An event that is not a reset keeps what was known of the current task; a cancellation adds to it. */
  lemma ExtendCurrent(log: seq<Event>, task: nat, e: Event)
    requires !e.Reset?
    requires exists i: nat :: ResetSince(log, task, i)
    ensures exists i: nat :: ResetSince(log + [e], task, i)
    ensures (exists i: nat, k: nat :: CanceledSince(log, task, i, k)) ==>
              exists i: nat, k: nat :: CanceledSince(log + [e], task, i, k)
    ensures e.Canceled? ==> exists i: nat, k: nat :: CanceledSince(log + [e], task, i, k)
  {
    var i: nat :| ResetSince(log, task, i);
    assert ResetSince(log + [e], task, i);
    if i': nat, k: nat :| CanceledSince(log, task, i', k) {
      assert CanceledSince(log + [e], task, i', k);
    }
    if e.Canceled? {
      assert CanceledSince(log + [e], task, i, |log|);
    }
  }

  lemma PublicOpLogs(m: Memory, t: Tid, op: Op)
    requires CanDo(m, op) && PublicOp(op)
    ensures var m' := Do(m, t, op);
            if op == StoreCanceled then m'.log == m.log + [Canceled(t)] && m'.canceled
            else m'.log == m.log && m'.canceled == m.canceled
  {
  }

  lemma ThreadKeepsCancelHistory(s: State, t: Tid)
    requires CancelHistory(s.mem, s.worker) && ThreadEnabled(s, t)
    ensures CancelHistory(ThreadStep(s, t).mem, ThreadStep(s, t).worker)
  {
    var op := ThreadOp(s.threads[t]);
    ThreadOps(s.threads[t]);
    PublicOpLogs(s.mem, t, op);
    if op == StoreCanceled {
      ExtendSights(s.mem.log, Canceled(t));
      if s.worker.InTask? {
        ExtendCurrent(s.mem.log, s.worker.task, Canceled(t));
      }
    }
  }

  lemma LoopLogs(m: Memory, w: WorkerPc)
    requires CanDo(m, WorkerOp(w))
    ensures var m' := Do(m, WORKER, WorkerOp(w));
            if w.ResetCanceled?
            then m'.log == m.log + [Reset(w.task)] && !m'.canceled && WorkerNext(m, w) == InTask(w.task)
            else m'.log == m.log && m'.canceled == m.canceled && !WorkerNext(m, w).InTask?
  {
    match w
    case ResetCanceled(_) =>
    case Front =>
    case _ =>
  }

  lemma KeepsCancelHistory(s: State, a: Action)
    requires CancelHistory(s.mem, s.worker) && Enabled(s, a)
    ensures CancelHistory(Apply(s, a).mem, Apply(s, a).worker)
  {
    match a
    case Loop =>
      LoopLogs(s.mem, s.worker);
      if s.worker.ResetCanceled? {
        var e := Reset(s.worker.task);
        ExtendSights(s.mem.log, e);
        assert ResetSince(s.mem.log + [e], s.worker.task, |s.mem.log|);
      }
    case Inside(t) => ThreadKeepsCancelHistory(s, t);
    case Invoke(_, _) =>
    case AskCanceled =>
      if s.mem.canceled {
        var e := SawCanceled(s.worker.task);
        ExtendSights(s.mem.log, e);
        ExtendCurrent(s.mem.log, s.worker.task, e);
      }
  }
}
