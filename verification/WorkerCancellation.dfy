/** Exactly when a task sees itself canceled: what `emit_cancel` does, and nothing else. */
module WorkerCancellation {
  import opened WorkerMachine
  import opened WorkerInvariants
  import opened WorkerCalls
  import opened WorkerEffects

  /** `emit_cancel` stores the cancellation, in exactly one step, and changes nothing else. */
  lemma EmitCancelEffect(run: seq<State>, actions: seq<Action>, lo: nat, hi: nat, t: Tid) returns (cancel: nat)
    requires Trace(run, actions) && Reachable(run[0]) && IsCall(run, actions, lo, hi, t, EmitCancel)
    ensures lo < cancel < hi && Own(actions, cancel, t) && Cancels(run[cancel].mem, run[cancel + 1].mem, t)
    ensures OnlyLocksBut(run, actions, lo, hi, t, {cancel})
  {
    var at := CallPerforms(run, actions, lo, hi, t, EmitCancel);
    cancel := OneEffect(run, actions, lo, hi, t, Cancel, at);
  }

  // ---- the flag ----

  /** The loop resets the flag, before it runs a task. */
  predicate Resets(s: State, a: Action) {
    a.Loop? && s.worker.ResetCanceled?
  }

  predicate StoresCancel(s: State, s': State, a: Action) {
    a.Inside? && Cancels(s.mem, s'.mem, a.t)
  }

  lemma OpCancels(m: Memory, t: Tid, op: Op)
    requires CanDo(m, op) && PublicOp(op)
    ensures var m' := Do(m, t, op);
            && (Cancels(m, m', t) <==> op == StoreCanceled)
            && (m'.canceled <==> m.canceled || op == StoreCanceled)
  {
    match op
    case StoreCanceled =>
    case Enqueue(_, _, _) =>
    case Swap =>
    case _ => assert |m.log| != |m.log + [Canceled(t)]|;
  }

  lemma OpKeepsCanceled(m: Memory, t: Tid, op: Op)
    requires CanDo(m, op) && op != StoreCanceled
    ensures Do(m, t, op).canceled <==> m.canceled && !op.ForgetCancel?
  {
    match op
    case Enqueue(_, _, _) =>
    case Swap =>
    case _ =>
  }

  lemma ResetTable(w: WorkerPc)
    ensures WorkerOp(w) != StoreCanceled && (WorkerOp(w).ForgetCancel? <==> w.ResetCanceled?)
  {
  }

  lemma LoopResets(m: Memory, w: WorkerPc)
    requires CanDo(m, WorkerOp(w))
    ensures Do(m, WORKER, WorkerOp(w)).canceled <==> m.canceled && !w.ResetCanceled?
  {
    ResetTable(w);
    OpKeepsCanceled(m, WORKER, WorkerOp(w));
  }

  lemma StepCancels(s: State, a: Action)
    requires Enabled(s, a)
    ensures var s' := Apply(s, a);
            s'.mem.canceled <==> (s.mem.canceled && !Resets(s, a)) || StoresCancel(s, s', a)
  {
    match a
    case Loop => LoopResets(s.mem, s.worker);
    case Inside(t) =>
      ThreadOps(s.threads[t]);
      OpCancels(s.mem, t, ThreadOp(s.threads[t]));
    case Invoke(_, _) =>
    case AskCanceled =>
  }

  ghost predicate NoResetSince(run: seq<State>, actions: seq<Action>, k: nat, n: nat)
    requires n <= |actions| && |run| == |actions| + 1
  {
    forall l {:trigger actions[l]} :: k < l < n ==> !Resets(run[l], actions[l])
  }

  ghost predicate CanceledIn(run: seq<State>, actions: seq<Action>, n: nat, k: nat)
    requires n <= |actions| && |run| == |actions| + 1
  {
    k < n && StoresCancel(run[k], run[k + 1], actions[k]) && NoResetSince(run, actions, k, n)
  }

  /** A cancellation was stored, and no reset has come after it. */
  ghost predicate CanceledBefore(run: seq<State>, actions: seq<Action>, n: nat)
    requires n <= |actions| && |run| == |actions| + 1
  {
    exists k: nat :: CanceledIn(run, actions, n, k)
  }

  lemma CanceledLater(run: seq<State>, actions: seq<Action>, n: nat)
    requires n < |actions| && |run| == |actions| + 1
    ensures StoresCancel(run[n], run[n + 1], actions[n]) || !Resets(run[n], actions[n]) ==>
              (CanceledBefore(run, actions, n + 1) <==>
                 CanceledBefore(run, actions, n) || StoresCancel(run[n], run[n + 1], actions[n]))
    ensures Resets(run[n], actions[n]) ==> !CanceledBefore(run, actions, n + 1)
  {
    if StoresCancel(run[n], run[n + 1], actions[n]) {
      assert CanceledIn(run, actions, n + 1, n);
    } else if k: nat :| CanceledIn(run, actions, n, k) && !Resets(run[n], actions[n]) {
      assert CanceledIn(run, actions, n + 1, k);
    }
    var later := n + 1;
    if k: nat :| CanceledIn(run, actions, later, k) {
      assert k < n ==> !Resets(run[n], actions[n]) && CanceledIn(run, actions, n, k);
    }
  }

  /** In every run the flag is set exactly if a cancellation has been stored since the last reset. */
  lemma {:induction false} CanceledIff(run: seq<State>, actions: seq<Action>, n: nat)
    requires Trace(run, actions) && Init(run[0]) && n <= |actions|
    ensures run[n].mem.canceled <==> CanceledBefore(run, actions, n)
  {
    if n != 0 {
      CanceledIff(run, actions, n - 1);
      assert Enabled(run[n - 1], actions[n - 1]);
      StepCancels(run[n - 1], actions[n - 1]);
      CanceledLater(run, actions, n - 1);
    }
  }

  // ---- where cancellations come from ----

  /** The calls that cancel. */
  predicate CallCancels(call: Call) {
    call.EmitCancel? || call.EmitShutdown? || (call.Post? && call.supplant)
  }

  /** The program points of a call. */
  predicate Within(call: Call, pc: Pc) {
    match pc
    case Idle => true
    case PostLock(job, supplant) => call == Post(job, supplant)
    case PostSwitch(job, supplant) => call == Post(job, supplant)
    case PostCancel(job) => call == Post(job, true)
    case PostUnlock => call.Post?
    case PushLock(_, _, posting) => posting ==> call.Post?
    case PushStore(_, _, posting) => posting ==> call.Post?
    case PushNotify(posting) => posting ==> call.Post?
    case PushUnlock(posting) => posting ==> call.Post?
    case ClearLock(next) => next.Some? ==> call.Post?
    case ClearSwap(next) => next.Some? ==> call.Post?
    case ClearUnlock(next) => next.Some? ==> call.Post?
    case BlockLock(policy) => policy.Some? ==> call == EmitShutdown(policy.value)
    case BlockNotify(policy) => policy.Some? ==> call == EmitShutdown(policy.value)
    case BlockUnlock(policy) => policy.Some? ==> call == EmitShutdown(policy.value)
    case ShutdownStore(policy) => call == EmitShutdown(policy)
    case ShutdownBlock(policy) => call == EmitShutdown(policy)
    case PolicyStore(policy, thenCancel) => call == if thenCancel then EmitShutdown(policy) else SetPolicy(policy)
    case CancelStore => call.EmitCancel? || call.EmitShutdown?
    case _ => true
  }

  lemma EntryIsWithin(call: Call)
    ensures Within(call, Entry(call))
  {
  }

  lemma NextIsWithin(m: Memory, call: Call, pc: Pc)
    requires Within(call, pc)
    ensures Within(call, NextPc(m, pc))
  {
  }

  lemma CancelerTable(call: Call, pc: Pc)
    requires Within(call, pc) && ThreadOp(pc) == StoreCanceled
    ensures CallCancels(call)
  {
  }

  /** Thread `t` is in a call that began in step `lo`. */
  ghost predicate InCallSince(run: seq<State>, actions: seq<Action>, lo: nat, n: nat, t: Tid, call: Call)
    requires |run| == |actions| + 1 && n <= |actions|
  {
    && lo < n && Begins(run[lo], actions[lo], t, call)
    && (forall k {:trigger run[k]} :: lo < k <= n ==> Busy(run[k], t))
    && Busy(run[n], t) && Within(call, run[n].threads[t])
  }

  lemma StepWithin(s: State, a: Action, t: Tid, call: Call)
    requires Enabled(s, a) && Busy(s, t) && Within(call, s.threads[t]) && Busy(Apply(s, a), t)
    ensures Within(call, Apply(s, a).threads[t])
  {
    if a == Inside(t) {
      NextIsWithin(s.mem, call, s.threads[t]);
    } else {
      OthersMoveNobody(s, a, t);
    }
  }

  lemma BecomesBusy(s: State, a: Action, t: Tid) returns (call: Call)
    requires Enabled(s, a) && !Busy(s, t) && Busy(Apply(s, a), t)
    ensures Begins(s, a, t, call)
  {
    call := if a.Invoke? then a.call else EmitShutdown(THROW);
  }

  lemma {:induction false} BusySince(run: seq<State>, actions: seq<Action>, n: nat, t: Tid)
    returns (lo: nat, call: Call)
    requires Trace(run, actions) && Init(run[0]) && n <= |actions| && Busy(run[n], t)
    ensures InCallSince(run, actions, lo, n, t, call)
  {
    assert n != 0;
    var s, a := run[n - 1], actions[n - 1];
    assert Enabled(s, a) && run[n] == Apply(s, a);
    if Busy(s, t) {
      lo, call := BusySince(run, actions, n - 1, t);
      StepWithin(s, a, t, call);
    } else {
      lo := n - 1;
      call := BecomesBusy(s, a, t);
      CallBegins(s, a, t, call);
      EntryIsWithin(call);
    }
  }

  /** Every cancellation is stored within a call that cancels: emit_cancel, emit_shutdown or a supplanting post. */
  lemma CancelComesFromCall(run: seq<State>, actions: seq<Action>, k: nat) returns (lo: nat, call: Call)
    requires Trace(run, actions) && Init(run[0]) && k < |actions| && StoresCancel(run[k], run[k + 1], actions[k])
    ensures InCallSince(run, actions, lo, k, actions[k].t, call) && CallCancels(call)
  {
    var t := actions[k].t;
    assert Enabled(run[k], actions[k]);
    lo, call := BusySince(run, actions, k, t);
    OwnCancel(run[k], t, call);
  }

  lemma OwnCancel(s: State, t: Tid, call: Call)
    requires ThreadEnabled(s, t) && Within(call, s.threads[t]) && Cancels(s.mem, ThreadStep(s, t).mem, t)
    ensures CallCancels(call)
  {
    ThreadOps(s.threads[t]);
    OpCancels(s.mem, t, ThreadOp(s.threads[t]));
    CancelerTable(call, s.threads[t]);
  }

  /**
   A running task that asks is told that it is canceled if and only if a cancellation has been stored since the last
   reset, which is its own.
   */
  lemma SeesCanceledIff(run: seq<State>, actions: seq<Action>, n: nat)
    requires Trace(run, actions) && Init(run[0]) && n <= |actions|
    requires run[n].worker.InTask? && Is(run[n].mem, run[n].worker.task, Body)
    ensures Enabled(run[n], AskCanceled)
    ensures var s, s' := run[n], Apply(run[n], AskCanceled);
            && (CanceledBefore(run, actions, n) ==> s'.mem.log == s.mem.log + [SawCanceled(s.worker.task)])
            && (!CanceledBefore(run, actions, n) ==> s' == s)
    ensures exists l: nat {:trigger actions[l]} ::
              && l < n && Resets(run[l], actions[l]) && run[l].worker.task == run[n].worker.task
              && NoResetSince(run, actions, l, n)
  {
    CanceledIff(run, actions, n);
    var l := OwnReset(run, actions, n);
  }

  lemma {:induction false} OwnReset(run: seq<State>, actions: seq<Action>, n: nat) returns (l: nat)
    requires Trace(run, actions) && Init(run[0]) && n <= |actions| && run[n].worker.InTask?
    ensures l < n && Resets(run[l], actions[l]) && run[l].worker.task == run[n].worker.task
    ensures NoResetSince(run, actions, l, n)
  {
    assert n != 0;
    var s, a := run[n - 1], actions[n - 1];
    assert Enabled(s, a) && run[n] == Apply(s, a);
    StepIntoTask(s, a);
    if Resets(s, a) {
      l := n - 1;
    } else {
      l := OwnReset(run, actions, n - 1);
    }
  }

  lemma StepIntoTask(s: State, a: Action)
    requires Enabled(s, a) && Apply(s, a).worker.InTask?
    ensures if Resets(s, a) then s.worker.task == Apply(s, a).worker.task else s.worker == Apply(s, a).worker
  {
  }
}
