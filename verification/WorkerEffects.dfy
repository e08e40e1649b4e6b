/** What the calls of the worker's interface achieve, from their effects on memory. */
module WorkerEffects {
  import opened WorkerMachine
  import opened WorkerInvariants
  import opened WorkerShutdown
  import opened WorkerTheorems
  import opened WorkerStopping
  import opened WorkerCalls

  /** Between `lo` and `hi` the steps of `t` other than those in `but` only lock and unlock. */
  ghost predicate OnlyLocksBut(run: seq<State>, actions: seq<Action>, lo: nat, hi: nat, t: Tid, but: set<nat>)
    requires hi <= |actions| && |run| == |actions| + 1
  {
    forall k: nat {:trigger Own(actions, k, t)} :: lo < k < hi && Own(actions, k, t) && k !in but ==>
      OnlyLocks(run[k].mem, run[k + 1].mem)
  }

  // ---- post and planned_shutdown ----

  /** `job` becomes the last one in the queue, and nothing else changes but the count of posts. */
  predicate PutsLast(m: Memory, m': Memory, job: Job) {
    && m'.queue == m.queue + [|m.accepted|] && m'.accepted == m.accepted + [job]
    && m' == m.(queue := m'.queue, accepted := m'.accepted, posted := m'.posted)
  }

  predicate Clears(m: Memory, m': Memory) {
    && m'.queue == [] && m'.dropped == m.dropped + set id | id in m.queue
    && m' == m.(queue := m'.queue, dropped := m'.dropped, droppedLive := m'.droppedLive)
  }

  predicate Cancels(m: Memory, m': Memory, t: Tid) {
    m' == m.(canceled := true, log := m.log + [Canceled(t)])
  }

  lemma PutMeans(m: Memory, t: Tid, job: Job, posting: bool)
    ensures PutsLast(m, Changed(m, t, Put(job, false, posting)), job)
  {
  }

  lemma EmptyMeans(m: Memory, t: Tid)
    ensures Clears(m, Changed(m, t, Empty))
  {
  }

  lemma NoEffect(run: seq<State>, actions: seq<Action>, lo: nat, hi: nat, t: Tid, at: seq<nat>)
    requires |run| == |actions| + 1 && lo < hi <= |actions| && Performs(run, actions, lo + 1, hi, t, [], at)
    ensures OnlyLocksBut(run, actions, lo, hi, t, {})
  {
  }

  lemma OneEffect(run: seq<State>, actions: seq<Action>, lo: nat, hi: nat, t: Tid, e: Effect, at: seq<nat>)
    returns (k: nat)
    requires |run| == |actions| + 1 && lo < hi <= |actions| && Performs(run, actions, lo + 1, hi, t, [e], at)
    ensures lo < k < hi && Makes(run, actions, k, t, e) && OnlyLocksBut(run, actions, lo, hi, t, {k})
  {
    k := at[0];
    assert at == [k];
  }

  lemma ThreeEffects(
    run: seq<State>, actions: seq<Action>, lo: nat, hi: nat, t: Tid, e: Effect, f: Effect, g: Effect, at: seq<nat>)
    returns (i: nat, j: nat, k: nat)
    requires |run| == |actions| + 1 && lo < hi <= |actions| && Performs(run, actions, lo + 1, hi, t, [e, f, g], at)
    ensures lo < i < j < k < hi && OnlyLocksBut(run, actions, lo, hi, t, {i, j, k})
    ensures Makes(run, actions, i, t, e) && Makes(run, actions, j, t, f) && Makes(run, actions, k, t, g)
  {
    i, j, k := at[0], at[1], at[2];
    assert at == [i, j, k];
    assert [e, f, g][0] == e && [e, f, g][1] == f && [e, f, g][2] == g;
  }

  /** `t` puts the job behind everything queued in step `put`; a supplanting call cancels and clears before. */
  ghost predicate PutsOnce(
    run: seq<State>, actions: seq<Action>, lo: nat, hi: nat, t: Tid, job: Job, supplant: bool,
    cancel: nat, clear: nat, put: nat)
    requires |run| == |actions| + 1 && lo < hi <= |actions|
  {
    && lo < put < hi && Own(actions, put, t) && PutsLast(run[put].mem, run[put + 1].mem, job)
    && OnlyLocksBut(run, actions, lo, hi, t, if supplant then {cancel, clear, put} else {put})
    && (supplant ==>
          && lo < cancel < clear < put && Own(actions, cancel, t) && Own(actions, clear, t)
          && Cancels(run[cancel].mem, run[cancel + 1].mem, t) && Clears(run[clear].mem, run[clear + 1].mem))
  }

  lemma AdmittedEffect(
    run: seq<State>, actions: seq<Action>, lo: nat, hi: nat, t: Tid, job: Job, supplant: bool, at: seq<nat>)
    returns (cancel: nat, clear: nat, put: nat)
    requires |run| == |actions| + 1 && lo < hi <= |actions|
    requires Performs(run, actions, lo + 1, hi, t, Script(Post(job, supplant), true), at)
    ensures PutsOnce(run, actions, lo, hi, t, job, supplant, cancel, clear, put)
  {
    cancel, clear := 0, 0;
    if supplant {
      cancel, clear, put := ThreeEffects(run, actions, lo, hi, t, Cancel, Empty, Put(job, false, true), at);
      EmptyMeans(run[clear].mem, t);
    } else {
      put := OneEffect(run, actions, lo, hi, t, Put(job, false, true), at);
    }
    PutMeans(run[put].mem, t, job, true);
  }

  lemma PostedEffect(
    run: seq<State>, actions: seq<Action>, lo: nat, hi: nat, t: Tid, job: Job, supplant: bool, admitted: bool,
    at: seq<nat>)
    returns (cancel: nat, clear: nat, put: nat)
    requires |run| == |actions| + 1 && lo < hi <= |actions|
    requires Performs(run, actions, lo + 1, hi, t, Script(Post(job, supplant), admitted), at)
    ensures if admitted then PutsOnce(run, actions, lo, hi, t, job, supplant, cancel, clear, put)
            else OnlyLocksBut(run, actions, lo, hi, t, {})
  {
    cancel, clear, put := 0, 0, 0;
    if admitted {
      cancel, clear, put := AdmittedEffect(run, actions, lo, hi, t, job, supplant, at);
    } else {
      NoEffect(run, actions, lo, hi, t, at);
    }
  }

  /**
   A post that the policy lets pass puts its task behind everything queued, in exactly one step. A supplanting one
   cancels first and then clears. Beyond that, and whenever the policy refuses, it changes nothing but locks.
   */
  lemma PostEffect(run: seq<State>, actions: seq<Action>, lo: nat, hi: nat, t: Tid, job: Job, supplant: bool)
    returns (look: nat, cancel: nat, clear: nat, put: nat)
    requires Trace(run, actions) && Reachable(run[0]) && IsCall(run, actions, lo, hi, t, Post(job, supplant))
    ensures look < hi && FirstLook(run, actions, lo + 1, look, t)
    ensures if Passes(run[look].mem.policy)
            then PutsOnce(run, actions, lo, hi, t, job, supplant, cancel, clear, put)
            else OnlyLocksBut(run, actions, lo, hi, t, {})
  {
    var at;
    look, at := PostPerforms(run, actions, lo, hi, t, job, supplant);
    cancel, clear, put := PostedEffect(run, actions, lo, hi, t, job, supplant, Passes(run[look].mem.policy), at);
  }

  /** `planned_shutdown` puts its closure behind everything queued, and changes nothing else but locks. */
  lemma PlannedShutdownEffect(run: seq<State>, actions: seq<Action>, lo: nat, hi: nat, t: Tid) returns (put: nat)
    requires Trace(run, actions) && Reachable(run[0]) && IsCall(run, actions, lo, hi, t, PlannedShutdown)
    ensures lo < put < hi && Own(actions, put, t) && PutsLast(run[put].mem, run[put + 1].mem, ShutdownJob)
    ensures OnlyLocksBut(run, actions, lo, hi, t, {put})
  {
    var at := CallPerforms(run, actions, lo, hi, t, PlannedShutdown);
    put := OneEffect(run, actions, lo, hi, t, Put(ShutdownJob, false, false), at);
    PutMeans(run[put].mem, t, ShutdownJob, false);
  }

  lemma {:induction false} TraceAccepted(run: seq<State>, actions: seq<Action>, k: nat, n: nat)
    requires Trace(run, actions) && k <= n <= |actions|
    ensures run[k].mem.accepted <= run[n].mem.accepted
  {
    if k < n {
      TraceAccepted(run, actions, k, n - 1);
      assert Enabled(run[n - 1], actions[n - 1]);
      StepAdds(run[n - 1], actions[n - 1]);
    }
  }

  /** What has been started, in a loop that stops at the first job that ends it, and where nothing was dropped. */
  lemma StartedUpToFirst(m: Memory, p: nat)
    requires m.started != [] && m.started == Upto(|m.started|) && |m.started| <= |m.accepted|
    requires forall i {:trigger m.started[i]} :: 0 <= i < |m.started| - 1 ==> Is(m, m.started[i], Body)
    requires !Is(m, |m.started| - 1, Body)
    requires Is(m, p, ShutdownJob)
    ensures Drained(m, p)
  {
    var n := |m.started|;
    assert forall i {:trigger m.started[i]} :: 0 <= i < n ==> m.started[i] == i;
    forall id: nat ensures id in m.started <==> id < n {
      if id < n {
        assert m.started[id] == id;
      }
    }
    forall id: nat | id < n - 1 ensures Is(m, id, Body) {
      assert m.started[id] == id;
    }
    assert !(p < n - 1) by {
      assert !Is(m, p, Body);
    }
    assert (forall id: nat :: id < p ==> id in m.started) <==> p <= n by {
      if p > n {
        assert n !in m.started;
      }
    }
    assert (forall id: nat :: id + 1 < p ==> Is(m, id, Body)) <==> p <= n by {
      if p > n {
        assert !Is(m, n - 1, Body);
      }
    }
    if forall id: nat :: id < p ==> Is(m, id, Body) {
      assert n - 1 >= p;
    }
  }

  /**
   A planned shutdown drains what was accepted before it was pushed, when the loop has ended, nobody else shut it down
   and no clear took effect.
   */
  lemma PlannedShutdownDrains(run: seq<State>, actions: seq<Action>, lo: nat, hi: nat, t: Tid, n: nat)
    returns (put: nat)
    requires Trace(run, actions) && Reachable(run[0]) && IsCall(run, actions, lo, hi, t, PlannedShutdown)
    requires hi <= n <= |actions|
    requires run[n].worker.Exited? && !run[n].mem.foreignShutdown && !run[n].mem.droppedLive
    ensures lo < put < hi && Own(actions, put, t) && PutsLast(run[put].mem, run[put + 1].mem, ShutdownJob)
    ensures Drained(run[n].mem, |run[put].mem.accepted|)
  {
    put := PlannedShutdownEffect(run, actions, lo, hi, t);
    DrainedSince(run, actions, put, n);
  }

  lemma DrainedSince(run: seq<State>, actions: seq<Action>, put: nat, n: nat)
    requires Trace(run, actions) && Reachable(run[0]) && put < n <= |actions|
    requires PutsLast(run[put].mem, run[put + 1].mem, ShutdownJob)
    requires run[n].worker.Exited? && !run[n].mem.foreignShutdown && !run[n].mem.droppedLive
    ensures Drained(run[n].mem, |run[put].mem.accepted|)
  {
    var p := |run[put].mem.accepted|;
    assert Is(run[n].mem, p, ShutdownJob) by {
      TraceAccepted(run, actions, put + 1, n);
    }
    DrainedUpToFirst(run[n], p) by {
      ReachableAt(run, actions, n);
    }
  }

  /**
   What was accepted before number `p` has all been started exactly if no job before it but the last one ends the loop;
   if none at all does, those and number `p` are exactly what was started.
   */
  ghost predicate Drained(m: Memory, p: nat) {
    && ((forall id: nat :: id < p ==> id in m.started) <==> (forall id: nat :: id + 1 < p ==> Is(m, id, Body)))
    && ((forall id: nat :: id < p ==> Is(m, id, Body)) ==> m.started == Upto(p + 1))
  }

  lemma DrainedUpToFirst(s: State, p: nat)
    requires Reachable(s) && s.worker.Exited? && !s.mem.foreignShutdown && !s.mem.droppedLive
    requires Is(s.mem, p, ShutdownJob)
    ensures Drained(s.mem, p)
  {
    GracefulDrain(s);
    AllStartedAccepted(s);
    StartedUpToFirst(s.mem, p);
  }

  lemma AllStartedAccepted(s: State)
    requires Reachable(s) && s.mem.started == Upto(|s.mem.started|)
    ensures |s.mem.started| <= |s.mem.accepted|
  {
    ReachableAccounting(s);
    AccountedStarts(s.mem, s.worker);
    if s.mem.started != [] {
      assert s.mem.started[|s.mem.started| - 1] == |s.mem.started| - 1;
    }
  }

  // ---- wait_shutdown ----

  lemma LoopKeepsEnded(m: Memory, w: WorkerPc)
    requires CanDo(m, WorkerOp(w)) && m.ended
    ensures Do(m, WORKER, WorkerOp(w)).ended
  {
    if !w.Front? {
      WorkerOpFrame(m, w);
    }
  }

  lemma StepKeepsEnded(s: State, a: Action)
    requires Enabled(s, a) && s.mem.ended
    ensures Apply(s, a).mem.ended
  {
    match a
    case Loop => LoopKeepsEnded(s.mem, s.worker);
    case Inside(t) =>
      ThreadOps(s.threads[t]);
      PublicOpFrame(s.mem, t, ThreadOp(s.threads[t]));
    case Invoke(_, _) =>
    case AskCanceled =>
  }

  predicate Joining(s: State, t: Tid) {
    t in s.threads && (s.threads[t] == Join || s.mem.ended)
  }

  lemma StepJoins(s: State, a: Action, t: Tid)
    requires Enabled(s, a) && Joining(s, t)
    ensures Joining(Apply(s, a), t)
    ensures a == Inside(t) ==> s.mem.ended
  {
    if s.mem.ended {
      StepKeepsEnded(s, a);
    } else {
      OthersMoveNobody(s, a, t);
    }
  }

  lemma {:induction false} TraceJoins(run: seq<State>, actions: seq<Action>, lo: nat, n: nat, t: Tid)
    requires Trace(run, actions) && lo <= n <= |actions| && Joining(run[lo], t)
    ensures Joining(run[n], t)
    ensures Own(actions, n, t) ==> run[n].mem.ended
  {
    if lo < n {
      TraceJoins(run, actions, lo, n - 1, t);
      assert Enabled(run[n - 1], actions[n - 1]);
      StepJoins(run[n - 1], actions[n - 1], t);
    }
    if Own(actions, n, t) {
      assert Enabled(run[n], actions[n]);
      StepJoins(run[n], actions[n], t);
    }
  }

  lemma EndedIsExited(s: State)
    requires Reachable(s)
    ensures s.mem.ended <==> s.worker.Exited?
  {
    ReachableAccounting(s);
  }

  /**
   `wait_shutdown` waits until the loop has ended, and only then clears; so it drops nothing that the loop might still
   have taken, and afterwards everything accepted before that clear has been started or dropped.
   */
  lemma WaitShutdownEffect(run: seq<State>, actions: seq<Action>, lo: nat, hi: nat, t: Tid) returns (clear: nat)
    requires Trace(run, actions) && Reachable(run[0]) && IsCall(run, actions, lo, hi, t, WaitShutdown)
    ensures lo < clear < hi && Own(actions, clear, t) && Clears(run[clear].mem, run[clear + 1].mem)
    ensures OnlyLocksBut(run, actions, lo, hi, t, {clear})
    ensures run[clear].worker.Exited? && run[hi].worker.Exited?
    ensures run[clear + 1].mem.droppedLive == run[clear].mem.droppedLive
    ensures forall id: nat :: id < |run[clear].mem.accepted| ==> id in run[hi].mem.started || id in run[hi].mem.dropped
  {
    var at := CallPerforms(run, actions, lo, hi, t, WaitShutdown);
    clear := OneEffect(run, actions, lo, hi, t, Empty, at);
    EmptyMeans(run[clear].mem, t);
    ClearsAfterJoin(run, actions, lo, clear, hi, t);
  }

  lemma ClearsAfterJoin(run: seq<State>, actions: seq<Action>, lo: nat, clear: nat, hi: nat, t: Tid)
    requires Trace(run, actions) && Reachable(run[0]) && lo < clear < hi <= |actions| && Own(actions, clear, t)
    requires Begins(run[lo], actions[lo], t, WaitShutdown) && Makes(run, actions, clear, t, Empty)
    ensures run[clear].worker.Exited? && run[hi].worker.Exited?
    ensures run[clear + 1].mem.droppedLive == run[clear].mem.droppedLive
    ensures forall id: nat :: id < |run[clear].mem.accepted| ==> id in run[hi].mem.started || id in run[hi].mem.dropped
  {
    EndedAtOwnStep(run, actions, lo, clear, t);
    ExitedSince(run, actions, clear, hi);
    GoneSinceClear(run, actions, clear, hi, t);
  }

  lemma GoneSinceClear(run: seq<State>, actions: seq<Action>, clear: nat, hi: nat, t: Tid)
    requires Trace(run, actions) && Reachable(run[0]) && clear < hi <= |actions| && Makes(run, actions, clear, t, Empty)
    ensures forall id: nat :: id < |run[clear].mem.accepted| ==> id in run[hi].mem.started || id in run[hi].mem.dropped
  {
    ReachableAt(run, actions, clear + 1);
    GoneSince(run, actions, clear + 1, hi);
  }

  lemma EndedAtOwnStep(run: seq<State>, actions: seq<Action>, lo: nat, k: nat, t: Tid)
    requires Trace(run, actions) && lo < k && Own(actions, k, t) && Begins(run[lo], actions[lo], t, WaitShutdown)
    ensures run[k].mem.ended
  {
    assert Enabled(run[lo], actions[lo]);
    CallBegins(run[lo], actions[lo], t, WaitShutdown);
    TraceJoins(run, actions, lo + 1, k, t);
  }

  lemma ExitedSince(run: seq<State>, actions: seq<Action>, k: nat, n: nat)
    requires Trace(run, actions) && Reachable(run[0]) && k <= n <= |actions| && run[k].mem.ended
    ensures run[k].worker.Exited? && run[n].worker.Exited?
  {
    EndedAfter(run, actions, k, n);
    EndedIsExited(run[k]) by {
      ReachableAt(run, actions, k);
    }
    EndedIsExited(run[n]) by {
      ReachableAt(run, actions, n);
    }
  }

  lemma {:induction false} EndedAfter(run: seq<State>, actions: seq<Action>, k: nat, n: nat)
    requires Trace(run, actions) && k <= n <= |actions| && run[k].mem.ended
    ensures run[n].mem.ended
  {
    if k < n {
      EndedAfter(run, actions, k, n - 1);
      assert Enabled(run[n - 1], actions[n - 1]);
      StepKeepsEnded(run[n - 1], actions[n - 1]);
    }
  }

  lemma {:induction false} TraceLater(run: seq<State>, actions: seq<Action>, k: nat, n: nat)
    requires Trace(run, actions) && k <= n <= |actions|
    ensures Later(run[k].mem, run[n].mem)
  {
    if k < n {
      TraceLater(run, actions, k, n - 1);
      assert Enabled(run[n - 1], actions[n - 1]);
      StepAdds(run[n - 1], actions[n - 1]);
      LaterIsTransitive(run[k].mem, run[n - 1].mem, run[n].mem);
    }
  }

  /** What had been accepted when the queue was empty is never queued again. */
  lemma GoneSince(run: seq<State>, actions: seq<Action>, k: nat, n: nat)
    requires Trace(run, actions) && k <= n <= |actions| && Reachable(run[k]) && run[k].mem.queue == []
    ensures forall id: nat :: id < |run[k].mem.accepted| ==> id in run[n].mem.started || id in run[n].mem.dropped
  {
    TraceLater(run, actions, k, n);
    ReachableAccounting(run[k]);
    OldTasksAreGone(run[k].mem, run[k].worker, run[n].mem);
  }
}
