/** What has been seen when a call of `wait_running_task` or `wait_completion` returns. */
module WorkerWaits {
  import opened Prelude
  import opened WorkerMachine
  import opened WorkerInvariants
  import opened WorkerTheorems
  import opened WorkerStopping
  import opened WorkerCalls
  import opened WorkerEffects

  ghost predicate Held(run: seq<State>, i: nat, k: nat, t: Tid)
    requires k < |run|
  {
    forall x {:trigger run[x]} :: i <= x <= k ==> run[x].mem.mutex == Some(t)
  }

  /** `t` sees in step `i` that no task is being executed, and keeps the worker's mutex from then on. */
  ghost predicate SeesIdle(run: seq<State>, actions: seq<Action>, lo: nat, i: nat, k: nat, t: Tid)
    requires |run| == |actions| + 1 && k < |run|
  {
    lo < i < k && Own(actions, i, t) && !run[i].mem.executing && Held(run, i, k, t)
  }

  /** `t` sees in step `j` that the queue is empty. */
  predicate SeesEmpty(run: seq<State>, actions: seq<Action>, i: nat, j: nat, k: nat, t: Tid)
    requires |run| == |actions| + 1 && k < |run|
  {
    i < j < k && Own(actions, j, t) && run[j].mem.queue == []
  }

  /** The program points of a wait. */
  predicate InWait(pc: Pc, kind: WaitKind) {
    match pc
    case WaitLock(k) => k == kind
    case WaitExecuting(k) => k == kind
    case WaitEmptyLock(_) => kind == Completion
    case WaitEmpty(_) => kind == Completion
    case WaitEmptyUnlock(result) => kind == Completion && (result.Some? ==> result.value.kind == Completion)
    case WaitSleep(k) => k == kind
    case Asleep(k, _) => k == kind
    case WaitRelock(k) => k == kind
    case WaitUnlock(report) => report.kind == kind
    case _ => false
  }

  /** What has been seen by a thread at `pc`, in steps `i` and `j`. */
  ghost predicate Seen(run: seq<State>, actions: seq<Action>, lo: nat, k: nat, t: Tid, pc: Pc, i: nat, j: nat)
    requires |run| == |actions| + 1 && k < |run|
  {
    match pc
    case WaitEmptyLock(n) => SeesIdle(run, actions, lo, i, k, t) && n == |run[i].mem.started|
    case WaitEmpty(n) => SeesIdle(run, actions, lo, i, k, t) && n == |run[i].mem.started|
    case WaitEmptyUnlock(result) => result.Some? ==> SeenBoth(run, actions, lo, k, t, result.value, i, j)
    case WaitUnlock(report) =>
      if report.kind == Running then SeesIdle(run, actions, lo, i, k, t)
      else SeenBoth(run, actions, lo, k, t, report, i, j)
    case _ => true
  }

  ghost predicate SeenBoth(
    run: seq<State>, actions: seq<Action>, lo: nat, k: nat, t: Tid, report: Report, i: nat, j: nat)
    requires |run| == |actions| + 1 && k < |run|
  {
    && SeesIdle(run, actions, lo, i, k, t) && SeesEmpty(run, actions, i, j, k, t)
    && report == Report(Completion, |run[i].mem.started|, |run[j].mem.started|, |run[j].mem.accepted|)
  }

  lemma WaitTable(m: Memory, pc: Pc, kind: WaitKind)
    requires InWait(pc, kind)
    ensures NextPc(m, pc) == Idle <==> pc.WaitUnlock?
    ensures NextPc(m, pc) != Idle ==> InWait(NextPc(m, pc), kind)
  {
  }

  predicate HoldsAlong(pc: Pc) {
    match pc
    case WaitEmptyLock(_) => true
    case WaitEmpty(_) => true
    case WaitEmptyUnlock(result) => result.Some?
    case WaitUnlock(_) => true
    case _ => false
  }

  lemma SeenStays(run: seq<State>, actions: seq<Action>, lo: nat, k: nat, t: Tid, pc: Pc, i: nat, j: nat)
    requires |run| == |actions| + 1 && k + 1 < |run| && Seen(run, actions, lo, k, t, pc, i, j)
    requires HoldsAlong(pc) ==> run[k + 1].mem.mutex == Some(t)
    ensures Seen(run, actions, lo, k + 1, t, pc, i, j)
  {
  }

  /** One own step of the wait: what is seen in it is added. */
  lemma SeenNext(run: seq<State>, actions: seq<Action>, lo: nat, k: nat, t: Tid, pc: Pc, kind: WaitKind, i: nat, j: nat)
    returns (i': nat, j': nat)
    requires |run| == |actions| + 1 && lo < k < |actions| && Own(actions, k, t) && InWait(pc, kind)
    requires Seen(run, actions, lo, k, t, pc, i, j)
    requires HoldsAlong(NextPc(run[k].mem, pc)) ==> run[k].mem.mutex == Some(t) && run[k + 1].mem.mutex == Some(t)
    ensures Seen(run, actions, lo, k + 1, t, NextPc(run[k].mem, pc), i', j')
  {
    i' := if pc.WaitExecuting? then k else i;
    j' := if pc.WaitEmpty? then k else j;
  }

  predicate WaitCall(call: Call, kind: WaitKind) {
    if kind == Running then call == WaitRunningTask else call == WaitCompletion
  }

  lemma StaysInWait(s: State, a: Action, t: Tid, kind: WaitKind)
    requires Enabled(s, a) && t in s.threads && InWait(s.threads[t], kind)
    ensures t in Apply(s, a).threads
    ensures a == Inside(t) ==> Apply(s, a).threads[t] == NextPc(s.mem, s.threads[t])
    ensures a != Inside(t) ==>
              InWait(Apply(s, a).threads[t], kind) &&
              (Apply(s, a).threads[t] == s.threads[t] || (s.threads[t].Asleep? && Apply(s, a).threads[t].Asleep?))
  {
    if a != Inside(t) {
      OthersMoveNobody(s, a, t);
    }
  }

  lemma HoldsMutexNow(s: State, t: Tid)
    requires Locks(s) && t in s.threads
    ensures HoldsAlong(s.threads[t]) || s.threads[t].WaitExecuting? ==> s.mem.mutex == Some(t)
  {
    assert LocksAt(s, t);
  }

  lemma HoldTable(m: Memory, pc: Pc)
    ensures HoldsAlong(NextPc(m, pc)) ==> HoldsAlong(pc) || pc.WaitExecuting?
  {
  }

  lemma HoldsMutexAlong(run: seq<State>, actions: seq<Action>, k: nat, t: Tid)
    requires Trace(run, actions) && Inv(run[0]) && k <= |actions| && t in run[k].threads
    ensures HoldsAlong(run[k].threads[t]) || run[k].threads[t].WaitExecuting? ==> run[k].mem.mutex == Some(t)
  {
    LocksAlong(run, actions, k);
    HoldsMutexNow(run[k], t);
  }

  lemma OwnWaitStep(run: seq<State>, actions: seq<Action>, lo: nat, k: nat, t: Tid, kind: WaitKind, i: nat, j: nat)
    returns (i': nat, j': nat)
    requires Trace(run, actions) && Inv(run[0]) && lo < k < |actions| && t in run[k].threads && Busy(run[k + 1], t)
    requires actions[k] == Inside(t) && run[k + 1].threads[t] == NextPc(run[k].mem, run[k].threads[t])
    requires InWait(run[k].threads[t], kind) && Seen(run, actions, lo, k, t, run[k].threads[t], i, j)
    ensures InWait(run[k + 1].threads[t], kind) && Seen(run, actions, lo, k + 1, t, run[k + 1].threads[t], i', j')
  {
    HoldsMutexAlong(run, actions, k, t);
    HoldsMutexAlong(run, actions, k + 1, t);
    WaitTable(run[k].mem, run[k].threads[t], kind);
    HoldTable(run[k].mem, run[k].threads[t]);
    i', j' := SeenNext(run, actions, lo, k, t, run[k].threads[t], kind, i, j);
  }

  lemma WaitStep(run: seq<State>, actions: seq<Action>, lo: nat, k: nat, t: Tid, kind: WaitKind, i: nat, j: nat)
    returns (i': nat, j': nat)
    requires Trace(run, actions) && Inv(run[0]) && lo < k < |actions| && t in run[k].threads && Busy(run[k + 1], t)
    requires InWait(run[k].threads[t], kind) && Seen(run, actions, lo, k, t, run[k].threads[t], i, j)
    ensures InWait(run[k + 1].threads[t], kind) && Seen(run, actions, lo, k + 1, t, run[k + 1].threads[t], i', j')
  {
    assert Enabled(run[k], actions[k]);
    StaysInWait(run[k], actions[k], t, kind);
    if actions[k] == Inside(t) {
      i', j' := OwnWaitStep(run, actions, lo, k, t, kind, i, j);
    } else {
      i', j' := i, j;
      if run[k + 1].threads[t] == run[k].threads[t] {
        HoldsMutexAlong(run, actions, k + 1, t);
        SeenStays(run, actions, lo, k, t, run[k].threads[t], i, j);
      }
    }
  }

  lemma {:induction false} WaitSees(
    run: seq<State>, actions: seq<Action>, lo: nat, k: nat, t: Tid, kind: WaitKind, call: Call)
    returns (i: nat, j: nat)
    requires Trace(run, actions) && Inv(run[0]) && lo < k <= |actions|
    requires Begins(run[lo], actions[lo], t, call) && WaitCall(call, kind)
    requires forall x {:trigger run[x]} :: lo < x <= k ==> Busy(run[x], t)
    ensures Busy(run[k], t) && InWait(run[k].threads[t], kind)
    ensures Seen(run, actions, lo, k, t, run[k].threads[t], i, j)
  {
    if k == lo + 1 {
      assert Enabled(run[lo], actions[lo]);
      CallBegins(run[lo], actions[lo], t, call);
      i, j := 0, 0;
    } else {
      i, j := WaitSees(run, actions, lo, k - 1, t, kind, call);
      i, j := WaitStep(run, actions, lo, k - 1, t, kind, i, j);
    }
  }

  /** The last step of the call releases the mutex. */
  lemma WaitEnds(run: seq<State>, actions: seq<Action>, lo: nat, hi: nat, t: Tid, kind: WaitKind, call: Call)
    returns (i: nat, j: nat)
    requires Trace(run, actions) && Inv(run[0])
    requires IsCall(run, actions, lo, hi, t, call) && WaitCall(call, kind)
    ensures lo + 1 < hi && t in run[hi - 1].threads && run[hi - 1].threads[t].WaitUnlock?
    ensures run[hi - 1].threads[t].report.kind == kind && run[hi].mem == run[hi - 1].mem.(mutex := None)
    ensures Seen(run, actions, lo, hi - 1, t, run[hi - 1].threads[t], i, j)
  {
    WaitBegins(run, actions, lo, t, kind, call);
    i, j := WaitSees(run, actions, lo, hi - 1, t, kind, call);
    LastStepOfRun(run, actions, hi, t, kind);
  }

  lemma WaitBegins(run: seq<State>, actions: seq<Action>, lo: nat, t: Tid, kind: WaitKind, call: Call)
    requires Trace(run, actions) && lo < |actions| && Begins(run[lo], actions[lo], t, call) && WaitCall(call, kind)
    ensures Busy(run[lo + 1], t)
  {
    assert Enabled(run[lo], actions[lo]);
    CallBegins(run[lo], actions[lo], t, call);
  }

  lemma LastStepOfRun(run: seq<State>, actions: seq<Action>, hi: nat, t: Tid, kind: WaitKind)
    requires Trace(run, actions) && 0 < hi <= |actions| && t in run[hi - 1].threads && !Busy(run[hi], t)
    requires InWait(run[hi - 1].threads[t], kind)
    ensures run[hi - 1].threads[t].WaitUnlock? && run[hi].mem == run[hi - 1].mem.(mutex := None)
  {
    assert Enabled(run[hi - 1], actions[hi - 1]);
    LastStep(run[hi - 1], actions[hi - 1], t, kind);
  }

  lemma LastStep(s: State, a: Action, t: Tid, kind: WaitKind)
    requires Enabled(s, a) && t in s.threads && InWait(s.threads[t], kind) && !Busy(Apply(s, a), t)
    ensures s.threads[t].WaitUnlock? && Apply(s, a).mem == s.mem.(mutex := None)
  {
    StaysInWait(s, a, t, kind);
    WaitTable(s.mem, s.threads[t], kind);
  }

  /** A wait changes nothing but locks. */
  lemma WaitChangesNothing(run: seq<State>, actions: seq<Action>, lo: nat, hi: nat, t: Tid, call: Call)
    requires Trace(run, actions) && Reachable(run[0]) && IsCall(run, actions, lo, hi, t, call)
    requires call.WaitRunningTask? || call.WaitCompletion?
    ensures OnlyLocksBut(run, actions, lo, hi, t, {})
  {
    var at := CallPerforms(run, actions, lo, hi, t, call);
    NoEffect(run, actions, lo, hi, t, at);
  }

  /** `wait_running_task` returns only after it has seen, under the mutex, that every started task had completed. */
  lemma WaitRunningTaskEffect(run: seq<State>, actions: seq<Action>, lo: nat, hi: nat, t: Tid) returns (i: nat)
    requires Trace(run, actions) && Reachable(run[0]) && IsCall(run, actions, lo, hi, t, WaitRunningTask)
    ensures lo < i < hi && Own(actions, i, t) && run[i].mem.mutex == Some(t)
    ensures !run[i].mem.executing && |run[i].mem.started| == run[i].mem.finished
  {
    var j;
    i, j := WaitEnds(run, actions, lo, hi, t, Running, WaitRunningTask) by {
      ReachableInv(run[0]);
    }
    ExecutingExactly(run[i]) by {
      ReachableAt(run, actions, i);
    }
  }

  /** `t` is about to return from its wait with this report, in step `k`. */
  predicate ReturnsWith(run: seq<State>, k: nat, t: Tid, report: Report)
    requires k + 1 < |run|
  {
    && t in run[k].threads && run[k].threads[t] == WaitUnlock(report)
    && run[k + 1].mem == run[k].mem.(mutex := None)
  }

  /** Step `i` sees the loop idle, and step `j` the queue empty, and the mutex is not given up before the return. */
  ghost predicate LooksTwice(
    run: seq<State>, actions: seq<Action>, lo: nat, i: nat, j: nat, hi: nat, t: Tid, seen: Report)
    requires |run| == |actions| + 1 && 0 < hi < |run|
  {
    && lo < i < j < hi && Own(actions, i, t) && Own(actions, j, t) && Held(run, i, hi - 1, t)
    && !run[i].mem.executing && run[j].mem.queue == []
    && seen == Report(Completion, |run[i].mem.started|, |run[j].mem.started|, |run[j].mem.accepted|)
  }

  lemma WaitCompletionSees(run: seq<State>, actions: seq<Action>, lo: nat, hi: nat, t: Tid)
    returns (i: nat, j: nat, seen: Report)
    requires Trace(run, actions) && Inv(run[0]) && IsCall(run, actions, lo, hi, t, WaitCompletion)
    ensures LooksTwice(run, actions, lo, i, j, hi, t, seen) && ReturnsWith(run, hi - 1, t, seen)
  {
    i, j := WaitEnds(run, actions, lo, hi, t, Completion, WaitCompletion);
    seen := run[hi - 1].threads[t].report;
  }

  lemma ReturnCompleted(run: seq<State>, actions: seq<Action>, hi: nat, t: Tid, seen: Report)
    requires Trace(run, actions) && Reachable(run[0]) && 0 < hi <= |actions|
    requires ReturnsWith(run, hi - 1, t, seen) && seen.kind == Completion
    ensures Completed(run[hi].mem, seen)
  {
    ReachableAt(run, actions, hi - 1);
    AtReturn(run[hi - 1], run[hi], t);
  }

  /**
   `wait_completion` returns only after it has seen the loop idle in step `i` and the queue empty in step `j`, without
   letting go of the mutex in between. At its return nothing accepted before `j` is queued, none of it has completed
   since `i`, and one of it is unfinished exactly if it was taken between `i` and `j`.
   */
  lemma WaitCompletionEffect(run: seq<State>, actions: seq<Action>, lo: nat, hi: nat, t: Tid)
    returns (i: nat, j: nat, seen: Report)
    requires Trace(run, actions) && Reachable(run[0]) && IsCall(run, actions, lo, hi, t, WaitCompletion)
    ensures LooksTwice(run, actions, lo, i, j, hi, t, seen) && Completed(run[hi].mem, seen)
  {
    i, j, seen := WaitCompletionSees(run, actions, lo, hi, t) by {
      ReachableInv(run[0]);
    }
    ReturnCompleted(run, actions, hi, t, seen);
  }

  lemma AtReturn(s: State, s': State, t: Tid)
    requires Reachable(s) && t in s.threads && s.threads[t].WaitUnlock? && s.threads[t].report.kind == Completion
    requires s'.mem == s.mem.(mutex := None)
    ensures Completed(s'.mem, s.threads[t].report)
  {
    CompletionWaited(s, t);
    SameUnfinished(s.mem, s'.mem);
  }

  /** What is so at a return with this report. */
  ghost predicate Completed(m: Memory, r: Report) {
    && m.finished == r.startedIdle <= |m.started|
    && (forall id: nat :: id < r.accepted ==> id !in m.queue)
    && ((exists id: nat :: id < r.accepted && Unfinished(m, id)) <==> r.startedIdle < r.startedEmpty)
  }

  lemma SameUnfinished(m: Memory, m': Memory)
    requires m' == m.(mutex := None) && m.finished <= |m.started|
    ensures forall id: nat :: Unfinished(m', id) <==> Unfinished(m, id)
  {
  }
}
