/**
 What each call of the worker's interface does to memory, whatever the other threads do meanwhile. The effects are
 written down here once more, as changes of memory and without the program points of the machine; the theorem is that
 in every run the steps of a call are these changes, in this order, and nothing else but locking.
 */
module WorkerCalls {
  import opened Prelude
  import opened WorkerMachine
  import opened WorkerInvariants
  import opened WorkerTheorems

  // ---- effects ----

  datatype Effect =
    | Shut
    | Pause(blocked: bool)
    | SetTo(policy: Policy)
    | Cancel
    | Empty
    | Put(job: Job, alone: bool, posting: bool)

  function Emptied(m: Memory): Memory {
    m.(queue := [], dropped := m.dropped + (set id | id in m.queue), droppedLive := m.droppedLive || !m.ended)
  }

  /** The memory after an effect of thread `t`. */
  function Changed(m: Memory, t: Tid, e: Effect): Memory {
    match e
    case Shut => m.(shutdown := true)
    case Pause(b) => m.(blocked := b)
    case SetTo(p) => m.(policy := p)
    case Cancel => m.(canceled := true, log := m.log + [Canceled(t)])
    case Empty => Emptied(m)
    case Put(job, alone, posting) =>
      var rest := if alone then Emptied(m) else m;
      rest.(queue := rest.queue + [|m.accepted|], accepted := m.accepted + [job],
            posted := if posting then m.posted + 1 else m.posted)
  }

  /** The queue changes only under its mutex, and for `post` also under the worker's. */
  predicate Guarded(m: Memory, t: Tid, e: Effect) {
    match e
    case Empty => m.queueMutex == Some(t)
    case Put(_, _, posting) => m.queueMutex == Some(t) && (posting ==> m.mutex == Some(t))
    case _ => true
  }

  predicate OnlyLocks(m: Memory, m': Memory) {
    m' == m.(mutex := m'.mutex, queueMutex := m'.queueMutex)
  }

  /** The policies under which `post` puts its task into the queue. */
  predicate Passes(policy: Policy) {
    policy == ALLOW || policy == WAIT
  }

  /** The effects of a call; `admitted` says whether the policy lets a posted task pass. */
  function Script(call: Call, admitted: bool): seq<Effect> {
    match call
    case Post(job, supplant) =>
      if !admitted then [] else if supplant then [Cancel, Empty, Put(job, false, true)] else [Put(job, false, true)]
    case QueuePush(job, clearothers) => [Put(job, clearothers, false)]
    case PlannedShutdown => [Put(ShutdownJob, false, false)]
    case ClearQueue => [Empty]
    case PauseLoop(paused) => [Pause(paused)]
    case SetPolicy(policy) => [SetTo(policy)]
    case EmitCancel => [Cancel]
    case EmitShutdown(policy) => [Shut, Pause(true), SetTo(policy), Cancel]
    case WaitRunningTask => []
    case WaitCompletion => []
    case WaitShutdown => [Empty]
  }

  // ---- calls in a run ----

  predicate Own(actions: seq<Action>, k: nat, t: Tid) {
    k < |actions| && actions[k] == Inside(t)
  }

  /** Between states `lo` and `hi` the steps of `t` numbered `at` have these effects, and its others none. */
  ghost predicate Performs(
    run: seq<State>, actions: seq<Action>, lo: nat, hi: nat, t: Tid, effects: seq<Effect>, at: seq<nat>)
    requires hi <= |actions| && |run| == |actions| + 1
  {
    && |at| == |effects|
    && (forall i :: 0 <= i < |at| ==> lo <= at[i] < hi && Makes(run, actions, at[i], t, effects[i]))
    && (forall i, j :: 0 <= i < j < |at| ==> at[i] < at[j])
    && (forall k: nat {:trigger Own(actions, k, t)} :: lo <= k < hi && Own(actions, k, t) && k !in at ==>
          OnlyLocks(run[k].mem, run[k + 1].mem))
  }

  /** Step `k` of the run is one of `t` and has effect `e`. */
  predicate Makes(run: seq<State>, actions: seq<Action>, k: nat, t: Tid, e: Effect)
    requires |run| == |actions| + 1
  {
    && Own(actions, k, t)
    && Guarded(run[k].mem, t, e) && run[k + 1].mem == Changed(run[k].mem, t, e)
  }

  predicate Busy(s: State, t: Tid) {
    t in s.threads && s.threads[t] != Idle
  }

  ghost predicate BusyUntil(run: seq<State>, lo: nat, hi: nat, t: Tid)
    requires lo <= hi < |run|
  {
    && (forall k {:trigger run[k]} :: lo <= k < hi ==> Busy(run[k], t))
    && t in run[hi].threads && run[hi].threads[t] == Idle
  }

  /** The step is the beginning of the call. The closure of `planned_shutdown` calls `emit_shutdown` when it starts. */
  predicate Begins(s: State, a: Action, t: Tid, call: Call) {
    || a == Invoke(t, call)
    || (a == Loop && t == WORKER && call == EmitShutdown(THROW)
        && s.worker.ResetCanceled? && Is(s.mem, s.worker.task, ShutdownJob))
  }

  /** Thread `t` makes the call in step `lo` and has returned from it in state `hi`. */
  ghost predicate IsCall(run: seq<State>, actions: seq<Action>, lo: nat, hi: nat, t: Tid, call: Call)
    requires |run| == |actions| + 1
  {
    lo < hi <= |actions| && Begins(run[lo], actions[lo], t, call) && BusyUntil(run, lo + 1, hi, t)
  }

  /** The first step that `t` makes with the worker's mutex after `lo`. */
  ghost predicate FirstLook(run: seq<State>, actions: seq<Action>, lo: nat, look: nat, t: Tid)
    requires |run| == |actions| + 1
  {
    && lo <= look && Own(actions, look, t) && run[look].mem.mutex == Some(t)
    && forall k: nat {:trigger Own(actions, k, t)} :: lo <= k < look && Own(actions, k, t) ==>
         run[k].mem.mutex != Some(t)
  }

  // ---- positions and what is still to come ----

  function PutNext(next: Option<Job>): seq<Effect> {
    if next.Some? then [Put(next.value, false, true)] else []
  }

  function ThenPolicy(policy: Option<Policy>): seq<Effect> {
    if policy.Some? then [SetTo(policy.value), Cancel] else []
  }

  /** The effects to come for a thread at `pc`; nothing is said of `post` before its switch. */
  function Rest(pc: Pc): seq<Effect> {
    match pc
    case PostCancel(job) => [Cancel, Empty, Put(job, false, true)]
    case PushLock(job, clearothers, posting) => [Put(job, clearothers, posting)]
    case PushStore(job, clearothers, posting) => [Put(job, clearothers, posting)]
    case ClearLock(next) => [Empty] + PutNext(next)
    case ClearSwap(next) => [Empty] + PutNext(next)
    case ClearUnlock(next) => PutNext(next)
    case BlockStore(blocked) => [Pause(blocked)]
    case BlockLock(policy) => ThenPolicy(policy)
    case BlockNotify(policy) => ThenPolicy(policy)
    case BlockUnlock(policy) => ThenPolicy(policy)
    case ShutdownStore(policy) => [Shut, Pause(true), SetTo(policy), Cancel]
    case ShutdownBlock(policy) => [Pause(true), SetTo(policy), Cancel]
    case PolicyStore(policy, thenCancel) => [SetTo(policy)] + if thenCancel then [Cancel] else []
    case CancelStore => [Cancel]
    case Join => [Empty]
    case _ => []
  }

  predicate BeforeSwitch(pc: Pc) {
    pc.PostLock? || pc.PostSwitch?
  }

  predicate HasEffect(op: Op) {
    match op
    case StorePolicy(_) => true
    case StoreBlocked(_) => true
    case StoreShutdown => true
    case StoreCanceled => true
    case Enqueue(_, _, _) => true
    case Swap => true
    case _ => false
  }

  /** The operation does the first of the effects to come, or none. */
  lemma RestTable(m: Memory, pc: Pc)
    requires !BeforeSwitch(pc)
    ensures !BeforeSwitch(NextPc(m, pc))
    ensures if HasEffect(ThreadOp(pc)) then Rest(pc) != [] && Rest(NextPc(m, pc)) == Rest(pc)[1..]
            else Rest(NextPc(m, pc)) == Rest(pc)
  {
  }

  /** The operation of the machine that has this effect. */
  function OpOf(e: Effect): Op {
    match e
    case Shut => StoreShutdown
    case Pause(b) => StoreBlocked(b)
    case SetTo(p) => StorePolicy(p)
    case Cancel => StoreCanceled
    case Empty => Op.Swap
    case Put(job, alone, posting) => Enqueue(job, alone, posting)
  }

  lemma EffectTable(pc: Pc)
    requires !BeforeSwitch(pc) && HasEffect(ThreadOp(pc))
    ensures Rest(pc) != [] && ThreadOp(pc) == OpOf(Rest(pc)[0])
  {
  }

  lemma DropEmpties(m: Memory)
    ensures Drop(m) == Emptied(m)
  {
  }

  lemma EnqueuePuts(m: Memory, t: Tid, job: Job, alone: bool, posting: bool)
    ensures Do(m, t, Enqueue(job, alone, posting)) == Changed(m, t, Put(job, alone, posting))
  {
    DropEmpties(m);
  }

  lemma DoChanges(m: Memory, t: Tid, e: Effect)
    ensures CanDo(m, OpOf(e)) && Do(m, t, OpOf(e)) == Changed(m, t, e)
  {
    match e
    case Put(job, alone, posting) => EnqueuePuts(m, t, job, alone, posting);
    case Empty => DropEmpties(m);
    case _ =>
  }

  lemma GuardTable(m: Memory, t: Tid, pc: Pc)
    requires !BeforeSwitch(pc) && Rest(pc) != [] && ThreadOp(pc) == OpOf(Rest(pc)[0])
    requires HoldsQueue(pc) ==> m.queueMutex == Some(t)
    requires HoldsMutex(pc) ==> m.mutex == Some(t)
    ensures Guarded(m, t, Rest(pc)[0])
  {
  }

  lemma OpEffect(m: Memory, t: Tid, pc: Pc)
    requires !BeforeSwitch(pc) && HasEffect(ThreadOp(pc))
    requires HoldsQueue(pc) ==> m.queueMutex == Some(t)
    requires HoldsMutex(pc) ==> m.mutex == Some(t)
    ensures Rest(pc) != [] && CanDo(m, ThreadOp(pc))
    ensures Guarded(m, t, Rest(pc)[0]) && Do(m, t, ThreadOp(pc)) == Changed(m, t, Rest(pc)[0])
  {
    EffectTable(pc);
    DoChanges(m, t, Rest(pc)[0]);
    GuardTable(m, t, pc);
  }

  lemma OpLocks(m: Memory, t: Tid, op: Op)
    requires CanDo(m, op) && PublicOp(op) && !HasEffect(op)
    ensures OnlyLocks(m, Do(m, t, op))
  {
    match op
    case _ =>
  }

  // ---- one step ----

  /** What a step of the run means for a thread that is inside a call. */
  ghost predicate Moves(s: State, s': State, t: Tid, own: bool)
    requires t in s.threads && t in s'.threads
  {
    var pc, pc' := s.threads[t], s'.threads[t];
    && !BeforeSwitch(pc')
    && if !own then Rest(pc') == Rest(pc)
       else if OnlyLocks(s.mem, s'.mem) && Rest(pc') == Rest(pc) then true
       else && Rest(pc) != [] && Rest(pc') == Rest(pc)[1..]
            && Guarded(s.mem, t, Rest(pc)[0]) && s'.mem == Changed(s.mem, t, Rest(pc)[0])
  }

  lemma OwnStepMoves(s: State, t: Tid)
    requires Locks(s) && ThreadEnabled(s, t) && !BeforeSwitch(s.threads[t])
    ensures Moves(s, ThreadStep(s, t), t, true)
  {
    var pc := s.threads[t];
    assert LocksAt(s, t);
    RestTable(s.mem, pc);
    if HasEffect(ThreadOp(pc)) {
      OpEffect(s.mem, t, pc);
    } else {
      ThreadOps(pc);
      OpLocks(s.mem, t, ThreadOp(pc));
    }
  }

  /** Nobody else moves a thread, except that a sleeper is marked as notified. */
  lemma OthersMoveNobody(s: State, a: Action, t: Tid)
    requires Enabled(s, a) && Busy(s, t) && a != Inside(t)
    ensures t in Apply(s, a).threads
    ensures Apply(s, a).threads[t] == s.threads[t] || (s.threads[t].Asleep? && Apply(s, a).threads[t].Asleep?)
  {
  }

  lemma StepMoves(s: State, a: Action, t: Tid)
    requires Locks(s) && Enabled(s, a) && Busy(s, t) && !BeforeSwitch(s.threads[t])
    ensures t in Apply(s, a).threads && Moves(s, Apply(s, a), t, a == Inside(t))
  {
    if a == Inside(t) {
      OwnStepMoves(s, t);
    } else {
      OthersMoveNobody(s, a, t);
    }
  }

  // ---- runs ----

  lemma LocksAlong(run: seq<State>, actions: seq<Action>, n: nat)
    requires Trace(run, actions) && Inv(run[0]) && n <= |actions|
    ensures Locks(run[n])
  {
    TraceInv(run, actions, n);
  }

  lemma StepOfRunMoves(run: seq<State>, actions: seq<Action>, k: nat, t: Tid)
    requires Trace(run, actions) && Inv(run[0]) && k < |actions| && Busy(run[k], t)
    requires !BeforeSwitch(run[k].threads[t])
    ensures t in run[k + 1].threads && Moves(run[k], run[k + 1], t, Own(actions, k, t))
  {
    assert Enabled(run[k], actions[k]);
    LocksAlong(run, actions, k);
    StepMoves(run[k], actions[k], t);
  }

  lemma PerformsNothing(
    run: seq<State>, actions: seq<Action>, lo: nat, hi: nat, t: Tid, effects: seq<Effect>, at: seq<nat>)
    requires |run| == |actions| + 1 && lo < hi <= |actions| && Performs(run, actions, lo + 1, hi, t, effects, at)
    requires Own(actions, lo, t) ==> OnlyLocks(run[lo].mem, run[lo + 1].mem)
    ensures Performs(run, actions, lo, hi, t, effects, at)
  {
  }

  lemma PerformsFirst(
    run: seq<State>, actions: seq<Action>, lo: nat, hi: nat, t: Tid, e: Effect, effects: seq<Effect>, at: seq<nat>)
    requires |run| == |actions| + 1 && lo < hi <= |actions| && Performs(run, actions, lo + 1, hi, t, effects, at)
    requires Makes(run, actions, lo, t, e)
    ensures Performs(run, actions, lo, hi, t, [e] + effects, [lo] + at)
  {
    var at', effects' := [lo] + at, [e] + effects;
    assert forall i :: 0 < i < |at'| ==> at'[i] == at[i - 1] && effects'[i] == effects[i - 1];
    assert forall k: nat :: k !in at' ==> k !in at && k != lo;
  }

  lemma {:induction false} RestPerformed(run: seq<State>, actions: seq<Action>, lo: nat, hi: nat, t: Tid)
    returns (at: seq<nat>)
    requires Trace(run, actions) && Inv(run[0]) && lo <= hi <= |actions| && BusyUntil(run, lo, hi, t)
    requires t in run[lo].threads && !BeforeSwitch(run[lo].threads[t])
    ensures Performs(run, actions, lo, hi, t, Rest(run[lo].threads[t]), at)
    decreases hi - lo
  {
    if lo == hi {
      at := [];
    } else {
      StepOfRunMoves(run, actions, lo, t);
      at := RestPerformed(run, actions, lo + 1, hi, t);
      at := MovedPerforms(run, actions, lo, hi, t, at);
    }
  }

  lemma MovedPerforms(run: seq<State>, actions: seq<Action>, lo: nat, hi: nat, t: Tid, at: seq<nat>)
    returns (at': seq<nat>)
    requires |run| == |actions| + 1 && lo < hi <= |actions| && t in run[lo].threads && t in run[lo + 1].threads
    requires Moves(run[lo], run[lo + 1], t, Own(actions, lo, t))
    requires Performs(run, actions, lo + 1, hi, t, Rest(run[lo + 1].threads[t]), at)
    ensures Performs(run, actions, lo, hi, t, Rest(run[lo].threads[t]), at')
  {
    var rest, rest' := Rest(run[lo].threads[t]), Rest(run[lo + 1].threads[t]);
    if !Own(actions, lo, t) || (OnlyLocks(run[lo].mem, run[lo + 1].mem) && rest' == rest) {
      PerformsNothing(run, actions, lo, hi, t, rest, at);
      at' := at;
    } else {
      PerformsFirst(run, actions, lo, hi, t, rest[0], rest', at);
      assert rest == [rest[0]] + rest';
      at' := [lo] + at;
    }
  }

  // ---- post ----

  predicate AtSwitch(s: State, t: Tid, job: Job, supplant: bool) {
    t in s.threads && s.threads[t] == PostSwitch(job, supplant)
  }

  predicate AtEntry(s: State, t: Tid, job: Job, supplant: bool) {
    t in s.threads && s.threads[t] == PostLock(job, supplant)
  }

  lemma SwitchStep(s: State, a: Action, t: Tid, job: Job, supplant: bool)
    requires Locks(s) && Enabled(s, a) && AtSwitch(s, t, job, supplant)
    ensures s.mem.mutex == Some(t)
    ensures a != Inside(t) ==> AtSwitch(Apply(s, a), t, job, supplant)
    ensures a == Inside(t) ==>
              var s' := Apply(s, a);
              && s'.mem == s.mem && !BeforeSwitch(s'.threads[t])
              && Rest(s'.threads[t]) == Script(Post(job, supplant), Passes(s.mem.policy))
  {
    assert LocksAt(s, t);
    if a != Inside(t) {
      OthersMoveNobody(s, a, t);
    }
  }

  lemma EntryStep(s: State, a: Action, t: Tid, job: Job, supplant: bool)
    requires Locks(s) && Enabled(s, a) && AtEntry(s, t, job, supplant)
    ensures s.mem.mutex != Some(t)
    ensures a != Inside(t) ==> AtEntry(Apply(s, a), t, job, supplant)
    ensures a == Inside(t) ==> AtSwitch(Apply(s, a), t, job, supplant) && OnlyLocks(s.mem, Apply(s, a).mem)
  {
    assert LocksAt(s, t);
    if a != Inside(t) {
      OthersMoveNobody(s, a, t);
    }
  }

  lemma {:induction false} SwitchPerforms(
    run: seq<State>, actions: seq<Action>, lo: nat, hi: nat, t: Tid, job: Job, supplant: bool)
    returns (look: nat, at: seq<nat>)
    requires Trace(run, actions) && Inv(run[0]) && lo <= hi <= |actions| && BusyUntil(run, lo, hi, t)
    requires AtSwitch(run[lo], t, job, supplant)
    ensures FirstLook(run, actions, lo, look, t) && look < hi
    ensures Performs(run, actions, lo, hi, t, Script(Post(job, supplant), Passes(run[look].mem.policy)), at)
    decreases hi - lo
  {
    assert lo != hi;
    assert Enabled(run[lo], actions[lo]);
    SwitchStep(run[lo], actions[lo], t, job, supplant) by {
      LocksAlong(run, actions, lo);
    }
    if Own(actions, lo, t) {
      look := lo;
      at := RestPerformed(run, actions, lo + 1, hi, t);
    } else {
      look, at := SwitchPerforms(run, actions, lo + 1, hi, t, job, supplant);
    }
    PerformsNothing(run, actions, lo, hi, t, Script(Post(job, supplant), Passes(run[look].mem.policy)), at);
  }

  lemma {:induction false} EntryPerforms(
    run: seq<State>, actions: seq<Action>, lo: nat, hi: nat, t: Tid, job: Job, supplant: bool)
    returns (look: nat, at: seq<nat>)
    requires Trace(run, actions) && Inv(run[0]) && lo <= hi <= |actions| && BusyUntil(run, lo, hi, t)
    requires AtEntry(run[lo], t, job, supplant)
    ensures FirstLook(run, actions, lo, look, t) && look < hi
    ensures Performs(run, actions, lo, hi, t, Script(Post(job, supplant), Passes(run[look].mem.policy)), at)
    decreases hi - lo
  {
    assert lo != hi;
    assert Enabled(run[lo], actions[lo]);
    EntryStep(run[lo], actions[lo], t, job, supplant) by {
      LocksAlong(run, actions, lo);
    }
    if Own(actions, lo, t) {
      look, at := SwitchPerforms(run, actions, lo + 1, hi, t, job, supplant);
    } else {
      look, at := EntryPerforms(run, actions, lo + 1, hi, t, job, supplant);
    }
    PerformsNothing(run, actions, lo, hi, t, Script(Post(job, supplant), Passes(run[look].mem.policy)), at);
  }

  // ---- every call ----

  lemma CallBegins(s: State, a: Action, t: Tid, call: Call)
    requires Enabled(s, a) && Begins(s, a, t, call)
    ensures t in Apply(s, a).threads && Apply(s, a).threads[t] == Entry(call)
    ensures a.Invoke? ==> Apply(s, a).mem == s.mem.(foreignShutdown := s.mem.foreignShutdown || call.EmitShutdown?)
  {
  }

  lemma EntryTable(call: Call)
    ensures if call.Post? then Entry(call) == PostLock(call.job, call.supplant)
            else !BeforeSwitch(Entry(call)) && Rest(Entry(call)) == Script(call, true)
  {
  }

  /** In every run, a call other than `post` has exactly the effects of its script, in this order. */
  lemma CallPerforms(run: seq<State>, actions: seq<Action>, lo: nat, hi: nat, t: Tid, call: Call) returns (at: seq<nat>)
    requires Trace(run, actions) && Reachable(run[0]) && IsCall(run, actions, lo, hi, t, call) && !call.Post?
    ensures Performs(run, actions, lo + 1, hi, t, Script(call, true), at)
  {
    assert Enabled(run[lo], actions[lo]);
    CallBegins(run[lo], actions[lo], t, call);
    EntryTable(call);
    at := RestPerformed(run, actions, lo + 1, hi, t) by {
      ReachableInv(run[0]);
    }
  }

  /** In every run `post` has exactly the effects that go with the policy at its first look under the mutex. */
  lemma PostPerforms(run: seq<State>, actions: seq<Action>, lo: nat, hi: nat, t: Tid, job: Job, supplant: bool)
    returns (look: nat, at: seq<nat>)
    requires Trace(run, actions) && Reachable(run[0]) && IsCall(run, actions, lo, hi, t, Post(job, supplant))
    ensures look < hi && FirstLook(run, actions, lo + 1, look, t)
    ensures Performs(run, actions, lo + 1, hi, t, Script(Post(job, supplant), Passes(run[look].mem.policy)), at)
  {
    assert Enabled(run[lo], actions[lo]);
    CallBegins(run[lo], actions[lo], t, Post(job, supplant));
    EntryTable(Post(job, supplant));
    look, at := EntryPerforms(run, actions, lo + 1, hi, t, job, supplant) by {
      ReachableInv(run[0]);
    }
  }
}
