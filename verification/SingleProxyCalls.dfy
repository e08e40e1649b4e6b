/** What a call of `use`, and a use of the proxy, do to the object and to the proxy, in every run. */
module SingleProxyCalls {
  import opened Prelude
  import opened Interrupt
  import opened SingleProxy

  // ---- the steps of one thread ----

  predicate Own(actions: seq<Action>, k: nat, t: Tid) {
    k < |actions| && actions[k] == Inside(t)
  }

  predicate Busy(s: State, t: Tid) {
    t in s.threads && s.threads[t] != Idle
  }

  /** Thread `t` is inside a call from state `lo` on, and has returned in state `hi`. */
  ghost predicate BusyUntil(run: seq<State>, lo: nat, hi: nat, t: Tid)
    requires lo <= hi < |run|
  {
    && (forall k {:trigger run[k]} :: lo <= k < hi ==> Busy(run[k], t))
    && t in run[hi].threads && run[hi].threads[t] == Idle
  }

  predicate SameObjects(s: State, s': State) {
    s'.dbs == s.dbs && s'.current == s.current
  }

  /** From state `k` to state `j` the thread stays where it is, and then makes a step. */
  ghost predicate StaysUntil(run: seq<State>, actions: seq<Action>, k: nat, j: nat, t: Tid)
    requires |run| == |actions| + 1 && k <= j < |actions|
  {
    && Own(actions, j, t) && t in run[k].threads
    && (forall x {:trigger run[x]} :: k <= x <= j ==> t in run[x].threads && run[x].threads[t] == run[k].threads[t])
    && (forall x: nat {:trigger Own(actions, x, t)} :: k <= x < j ==> !Own(actions, x, t))
  }

  lemma OthersLeave(s: State, a: Action, t: Tid)
    requires Enabled(s, a) && Busy(s, t) && a != Inside(t)
    ensures t in Apply(s, a).threads && Apply(s, a).threads[t] == s.threads[t]
  {
  }

  lemma {:induction false} NextOwn(run: seq<State>, actions: seq<Action>, k: nat, hi: nat, t: Tid) returns (j: nat)
    requires Trace(run, actions) && k < hi <= |actions| && BusyUntil(run, k, hi, t)
    ensures k <= j < hi && StaysUntil(run, actions, k, j, t)
    ensures BusyUntil(run, j + 1, hi, t)
    decreases hi - k
  {
    if Own(actions, k, t) {
      j := k;
    } else {
      assert Enabled(run[k], actions[k]);
      OthersLeave(run[k], actions[k], t);
      j := NextOwn(run, actions, k + 1, hi, t);
    }
  }

  /** What an own step does, by where the thread stands. */
  lemma OwnStep(run: seq<State>, actions: seq<Action>, j: nat, t: Tid)
    requires Trace(run, actions) && Own(actions, j, t)
    ensures t in run[j].threads && run[j].threads[t] != Idle
    ensures run[j + 1] == Next(run[j], t, run[j].threads[t])
    ensures run[j].threads[t].UserLock? || run[j].threads[t].UseLock? ==> run[j].mutex == None
  {
    assert Enabled(run[j], actions[j]);
  }

  lemma ValidAt(run: seq<State>, actions: seq<Action>, n: nat)
    requires Trace(run, actions) && Init(run[0]) && n <= |actions|
    ensures Valid(run[n])
  {
    TraceValid(run, actions, n);
  }

  // ---- use ----

  /** The switcher calls `use` in step `lo` and has returned from it in state `hi`. */
  ghost predicate IsUse(run: seq<State>, actions: seq<Action>, lo: nat, hi: nat, full: bool)
    requires |run| == |actions| + 1
  {
    lo < hi <= |actions| && actions[lo] == StartUse(full) && BusyUntil(run, lo + 1, hi, SWITCHER)
  }

  /** In step `send`, without the mutex, the switcher interrupts object `d`, and does nothing else. */
  predicate SendsTo(run: seq<State>, actions: seq<Action>, send: nat, d: nat)
    requires |run| == |actions| + 1
  {
    && Own(actions, send, SWITCHER) && run[send].mutex != Some(SWITCHER)
    && d < |run[send].dbs| && run[send + 1].current == run[send].current
    && run[send + 1].dbs == run[send].dbs[d := InterruptStep(run[send].dbs[d])]
  }

  /** In step `swap`, with the mutex, the switcher puts a new object, or none, into the proxy. */
  predicate Switches(run: seq<State>, actions: seq<Action>, swap: nat, full: bool)
    requires |run| == |actions| + 1
  {
    && Own(actions, swap, SWITCHER) && run[swap].mutex == Some(SWITCHER)
    && run[swap + 1].current == (if full then Some(|run[swap].dbs|) else None)
    && run[swap + 1].dbs == run[swap].dbs + if full then [Db(false, Out, [])] else []
  }

  /** No step of `t` between `lo` and `hi` but those in `but` touches an object or the proxy. */
  ghost predicate TouchesOnly(run: seq<State>, actions: seq<Action>, lo: nat, hi: nat, t: Tid, but: set<nat>)
    requires |run| == |actions| + 1 && hi <= |actions|
  {
    forall k: nat {:trigger Own(actions, k, t)} :: lo < k < hi && Own(actions, k, t) && k !in but ==>
      SameObjects(run[k], run[k + 1])
  }

  /** Only the switcher changes what the proxy holds, and only where it swaps. */
  lemma StepKeepsCurrent(s: State, a: Action)
    requires Enabled(s, a) && Valid(s)
    requires a == Inside(SWITCHER) ==> !s.threads[SWITCHER].UseSwap?
    ensures Apply(s, a).current == s.current
  {
    if a.Inside? {
      assert ThreadOk(s, a.t, s.threads[a.t]);
    }
  }

  lemma {:induction false} CurrentStays(run: seq<State>, actions: seq<Action>, k: nat, n: nat)
    requires Trace(run, actions) && Init(run[0]) && k <= n <= |actions|
    requires forall x: nat {:trigger Own(actions, x, SWITCHER)} :: k <= x < n && Own(actions, x, SWITCHER) ==>
               SWITCHER in run[x].threads && !run[x].threads[SWITCHER].UseSwap?
    ensures run[n].current == run[k].current
  {
    if k < n {
      CurrentStays(run, actions, k, n - 1);
      assert Enabled(run[n - 1], actions[n - 1]);
      ValidAt(run, actions, n - 1);
      assert Own(actions, n - 1, SWITCHER) <==> actions[n - 1] == Inside(SWITCHER);
      StepKeepsCurrent(run[n - 1], actions[n - 1]);
    }
  }

  predicate At(s: State, t: Tid, pc: Pc) {
    t in s.threads && s.threads[t] == pc
  }

  /** From the lock on: lock, swap, unlock. */
  lemma LocksAndSwaps(run: seq<State>, actions: seq<Action>, k: nat, hi: nat, full: bool)
    returns (lock: nat, swap: nat, unlock: nat)
    requires Trace(run, actions) && Init(run[0]) && k < hi <= |actions|
    requires BusyUntil(run, k, hi, SWITCHER) && At(run[k], SWITCHER, UseLock(full))
    ensures k <= lock < swap < unlock < hi && unlock + 1 == hi
    ensures StaysUntil(run, actions, k, lock, SWITCHER) && StaysUntil(run, actions, lock + 1, swap, SWITCHER)
    ensures StaysUntil(run, actions, swap + 1, unlock, SWITCHER)
    ensures SameObjects(run[lock], run[lock + 1]) && Switches(run, actions, swap, full)
    ensures SameObjects(run[unlock], run[unlock + 1])
    ensures At(run[swap], SWITCHER, UseSwap(full))
  {
    lock := NextOwn(run, actions, k, hi, SWITCHER);
    OwnStep(run, actions, lock, SWITCHER);
    swap := NextOwn(run, actions, lock + 1, hi, SWITCHER);
    OwnStep(run, actions, swap, SWITCHER);
    MutexAtSwap(run, actions, swap);
    unlock := NextOwn(run, actions, swap + 1, hi, SWITCHER);
    OwnStep(run, actions, unlock, SWITCHER);
  }

  lemma MutexAtSwap(run: seq<State>, actions: seq<Action>, n: nat)
    requires Trace(run, actions) && Init(run[0]) && n <= |actions| && SWITCHER in run[n].threads
    ensures run[n].mutex == Some(SWITCHER) <==> HoldsMutex(run[n].threads[SWITCHER])
    ensures run[n].threads[SWITCHER].UseSwap? ==> forall d :: 0 <= d < |run[n].dbs| ==> run[n].dbs[d].pc == Out
  {
    ValidAt(run, actions, n);
    assert ThreadOk(run[n], SWITCHER, run[n].threads[SWITCHER]);
    assert forall d :: 0 <= d < |run[n].dbs| ==> DbOk(run[n], d);
  }

  lemma UseBegins(run: seq<State>, actions: seq<Action>, lo: nat, full: bool)
    requires Trace(run, actions) && lo < |actions| && actions[lo] == StartUse(full)
    ensures At(run[lo + 1], SWITCHER, UseTest(full)) && SameObjects(run[lo], run[lo + 1])
  {
    assert Enabled(run[lo], actions[lo]);
  }

  /** What the switcher's own steps between `lo` and `hi` are. */
  ghost predicate Covers(actions: seq<Action>, lo: nat, hi: nat, t: Tid, steps: set<nat>) {
    forall k: nat {:trigger Own(actions, k, t)} :: lo < k < hi && Own(actions, k, t) ==> k in steps
  }

  lemma SendStep(run: seq<State>, actions: seq<Action>, send: nat, d: nat, full: bool)
    requires Trace(run, actions) && Init(run[0]) && Own(actions, send, SWITCHER)
    requires At(run[send], SWITCHER, UseInterrupt(d, full))
    ensures SendsTo(run, actions, send, d)
  {
    OwnStep(run, actions, send, SWITCHER);
    ValidAt(run, actions, send);
    assert ThreadOk(run[send], SWITCHER, run[send].threads[SWITCHER]);
  }

  ghost predicate UsesOnce(
    run: seq<State>, actions: seq<Action>, lo: nat, hi: nat, full: bool, held: Option<nat>, send: nat, swap: nat)
    requires |run| == |actions| + 1 && lo < hi <= |actions|
  {
    && lo < swap < hi && Switches(run, actions, swap, full)
    && (forall d :: 0 <= d < |run[swap].dbs| ==> run[swap].dbs[d].pc == Out)
    && if held.Some? then
         && lo < send < swap && SendsTo(run, actions, send, held.value)
         && TouchesOnly(run, actions, lo, hi, SWITCHER, {send, swap})
       else TouchesOnly(run, actions, lo, hi, SWITCHER, {swap})
  }

  /** From the lock on nothing but the swap touches an object or the proxy. */
  lemma SwapsOnce(run: seq<State>, actions: seq<Action>, k: nat, hi: nat, full: bool) returns (swap: nat)
    requires Trace(run, actions) && Init(run[0]) && 0 < k < hi <= |actions|
    requires BusyUntil(run, k, hi, SWITCHER) && At(run[k], SWITCHER, UseLock(full))
    ensures k <= swap < hi && Switches(run, actions, swap, full)
    ensures TouchesOnly(run, actions, k - 1, hi, SWITCHER, {swap})
    ensures forall d :: 0 <= d < |run[swap].dbs| ==> run[swap].dbs[d].pc == Out
  {
    var lock, unlock;
    lock, swap, unlock := LocksAndSwaps(run, actions, k, hi, full);
    MutexAtSwap(run, actions, swap);
    assert Covers(actions, k - 1, hi, SWITCHER, {lock, swap, unlock});
  }

  /** Before the first own step after `lo` nothing is touched. */
  lemma TouchesAfter(
    run: seq<State>, actions: seq<Action>, lo: nat, k: nat, j: nat, hi: nat, t: Tid, but: set<nat>)
    requires |run| == |actions| + 1 && lo < k <= j < hi <= |actions| && k == lo + 1
    requires StaysUntil(run, actions, k, j, t) && TouchesOnly(run, actions, j, hi, t, but)
    ensures TouchesOnly(run, actions, lo, hi, t, but + {j})
    ensures SameObjects(run[j], run[j + 1]) ==> TouchesOnly(run, actions, lo, hi, t, but)
  {
  }

  lemma SendsAndSwaps(run: seq<State>, actions: seq<Action>, k: nat, hi: nat, d: nat, full: bool)
    returns (send: nat, swap: nat)
    requires Trace(run, actions) && Init(run[0]) && 0 < k < hi <= |actions|
    requires BusyUntil(run, k, hi, SWITCHER) && At(run[k], SWITCHER, UseInterrupt(d, full))
    ensures k <= send < swap < hi && SendsTo(run, actions, send, d) && Switches(run, actions, swap, full)
    ensures TouchesOnly(run, actions, k - 1, hi, SWITCHER, {send, swap})
    ensures forall e :: 0 <= e < |run[swap].dbs| ==> run[swap].dbs[e].pc == Out
  {
    send := NextOwn(run, actions, k, hi, SWITCHER);
    SendStep(run, actions, send, d, full);
    OwnStep(run, actions, send, SWITCHER);
    swap := SwapsOnce(run, actions, send + 1, hi, full);
    TouchesAfter(run, actions, k - 1, k, send, hi, SWITCHER, {swap});
    assert {swap} + {send} == {send, swap};
  }

  lemma UseOfSeen(run: seq<State>, actions: seq<Action>, lo: nat, hi: nat, full: bool)
    returns (test: nat, send: nat, swap: nat)
    requires Trace(run, actions) && Init(run[0]) && IsUse(run, actions, lo, hi, full)
    ensures lo < test < hi && StaysUntil(run, actions, lo + 1, test, SWITCHER) && At(run[test], SWITCHER, UseTest(full))
    ensures UsesOnce(run, actions, lo, hi, full, run[test].current, send, swap)
  {
    UseBegins(run, actions, lo, full);
    test := NextOwn(run, actions, lo + 1, hi, SWITCHER);
    OwnStep(run, actions, test, SWITCHER);
    if run[test].current.Some? {
      send, swap := SendsAndSwaps(run, actions, test + 1, hi, run[test].current.value, full);
      TouchesAfter(run, actions, lo, lo + 1, test, hi, SWITCHER, {send, swap});
    } else {
      send := test;
      swap := SwapsOnce(run, actions, test + 1, hi, full);
      TouchesAfter(run, actions, lo, lo + 1, test, hi, SWITCHER, {swap});
    }
  }

  /**
   A call of `use` interrupts the object that the proxy holds, once and without the mutex, and then replaces it with
   the mutex, at a moment when nothing is being executed. If the proxy is empty it only replaces.
   */
  lemma UseEffect(run: seq<State>, actions: seq<Action>, lo: nat, hi: nat, full: bool) returns (send: nat, swap: nat)
    requires Trace(run, actions) && Init(run[0]) && IsUse(run, actions, lo, hi, full)
    ensures UsesOnce(run, actions, lo, hi, full, run[lo].current, send, swap)
  {
    var test;
    test, send, swap := UseOfSeen(run, actions, lo, hi, full);
    UseBegins(run, actions, lo, full);
    CurrentStays(run, actions, lo + 1, test);
  }

  // ---- the interrupted execution ----

  /** An object changes in a step of the run only by a step of its own. */
  lemma ObjectStep(s: State, a: Action, d: nat) returns (move: Option<Move>)
    requires Enabled(s, a) && Valid(s) && d < |s.dbs|
    ensures d < |Apply(s, a).dbs|
    ensures Apply(s, a).dbs[d] == if move.Some? then Step(POLLS, s.dbs[d], move.value) else s.dbs[d]
  {
    move := None;
    if a.Inside? {
      var pc := s.threads[a.t];
      assert ThreadOk(s, a.t, pc);
      match pc
      case UserTest => move := if s.current == Some(d) then Some(Call) else None;
      case Executing(e) => move := if e == d then Some(Exec) else None;
      case UseInterrupt(e, _) => move := if e == d then Some(Send) else None;
      case _ =>
    }
  }

  /** How object `d` has answered since its log was `log0`. */
  ghost predicate Answering(s: State, d: nat, log0: seq<Event>, steps: nat) {
    d < |s.dbs| && Answered(POLLS, log0, s.dbs[d], steps)
  }

  lemma StepAnswering(s: State, a: Action, d: nat, log0: seq<Event>, steps: nat) returns (steps': nat)
    requires Enabled(s, a) && Valid(s) && Answering(s, d, log0, steps)
    ensures Answering(Apply(s, a), d, log0, steps')
  {
    var move := ObjectStep(s, a, d);
    steps' := steps;
    if move.Some? {
      MoveAnswered(POLLS, log0, s.dbs[d], steps, move.value);
      steps' := steps + if move.value == Exec then 1 else 0;
    }
  }

  lemma {:induction false} TraceAnswers(
    run: seq<State>, actions: seq<Action>, k: nat, n: nat, d: nat, log0: seq<Event>) returns (steps: nat)
    requires Trace(run, actions) && Init(run[0]) && k <= n <= |actions| && Answering(run[k], d, log0, 0)
    ensures Answering(run[n], d, log0, steps)
  {
    if k == n {
      steps := 0;
    } else {
      steps := TraceAnswers(run, actions, k, n - 1, d, log0);
      assert Enabled(run[n - 1], actions[n - 1]);
      ValidAt(run, actions, n - 1);
      steps := StepAnswering(run[n - 1], actions[n - 1], d, log0, steps);
    }
  }

  /**
   An execution that has a poll left when `use` interrupts it ends with the exception, after one more poll and before
   the object is replaced.
   */
  lemma UseInterruptsExecution(run: seq<State>, actions: seq<Action>, lo: nat, hi: nat, full: bool, d: nat)
    returns (send: nat, swap: nat)
    requires Trace(run, actions) && Init(run[0]) && IsUse(run, actions, lo, hi, full) && run[lo].current == Some(d)
    ensures UsesOnce(run, actions, lo, hi, full, Some(d), send, swap)
    ensures d < |run[send].dbs| && d < |run[swap].dbs|
    ensures run[send].dbs[d].pc.Poll? && run[send].dbs[d].pc.i < POLLS ==>
              var log0, log := run[send].dbs[d].log + [InterruptSent], run[swap].dbs[d].log;
              log0 <= log && [Polled, Interrupted] <= Heard(log[|log0|..])
  {
    send, swap := UseEffect(run, actions, lo, hi, full);
    DbsGrow(run, actions, send, swap);
    var db := run[send].dbs[d];
    if db.pc.Poll? && db.pc.i < POLLS {
      var log0 := db.log + [InterruptSent];
      assert run[send + 1].dbs[d].log[|log0|..] == [];
      var steps := TraceAnswers(run, actions, send + 1, swap, d, log0);
      assert run[swap].dbs[d].pc == Out;
    }
  }

  lemma {:induction false} DbsGrow(run: seq<State>, actions: seq<Action>, k: nat, n: nat)
    requires Trace(run, actions) && k <= n <= |actions|
    ensures |run[k].dbs| <= |run[n].dbs|
  {
    if k < n {
      DbsGrow(run, actions, k, n - 1);
      assert Enabled(run[n - 1], actions[n - 1]);
    }
  }

  // ---- a use of the proxy ----

  /** Thread `t` calls `exec` through the proxy in step `lo` and has returned, or thrown, in state `hi`. */
  ghost predicate IsExec(run: seq<State>, actions: seq<Action>, lo: nat, hi: nat, t: Tid)
    requires |run| == |actions| + 1
  {
    lo < hi <= |actions| && actions[lo] == StartExec(t) && BusyUntil(run, lo + 1, hi, t)
  }

  predicate ExecutesStep(run: seq<State>, k: nat, d: nat)
    requires k + 1 < |run|
  {
    && d < |run[k].dbs| && run[k].current == Some(d) && run[k + 1].current == Some(d)
    && run[k + 1].dbs == run[k].dbs[d := ExecStep(POLLS, run[k].dbs[d])]
  }

  /** From state `k` to its end in step `end`, every step of `t` is one of the execution of `d`. */
  ghost predicate ExecutesTo(run: seq<State>, actions: seq<Action>, k: nat, end: nat, t: Tid, d: nat)
    requires |run| == |actions| + 1
  {
    && k <= end < |actions| && Own(actions, end, t)
    && (forall x: nat {:trigger Own(actions, x, t)} :: k <= x <= end && Own(actions, x, t) ==>
          ExecutesStep(run, x, d) && run[x].mutex == Some(t) && (run[x + 1].dbs[d].pc == Out <==> x == end))
  }

  lemma OutcomeAtEnd(polls: nat, db: Db)
    requires db.pc != Out && ExecStep(polls, db).pc == Out
    ensures exists e :: e in {Refused, Interrupted, Finished} && ExecStep(polls, db).log == db.log + [e]
  {
    var e := if db.pc == Entry then Refused else if db.pc == Unwinding then Interrupted else Finished;
    assert ExecStep(polls, db).log == db.log + [e];
  }

  /** The execution of `d` ends in step `k`, in one of the three ways. */
  ghost predicate EndsIn(run: seq<State>, k: nat, d: nat)
    requires k + 1 < |run|
  {
    && d < |run[k].dbs| && d < |run[k + 1].dbs|
    && exists e :: e in {Refused, Interrupted, Finished} && run[k + 1].dbs[d].log == run[k].dbs[d].log + [e]
  }

  lemma ExecutingAt(run: seq<State>, actions: seq<Action>, n: nat, t: Tid, d: nat)
    requires Trace(run, actions) && Init(run[0]) && n <= |actions| && At(run[n], t, Executing(d))
    ensures run[n].current == Some(d) && run[n].mutex == Some(t) && d < |run[n].dbs| && run[n].dbs[d].pc != Out
  {
    ValidAt(run, actions, n);
    assert ThreadOk(run[n], t, run[n].threads[t]);
  }

  lemma ExecAt(run: seq<State>, actions: seq<Action>, j: nat, t: Tid, d: nat)
    requires Trace(run, actions) && Init(run[0]) && Own(actions, j, t) && At(run[j], t, Executing(d))
    ensures ExecutesStep(run, j, d) && run[j].mutex == Some(t)
    ensures At(run[j + 1], t, if run[j + 1].dbs[d].pc == Out then UserUnlock else Executing(d))
    ensures run[j + 1].dbs[d].pc == Out ==> EndsIn(run, j, d)
  {
    ExecutingAt(run, actions, j, t, d);
    OwnStep(run, actions, j, t);
    if run[j + 1].dbs[d].pc == Out {
      OutcomeAtEnd(POLLS, run[j].dbs[d]);
    }
  }

  lemma ExecutesEarlier(run: seq<State>, actions: seq<Action>, k: nat, j: nat, end: nat, t: Tid, d: nat)
    requires |run| == |actions| + 1 && k <= j < |actions| && StaysUntil(run, actions, k, j, t)
    requires ExecutesStep(run, j, d) && run[j].mutex == Some(t)
    requires if run[j + 1].dbs[d].pc == Out then end == j else ExecutesTo(run, actions, j + 1, end, t, d)
    ensures ExecutesTo(run, actions, k, end, t, d)
  {
  }

  lemma {:induction false} ExecutesOn(run: seq<State>, actions: seq<Action>, k: nat, hi: nat, t: Tid, d: nat)
    returns (end: nat)
    requires Trace(run, actions) && Init(run[0]) && k < hi <= |actions|
    requires BusyUntil(run, k, hi, t) && At(run[k], t, Executing(d))
    ensures end < hi && ExecutesTo(run, actions, k, end, t, d) && At(run[end + 1], t, UserUnlock)
    ensures BusyUntil(run, end + 1, hi, t) && EndsIn(run, end, d)
    decreases hi - k
  {
    var j := NextOwn(run, actions, k, hi, t);
    ExecAt(run, actions, j, t, d);
    end := j;
    if run[j + 1].dbs[d].pc != Out {
      end := ExecutesOn(run, actions, j + 1, hi, t, d);
    }
    ExecutesEarlier(run, actions, k, j, end, t, d);
  }

  lemma UnlocksLast(run: seq<State>, actions: seq<Action>, k: nat, hi: nat, t: Tid)
    requires Trace(run, actions) && 0 < k < hi <= |actions| && BusyUntil(run, k, hi, t) && At(run[k], t, UserUnlock)
    ensures TouchesOnly(run, actions, k - 1, hi, t, {})
  {
    var j := NextOwn(run, actions, k, hi, t);
    OwnStep(run, actions, j, t);
  }

  /** The look of a use of the proxy, under its mutex. */
  lemma ExecLooks(run: seq<State>, actions: seq<Action>, lo: nat, hi: nat, t: Tid) returns (look: nat)
    requires Trace(run, actions) && Init(run[0]) && IsExec(run, actions, lo, hi, t)
    ensures lo < look < hi && Own(actions, look, t) && At(run[look], t, UserTest) && run[look].mutex == Some(t)
    ensures TouchesOnly(run, actions, lo, look, t, {}) && BusyUntil(run, look + 1, hi, t)
  {
    assert Enabled(run[lo], actions[lo]);
    var lock := NextOwn(run, actions, lo + 1, hi, t);
    OwnStep(run, actions, lock, t);
    look := NextOwn(run, actions, lock + 1, hi, t);
    OwnStep(run, actions, look, t);
    ValidAt(run, actions, look);
    assert ThreadOk(run[look], t, run[look].threads[t]);
  }

  /** What the call does to the object that it finds. */
  ghost predicate ExecutesOnce(
    run: seq<State>, actions: seq<Action>, lo: nat, hi: nat, t: Tid, d: nat, look: nat, end: nat)
    requires |run| == |actions| + 1 && lo < hi <= |actions| && look < |actions|
  {
    && d < |run[look].dbs| && run[look].dbs[d].pc == Out
    && run[look + 1].dbs == run[look].dbs[d := run[look].dbs[d].(pc := Entry)]
    && look < end < hi && ExecutesTo(run, actions, look + 1, end, t, d) && EndsIn(run, end, d)
    && TouchesOnly(run, actions, lo, look, t, {}) && TouchesOnly(run, actions, end, hi, t, {})
  }

  lemma LookExecutes(run: seq<State>, actions: seq<Action>, look: nat, hi: nat, t: Tid, d: nat) returns (end: nat)
    requires Trace(run, actions) && Init(run[0]) && look + 1 < hi <= |actions| && Own(actions, look, t)
    requires At(run[look], t, UserTest) && run[look].current == Some(d) && BusyUntil(run, look + 1, hi, t)
    ensures d < |run[look].dbs| && run[look].dbs[d].pc == Out
    ensures run[look + 1].dbs == run[look].dbs[d := run[look].dbs[d].(pc := Entry)]
    ensures look < end < hi && ExecutesTo(run, actions, look + 1, end, t, d) && EndsIn(run, end, d)
    ensures TouchesOnly(run, actions, end, hi, t, {})
  {
    OwnStep(run, actions, look, t);
    ValidAt(run, actions, look);
    assert ThreadOk(run[look], t, UserTest) && DbOk(run[look], d);
    end := ExecutesOn(run, actions, look + 1, hi, t, d);
    assert end + 1 < hi;
    UnlocksLast(run, actions, end + 1, hi, t);
  }

  /**
   A call of `exec` through the proxy looks under the mutex. If it finds an object it executes that one, from the
   beginning to one outcome, without giving up the mutex; otherwise it touches nothing.
   */
  lemma ExecEffect(run: seq<State>, actions: seq<Action>, lo: nat, hi: nat, t: Tid) returns (look: nat, end: nat)
    requires Trace(run, actions) && Init(run[0]) && IsExec(run, actions, lo, hi, t)
    ensures lo < look < hi && Own(actions, look, t) && run[look].mutex == Some(t)
    ensures if run[look].current.Some? then ExecutesOnce(run, actions, lo, hi, t, run[look].current.value, look, end)
            else TouchesOnly(run, actions, lo, hi, t, {})
  {
    look := ExecLooks(run, actions, lo, hi, t);
    OwnStep(run, actions, look, t);
    end := look;
    if run[look].current.Some? {
      end := LookExecutes(run, actions, look, hi, t, run[look].current.value);
    } else {
      UnlocksLast(run, actions, look + 1, hi, t);
    }
  }

  // ---- the end of a call ----

  /** How many more steps an execution makes at most. */
  function ToOutcome(pc: ExecPc): nat {
    match pc
    case Out => 0
    case Entry => POLLS + 3
    case Poll(i) => (if i < POLLS then POLLS - i else 0) + 2
    case Unwinding => 1
  }

  /** How many more steps of its own a thread at `pc` makes at most before its call returns. */
  function ToReturn(s: State, pc: Pc): nat {
    match pc
    case Idle => 0
    case UserLock => POLLS + 6
    case UserTest => POLLS + 5
    case Executing(d) => ToOutcome(DbAt(s, d).pc) + 1
    case UserUnlock => 1
    case UseTest(_) => 5
    case UseInterrupt(_, _) => 4
    case UseLock(_) => 3
    case UseSwap(_) => 2
    case UseUnlock => 1
  }

  lemma ExecDescends(db: Db)
    requires db.pc != Out
    ensures ToOutcome(Step(POLLS, db, Exec).pc) < ToOutcome(db.pc)
  {
  }

  lemma SendKeepsPlace(db: Db)
    ensures Step(POLLS, db, Send).pc == db.pc
  {
  }

  /** Every step of its own brings a call nearer to its return, and no step of another takes it back. */
  lemma CallDescends(s: State, a: Action, t: Tid)
    requires Valid(s) && Enabled(s, a) && Busy(s, t)
    ensures t in Apply(s, a).threads
    ensures ToReturn(Apply(s, a), Apply(s, a).threads[t]) + (if a == Inside(t) then 1 else 0)
         <= ToReturn(s, s.threads[t])
  {
    var pc := s.threads[t];
    assert ThreadOk(s, t, pc);
    if a == Inside(t) {
      if pc.Executing? {
        ExecDescends(s.dbs[pc.d]);
      }
    } else {
      OthersLeave(s, a, t);
      if pc.Executing? {
        OthersKeepExecution(s, a, t, pc.d);
      }
    }
  }

  lemma OthersKeepExecution(s: State, a: Action, t: Tid, d: nat)
    requires Valid(s) && Enabled(s, a) && At(s, t, Executing(d)) && a != Inside(t)
    ensures DbAt(Apply(s, a), d).pc == DbAt(s, d).pc
  {
    assert ThreadOk(s, t, Executing(d));
    if a.Inside? {
      assert ThreadOk(s, a.t, s.threads[a.t]);
      SendKeepsPlace(DbAt(s, d));
    }
  }

  /** Only for the mutex does a thread ever wait; so the interruption by `use` waits for nothing. */
  lemma ThreadsCanMove(s: State, t: Tid)
    requires Valid(s) && t in s.threads
    ensures s.threads[t] == Idle ==> Enabled(s, StartExec(t))
    ensures s.threads[t] == Idle && t == SWITCHER ==> forall full :: Enabled(s, StartUse(full))
    ensures s.threads[t] != Idle && !Enabled(s, Inside(t)) ==>
              (s.threads[t].UserLock? || s.threads[t].UseLock?) && s.mutex.Some? && s.mutex != Some(t)
  {
    assert ThreadOk(s, t, s.threads[t]);
  }

  /** The holder of the mutex can always take its next step. */
  lemma HolderCanMove(s: State)
    requires Valid(s) && s.mutex.Some?
    ensures s.mutex.value in s.threads && Enabled(s, Inside(s.mutex.value))
  {
    assert ThreadOk(s, s.mutex.value, s.threads[s.mutex.value]);
  }
}
