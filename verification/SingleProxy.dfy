/**
 The proxy of `languages/cxx/chain_proxy/00-proxy-interrupt.cpp`: one `MyDB`, whose users keep the proxy's mutex
 for the whole of `exec`, and `use`, which interrupts the current object without the mutex and replaces it with it.
 Only one thread, `SWITCHER`, calls `use`.
 */
module SingleProxy {
  import opened Prelude
  import opened Interrupt

  type Tid = nat

  const SWITCHER: Tid := 0
  const POLLS := 10

  datatype Pc =
    | Idle
    | UserLock | UserTest | Executing(d: nat) | UserUnlock
    | UseTest(full: bool) | UseInterrupt(d: nat, full: bool) | UseLock(full: bool) | UseSwap(full: bool) | UseUnlock

  datatype State = State(
    mutex: Option<Tid>,
    current: Option<nat>,  // m_db, as a position in `dbs`
    dbs: seq<Db>,          // every object ever given to the proxy; all but the current one are destroyed
    threads: map<Tid, Pc>)

  datatype Action = StartExec(t: Tid) | StartUse(full: bool) | Inside(t: Tid)

  predicate Enabled(s: State, a: Action) {
    match a
    case StartExec(t) => t in s.threads && s.threads[t] == Idle
    case StartUse(_) => SWITCHER in s.threads && s.threads[SWITCHER] == Idle
    case Inside(t) =>
      && t in s.threads && s.threads[t] != Idle
      && (s.threads[t].UserLock? || s.threads[t].UseLock? ==> s.mutex == None)
  }

  function Goto(s: State, t: Tid, pc: Pc): State {
    s.(threads := s.threads[t := pc])
  }

  function SetDb(s: State, d: nat, db: Db): State {
    if d < |s.dbs| then s.(dbs := s.dbs[d := db]) else s
  }

  function DbAt(s: State, d: nat): Db {
    if d < |s.dbs| then s.dbs[d] else Db(false, Out, [])
  }

  function Next(s: State, t: Tid, pc: Pc): State {
    match pc
    case Idle => s
    case UserLock => Goto(s.(mutex := Some(t)), t, UserTest)
    case UserTest =>
      if s.current == None then Goto(s, t, UserUnlock)  // "accessing empty proxy"
      else Goto(SetDb(s, s.current.value, Step(POLLS, DbAt(s, s.current.value), Call)), t, Executing(s.current.value))
    case Executing(d) =>
      var db := Step(POLLS, DbAt(s, d), Exec);
      Goto(SetDb(s, d, db), t, if db.pc == Out then UserUnlock else Executing(d))
    case UserUnlock => Goto(s.(mutex := None), t, Idle)
    case UseTest(full) =>
      Goto(s, t, if s.current.Some? then UseInterrupt(s.current.value, full) else UseLock(full))
    case UseInterrupt(d, full) => Goto(SetDb(s, d, Step(POLLS, DbAt(s, d), Send)), t, UseLock(full))
    case UseLock(full) => Goto(s.(mutex := Some(t)), t, UseSwap(full))
    case UseSwap(full) =>
      if full then Goto(s.(current := Some(|s.dbs|), dbs := s.dbs + [Db(false, Out, [])]), t, UseUnlock)
      else Goto(s.(current := None), t, UseUnlock)
    case UseUnlock => Goto(s.(mutex := None), t, Idle)
  }

  function Apply(s: State, a: Action): State
    requires Enabled(s, a)
  {
    match a
    case StartExec(t) => Goto(s, t, UserLock)
    case StartUse(full) => Goto(s, SWITCHER, UseTest(full))
    case Inside(t) => Next(s, t, s.threads[t])
  }

  ghost predicate Init(s: State) {
    s.mutex == None && s.current == None && s.dbs == [] && forall t <- s.threads :: s.threads[t] == Idle
  }

  ghost predicate Trace(run: seq<State>, actions: seq<Action>) {
    && |run| == |actions| + 1
    && forall i {:trigger actions[i]} :: 0 <= i < |actions| ==>
         Enabled(run[i], actions[i]) && run[i + 1] == Apply(run[i], actions[i])
  }

  ghost predicate Reachable(s: State) {
    exists run, actions :: Trace(run, actions) && Init(run[0]) && run[|actions|] == s
  }

  // ---- what every step keeps ----

  predicate HoldsMutex(pc: Pc) {
    pc.UserTest? || pc.Executing? || pc.UserUnlock? || pc.UseSwap? || pc.UseUnlock?
  }

  predicate Using(pc: Pc) {
    pc.UseTest? || pc.UseInterrupt? || pc.UseLock? || pc.UseSwap? || pc.UseUnlock?
  }

  /** What a thread works on is the proxy's current object. */
  predicate ThreadOk(s: State, t: Tid, pc: Pc) {
    && (s.mutex == Some(t) <==> HoldsMutex(pc))
    && (Using(pc) ==> t == SWITCHER)
    && (pc.Executing? || pc.UseInterrupt? ==> s.current == Some(pc.d))
    && (pc.Executing? ==> DbAt(s, pc.d).pc != Out)
  }

  predicate DbOk(s: State, d: nat)
    requires d < |s.dbs|
  {
    s.dbs[d].pc != Out ==> s.mutex.Some? && s.mutex.value in s.threads && s.threads[s.mutex.value] == Executing(d)
  }

  ghost predicate Valid(s: State) {
    && (s.current.Some? ==> s.current.value < |s.dbs|)
    && (s.mutex.Some? ==> s.mutex.value in s.threads)
    && (forall t <- s.threads :: ThreadOk(s, t, s.threads[t]))
    && (forall d :: 0 <= d < |s.dbs| ==> DbOk(s, d) && Inv(s.dbs[d]))
  }

  /** One object changes by a move that starts or ends an execution only where the thread's position says so. */
  lemma DbStepKeepsValid(s: State, t: Tid, d: nat, move: Move, pc': Pc)
    requires Valid(s) && t in s.threads && s.current == Some(d)
    requires var db' := Step(POLLS, s.dbs[d], move);
             if move == Send then s.threads[t].UseInterrupt? && pc'.UseLock?
             else && s.mutex == Some(t) && !Using(s.threads[t])
                  && pc' == if db'.pc == Out then UserUnlock else Executing(d)
    ensures Valid(Goto(SetDb(s, d, Step(POLLS, s.dbs[d], move)), t, pc'))
  {
    StepKeepsInv(POLLS, s.dbs[d], move);
    PutDbKeepsValid(s, t, d, Step(POLLS, s.dbs[d], move), pc');
  }

  lemma PutDbKeepsValid(s: State, t: Tid, d: nat, db': Db, pc': Pc)
    requires Valid(s) && t in s.threads && s.current == Some(d) && Inv(db')
    requires if s.threads[t].UseInterrupt? then pc'.UseLock? && db'.pc == s.dbs[d].pc
             else && s.mutex == Some(t) && !Using(s.threads[t])
                  && pc' == if db'.pc == Out then UserUnlock else Executing(d)
    ensures Valid(Goto(SetDb(s, d, db'), t, pc'))
  {
    var s' := Goto(SetDb(s, d, db'), t, pc');
    assert ThreadOk(s, t, s.threads[t]) && DbOk(s, d);
    forall u <- s'.threads ensures ThreadOk(s', u, s'.threads[u]) {
      assert ThreadOk(s, u, s.threads[u]);
    }
    forall e | 0 <= e < |s'.dbs| ensures DbOk(s', e) && Inv(s'.dbs[e]) {
      assert DbOk(s, e) && Inv(s.dbs[e]);
    }
  }

  lemma MoveKeepsValid(s: State, t: Tid, pc: Pc)
    requires Valid(s) && t in s.threads && s.threads[t] == pc && !pc.Executing? && !pc.UseInterrupt?
    requires pc.UserTest? ==> s.current == None
    requires pc.UserLock? || pc.UseLock? ==> s.mutex == None
    ensures Valid(Next(s, t, pc))
  {
    var s' := Next(s, t, pc);
    assert ThreadOk(s, t, pc);
    forall u <- s'.threads ensures ThreadOk(s', u, s'.threads[u]) {
      assert ThreadOk(s, u, s.threads[u]);
    }
    forall e | 0 <= e < |s'.dbs| ensures DbOk(s', e) && Inv(s'.dbs[e]) {
      assert e < |s.dbs| ==> DbOk(s, e) && Inv(s.dbs[e]);
    }
  }

  lemma KeepsValid(s: State, a: Action)
    requires Valid(s) && Enabled(s, a)
    ensures Valid(Apply(s, a))
  {
    match a
    case StartExec(t) => StartKeepsValid(s, t, UserLock);
    case StartUse(full) => StartKeepsValid(s, SWITCHER, UseTest(full));
    case Inside(t) =>
      var pc := s.threads[t];
      assert ThreadOk(s, t, pc);
      if pc.Executing? {
        DbStepKeepsValid(s, t, pc.d, Exec, if Step(POLLS, s.dbs[pc.d], Exec).pc == Out then UserUnlock else pc);
      } else if pc.UseInterrupt? {
        DbStepKeepsValid(s, t, pc.d, Send, UseLock(pc.full));
      } else if pc.UserTest? && s.current.Some? {
        assert DbOk(s, s.current.value);
        DbStepKeepsValid(s, t, s.current.value, Call, Executing(s.current.value));
      } else {
        MoveKeepsValid(s, t, pc);
      }
  }

  lemma StartKeepsValid(s: State, t: Tid, pc: Pc)
    requires Valid(s) && t in s.threads && s.threads[t] == Idle
    requires pc == UserLock || (t == SWITCHER && pc.UseTest?)
    ensures Valid(Goto(s, t, pc))
  {
    var s' := Goto(s, t, pc);
    assert ThreadOk(s, t, Idle);
    forall u <- s'.threads ensures ThreadOk(s', u, s'.threads[u]) {
      assert ThreadOk(s, u, s.threads[u]);
    }
    forall e | 0 <= e < |s'.dbs| ensures DbOk(s', e) {
      assert DbOk(s, e);
    }
  }

  lemma {:induction false} TraceValid(run: seq<State>, actions: seq<Action>, n: nat)
    requires Trace(run, actions) && Init(run[0]) && n <= |actions|
    ensures Valid(run[n])
  {
    if n != 0 {
      TraceValid(run, actions, n - 1);
      assert Enabled(run[n - 1], actions[n - 1]);
      KeepsValid(run[n - 1], actions[n - 1]);
    }
  }

  /**
   No object is replaced while a thread executes it or is about to interrupt it, and no two threads execute at once.
   */
  lemma ExecutionKeepsObject(s: State, t: Tid, u: Tid)
    requires Reachable(s) && t in s.threads && u in s.threads
    ensures s.threads[t].Executing? || s.threads[t].UseInterrupt? ==> s.current == Some(s.threads[t].d)
    ensures s.threads[t].Executing? && s.threads[u].Executing? ==> t == u
  {
    var run, actions :| Trace(run, actions) && Init(run[0]) && run[|actions|] == s;
    TraceValid(run, actions, |actions|);
    assert ThreadOk(s, t, s.threads[t]) && ThreadOk(s, u, s.threads[u]);
  }

  /** Also behind this proxy an execution ends interrupted exactly when `use` interrupted it before its last poll. */
  lemma SwitchInterruptsExactly(s: State, d: nat, j: nat)
    requires Reachable(s) && d < |s.dbs| && j < |s.dbs[d].log|
    requires s.dbs[d].log[j] == Finished || s.dbs[d].log[j] == Interrupted
    ensures var log := s.dbs[d].log;
            var begin, look := Begin(log[..j]), LastLook(log[..j]);
            0 <= begin && (log[j] == Interrupted <==> exists k :: begin < k < look && log[k] == InterruptSent)
  {
    var run, actions :| Trace(run, actions) && Init(run[0]) && run[|actions|] == s;
    TraceValid(run, actions, |actions|);
    var log := s.dbs[d].log;
    assert OutcomeExplained(log[..j], log[j]);
    assert forall k :: 0 <= k < j ==> log[..j][k] == log[k];
  }
}
