/** What holds in every run of the pool machine. */
module PoolTheorems {
  import opened Prelude
  import opened PoolMachine
  import opened PoolInvariants

  lemma InitInv(s: State)
    requires Init(s)
    ensures Inv(s)
  {
  }

  lemma {:induction false} TraceInv(run: seq<State>, actions: seq<Action>, n: nat)
    requires Trace(run, actions) && Inv(run[0]) && n <= |actions|
    ensures Inv(run[n]) || run[n].mem.terminated
  {
    if n != 0 {
      TraceInv(run, actions, n - 1);
      assert Enabled(run[n - 1], actions[n - 1]);
      KeepsInv(run[n - 1], actions[n - 1]);
    }
  }

  lemma ReachableInv(s: State)
    requires Reachable(s) && !s.mem.terminated
    ensures Inv(s)
  {
    var run, actions :| Trace(run, actions) && Init(run[0]) && run[|actions|] == s;
    InitInv(run[0]);
    TraceInv(run, actions, |actions|);
  }

  lemma InvAt(run: seq<State>, actions: seq<Action>, n: nat)
    requires Trace(run, actions) && Init(run[0]) && n <= |actions| && !run[n].mem.terminated
    ensures Inv(run[n])
  {
    InitInv(run[0]);
    TraceInv(run, actions, n);
  }

  lemma ReachNext(s: State, a: Action)
    requires Reachable(s) && Enabled(s, a)
    ensures Reachable(Apply(s, a))
  {
    var run, actions :| Trace(run, actions) && Init(run[0]) && run[|actions|] == s;
    assert Trace(run + [Apply(s, a)], actions + [a]);
  }

  // ---- exclusion ----

  /** `Exclusive` never throws: neither a second pre-lock nor a simultaneous access happens. */
  lemma ExclusiveNeverThrows(s: State, t: Tid)
    requires Reachable(s) && !s.mem.terminated && t in s.threads
    ensures s.threads[t] != AlreadyPreLocked && s.threads[t] != SimultaneousAccess
  {
    ReachableInv(s);
  }

  /** Every `Lockable` is alone on its connection, and the connection's pool still exists. */
  lemma OneLockablePerConnection(s: State, t: Tid, u: Tid, g: nat, i: nat)
    requires Reachable(s) && !s.mem.terminated
    requires Has(s.threads, t, g, i) && Has(s.threads, u, g, i)
    ensures t == u
    ensures In(s.mem, g, i) && s.mem.pools[g].alive
  {
    ReachableInv(s);
    assert IsLive(s.mem, g, i, t) && IsLive(s.mem, g, i, u);
    assert PoolOk(s.mem.pools[g], g, s.mem.current == Some(g), s.mem.proxyMutex, Holder(s));
  }

  /** Outside a critical section of the proxy no connection is pre-locked. */
  lemma NoPreLockBetweenCalls(s: State, g: nat, i: nat)
    requires Reachable(s) && !s.mem.terminated && In(s.mem, g, i) && s.mem.proxyMutex == None
    ensures !s.mem.pools[g].conns[i].PreLocked?
  {
    ReachableInv(s);
    assert PoolOk(s.mem.pools[g], g, s.mem.current == Some(g), s.mem.proxyMutex, Holder(s));
  }

  /** No deadlock over the mutexes: the thread that holds the proxy's can always take its next step. */
  lemma HolderCanMove(s: State)
    requires Reachable(s) && !s.mem.terminated && s.mem.proxyMutex.Some?
    ensures var t := s.mem.proxyMutex.value; t in s.threads && Enabled(s, Inside(t))
  {
    ReachableInv(s);
    var t := s.mem.proxyMutex.value;
    if !ThreadOp(s.mem, s.threads[t]).Terminate? {
      HolderSteps(s.mem, t, s.threads[t]);
    }
  }

  /** Only for the proxy's mutex does a thread ever wait. */
  lemma ThreadsCanMove(s: State, t: Tid)
    requires Reachable(s) && !s.mem.terminated && t in s.threads
    ensures s.threads[t] == Idle ==> Enabled(s, InvokeArrow(t)) && forall full :: Enabled(s, InvokeUse(t, full))
    ensures s.threads[t] != Idle && !Enabled(s, Inside(t)) ==>
              && s.mem.proxyMutex.Some? && s.mem.proxyMutex != Some(t)
              && (s.threads[t].ArrowLock? || s.threads[t].UseLock?)
  {
    ReachableInv(s);
    if HoldsProxy(s.threads[t]) {
      HolderCanMove(s);
    } else if s.threads[t].Using? {
      assert Has(s.threads, t, s.threads[t].g, s.threads[t].i);
      assert IsLive(s.mem, s.threads[t].g, s.threads[t].i, t);
    }
  }

  /** Only the holder of the proxy's mutex holds the mutex of a pool, so that this one never has to be waited for. */
  lemma PoolMutexIsHolders(s: State, g: nat)
    requires Reachable(s) && !s.mem.terminated && g < |s.mem.pools| && s.mem.pools[g].mutex.Some?
    ensures s.mem.pools[g].mutex == s.mem.proxyMutex
  {
    ReachableInv(s);
    assert PoolOk(s.mem.pools[g], g, s.mem.current == Some(g), s.mem.proxyMutex, Holder(s));
  }

  // ---- switching ----

  /** When `Proxy::use` is about to return, every live `Lockable` is one of the pool now in the proxy. */
  lemma UseLeavesNoOldLockable(s: State, t: Tid, u: Tid, g: nat, i: nat)
    requires Reachable(s) && !s.mem.terminated && t in s.threads && s.threads[t] == UseUnlock
    requires Has(s.threads, u, g, i)
    ensures s.mem.current == Some(g)
  {
    ReachableInv(s);
    assert IsLive(s.mem, g, i, u);
    assert PoolOk(s.mem.pools[g], g, s.mem.current == Some(g), s.mem.proxyMutex, Holder(s));
  }

  /** The pool a thread is being served from, or is using. */
  function Generation(pc: Pc): Option<nat> {
    if pc.Using? then Some(pc.g) else Serving(pc)
  }

  /** The first pool that can be served from now on. */
  function Floor(m: Memory): nat {
    if m.current.Some? then m.current.value else |m.pools|
  }

  ghost predicate NoneOlder(s: State, n: nat) {
    && n <= Floor(s.mem) && n <= |s.mem.pools|
    && forall t <- s.threads :: Generation(s.threads[t]).Some? ==> n <= Generation(s.threads[t]).value
  }

  lemma GenerationTable(m: Memory, pc: Pc)
    ensures Generation(NextPc(m, pc)).Some? ==>
              Generation(NextPc(m, pc)) == Generation(pc) || Generation(NextPc(m, pc)) == m.current
  {
  }

  lemma DoKeepsFloor(m: Memory, t: Tid, op: Op)
    requires CanDo(m, op)
    ensures |m.pools| <= |Do(m, t, op).pools|
    ensures Floor(m) <= |m.pools| ==> Floor(m) <= Floor(Do(m, t, op))
  {
  }

  lemma KeepsNoneOlder(s: State, a: Action, n: nat)
    requires Inv(s) && NoneOlder(s, n) && Enabled(s, a)
    ensures NoneOlder(Apply(s, a), n)
  {
    if a.Inside? {
      GenerationTable(s.mem, s.threads[a.t]);
      DoKeepsFloor(s.mem, a.t, ThreadOp(s.mem, s.threads[a.t]));
    }
  }

  lemma {:induction false} TraceNoneOlder(run: seq<State>, actions: seq<Action>, k: nat, n: nat)
    requires Trace(run, actions) && Inv(run[0]) && NoneOlder(run[0], n) && k <= |actions|
    ensures NoneOlder(run[k], n)
  {
    if k != 0 {
      TraceNoneOlder(run, actions, k - 1, n);
      NotEnded(run, actions, k - 1);
      TraceStepNoneOlder(run, actions, k - 1, n);
    }
  }

  lemma TraceStepNoneOlder(run: seq<State>, actions: seq<Action>, k: nat, n: nat)
    requires Trace(run, actions) && k < |actions| && Inv(run[k]) && NoneOlder(run[k], n)
    ensures NoneOlder(run[k + 1], n)
  {
    assert Enabled(run[k], actions[k]);
    KeepsNoneOlder(run[k], actions[k], n);
  }

  lemma NotEnded(run: seq<State>, actions: seq<Action>, k: nat)
    requires Trace(run, actions) && Inv(run[0]) && k < |actions|
    ensures Inv(run[k])
  {
    assert Enabled(run[k], actions[k]);
    TraceInv(run, actions, k);
  }

  /**
   From the moment `Proxy::use` returns, no thread ever again holds a `Lockable` of a replaced pool or is being
   served from one: only the pool then in the proxy and later ones.
   */
  lemma UseSwitchesForGood(run: seq<State>, actions: seq<Action>, t: Tid, u: Tid)
    requires Trace(run, actions) && Reachable(run[0]) && !run[0].mem.terminated
    requires t in run[0].threads && run[0].threads[t] == UseUnlock
    requires u in run[|actions|].threads && Generation(run[|actions|].threads[u]).Some?
    ensures Generation(run[|actions|].threads[u]).value >= Floor(run[0].mem)
  {
    var s := run[0];
    ReachableInv(s);
    forall v <- s.threads | Generation(s.threads[v]).Some?
      ensures Floor(s.mem) <= Generation(s.threads[v]).value
    {
      if s.threads[v].Using? {
        assert Has(s.threads, v, s.threads[v].g, s.threads[v].i);
        UseLeavesNoOldLockable(s, t, v, s.threads[v].g, s.threads[v].i);
      }
    }
    TraceNoneOlder(run, actions, |actions|, Floor(s.mem));
  }

  // ---- size and peak ----

  /** The threads that hold a `Lockable` of one of these connections. */
  function Owners(conns: seq<Conn>): set<Tid> {
    set i | 0 <= i < |conns| && conns[i].Live? :: conns[i].owner
  }

  lemma {:induction false} OwnersCount(conns: seq<Conn>)
    requires forall i, j :: 0 <= i < j < |conns| && conns[i].Live? && conns[j].Live? ==> conns[i] != conns[j]
    ensures |Owners(conns)| == LiveCount(conns)
  {
    if conns != [] {
      var n := |conns| - 1;
      OwnersCount(conns[..n]);
      OwnersOfLast(conns);
      assert conns[n].Live? ==> conns[n].owner !in Owners(conns[..n]);
    }
  }

  lemma OwnersOfLast(conns: seq<Conn>)
    requires conns != []
    ensures var n := |conns| - 1;
            Owners(conns) == Owners(conns[..n]) + if conns[n].Live? then {conns[n].owner} else {}
  {
  }

  /** `LiveCount` counts the threads that hold a `Lockable` of the pool. */
  lemma LiveCountIsThreads(s: State, g: nat)
    requires Reachable(s) && !s.mem.terminated && g < |s.mem.pools|
    ensures forall t :: t in Owners(s.mem.pools[g].conns) <==> exists i: nat :: Has(s.threads, t, g, i)
    ensures |Owners(s.mem.pools[g].conns)| == LiveCount(s.mem.pools[g].conns)
  {
    ReachableInv(s);
    var conns := s.mem.pools[g].conns;
    forall t: Tid
      ensures t in Owners(conns) <==> exists i: nat :: Has(s.threads, t, g, i)
    {
      if t in Owners(conns) {
        var i: nat :| i < |conns| && conns[i] == Live(t);
        assert IsLive(s.mem, g, i, t);
      }
      if i: nat :| Has(s.threads, t, g, i) {
        assert IsLive(s.mem, g, i, t);
      }
    }
    forall i, j | 0 <= i < j < |conns| && conns[i].Live? && conns[j].Live?
      ensures conns[i] != conns[j]
    {
      assert IsLive(s.mem, g, i, conns[i].owner) && IsLive(s.mem, g, j, conns[j].owner);
    }
    OwnersCount(conns);
  }

  /**
   A pool is never smaller than the most `Lockable`s that were live at once, and is exactly that large, except
   between growing and handing out the new connection, if none was destroyed while the pool's mutex was taken.
   */
  lemma SizeIsPeak(s: State, g: nat)
    requires Reachable(s) && !s.mem.terminated && s.mem.current == Some(g)
    ensures g < |s.mem.pools|
    ensures var p := s.mem.pools[g];
            && LiveCount(p.conns) <= p.peak <= |p.conns|
            && (!p.raced && (forall t <- s.threads :: !GrowsNow(s.threads[t], g)) ==> |p.conns| == p.peak)
  {
    ReachableInv(s);
    assert PoolOk(s.mem.pools[g], g, true, s.mem.proxyMutex, Holder(s));
  }

  lemma {:induction false} LiveCountFull(conns: seq<Conn>)
    ensures LiveCount(conns) == |conns| <==> forall i :: 0 <= i < |conns| ==> conns[i].Live?
  {
    LiveCountBound(conns);
    if conns != [] {
      LiveCountFull(conns[..|conns| - 1]);
      LiveCountBound(conns[..|conns| - 1]);
    }
  }

  // ---- what `peak` records ----

  lemma DoPeak(m: Memory, t: Tid, op: Op, g: nat)
    requires CanDo(m, op) && g < |m.pools| && LiveCount(m.pools[g].conns) <= m.pools[g].peak
    ensures g < |Do(m, t, op).pools|
    ensures Do(m, t, op).pools[g].peak == Max(m.pools[g].peak, LiveCount(Do(m, t, op).pools[g].conns))
  {
    var conns := m.pools[g].conns;
    assert (conns + [Free])[..|conns|] == conns;
  }

  lemma StepPeak(s: State, a: Action, g: nat)
    requires Inv(s) && Enabled(s, a) && g < |s.mem.pools|
    ensures g < |Apply(s, a).mem.pools|
    ensures var p, p' := s.mem.pools[g], Apply(s, a).mem.pools[g]; p'.peak == Max(p.peak, LiveCount(p'.conns))
  {
    assert PoolOk(s.mem.pools[g], g, s.mem.current == Some(g), s.mem.proxyMutex, Holder(s));
    if a.Inside? {
      DoPeak(s.mem, a.t, ThreadOp(s.mem, s.threads[a.t]), g);
    }
  }

  lemma StepNewPool(s: State, a: Action)
    requires Enabled(s, a) && |Apply(s, a).mem.pools| != |s.mem.pools|
    ensures |Apply(s, a).mem.pools| == |s.mem.pools| + 1
    ensures var p := Apply(s, a).mem.pools[|s.mem.pools|]; p.peak == 0 && p.conns == []
  {
  }

  lemma RunPeak(run: seq<State>, actions: seq<Action>, n: nat, g: nat)
    requires Trace(run, actions) && Init(run[0]) && n < |actions| && g < |run[n + 1].mem.pools|
    requires !run[n].mem.terminated
    ensures var p' := run[n + 1].mem.pools[g];
            p'.peak == Max(if g < |run[n].mem.pools| then run[n].mem.pools[g].peak else 0, LiveCount(p'.conns))
  {
    InitInv(run[0]);
    TraceInv(run, actions, n);
    assert Enabled(run[n], actions[n]) && run[n + 1] == Apply(run[n], actions[n]);
    if g < |run[n].mem.pools| {
      StepPeak(run[n], actions[n], g);
    } else {
      StepNewPool(run[n], actions[n]);
    }
  }

  /** In a run from the beginning, `peak` is the largest number of live `Lockable`s that the pool ever had. */
  lemma {:induction false} PeakIsMaximum(run: seq<State>, actions: seq<Action>, n: nat, g: nat)
    requires Trace(run, actions) && Init(run[0]) && n <= |actions| && g < |run[n].mem.pools|
    requires forall k :: 0 <= k <= n ==> !run[k].mem.terminated
    ensures forall k :: 0 <= k <= n && g < |run[k].mem.pools| ==>
              LiveCount(run[k].mem.pools[g].conns) <= run[n].mem.pools[g].peak
    ensures exists k :: 0 <= k <= n && g < |run[k].mem.pools| &&
              LiveCount(run[k].mem.pools[g].conns) == run[n].mem.pools[g].peak
  {
    if n != 0 {
      PoolsGrow(run, actions, n - 1);
      RunPeak(run, actions, n - 1, g);
      if g < |run[n - 1].mem.pools| {
        PeakIsMaximum(run, actions, n - 1, g);
      }
    }
  }

  lemma {:induction false} PoolsGrow(run: seq<State>, actions: seq<Action>, n: nat)
    requires Trace(run, actions) && n <= |actions|
    ensures forall k :: 0 <= k <= n ==> |run[k].mem.pools| <= |run[n].mem.pools|
  {
    if n != 0 {
      PoolsGrow(run, actions, n - 1);
      var s, a := run[n - 1], actions[n - 1];
      assert Enabled(s, a) && run[n] == Apply(s, a);
      if a.Inside? {
        DoKeepsFloor(s.mem, a.t, ThreadOp(s.mem, s.threads[a.t]));
      }
    }
  }
}
