/** A thread that holds the proxy's mutex gives it back within a bounded number of steps of its own. */
module PoolProgress {
  import opened Prelude
  import opened PoolMachine
  import opened PoolInvariants
  import opened PoolTheorems
  import opened PoolCalls

  function Size(m: Memory, g: nat): nat {
    if g < |m.pools| then |m.pools[g].conns| else 0
  }

  function Left(n: nat, i: nat): nat {
    if i < n then n - i else 0
  }

  /** How many steps of its own the holder of the proxy's mutex, who stands at `pc`, makes at most before it lets go. */
  function ToRelease(m: Memory, pc: Pc): nat {
    match pc
    case ArrowTest => if m.current.Some? then Size(m, m.current.value) + 6 else 2
    case PoolLock(g) => Size(m, g) + 5
    case Scan(g, i) => Left(Size(m, g), i) + 4
    case Take(_, _) => 3
    case TakeNew(_, _) => 3
    case PoolUnlock(_, _) => 2
    case ProxyUnlock(_, _) => 1
    case EmptyUnlock => 1
    case UseSwap(_) => if m.current.Some? then 2 * Size(m, m.current.value) + 5 else 2
    case ClearLock(g) => 2 * Size(m, g) + 4
    case ClearInterrupt(g, i) => 2 * Left(Size(m, g), i) + 3
    case ClearTry(g, i) => 2 * Left(Size(m, g), i) + 2
    case ClearDestroy(_) => 2
    case UseUnlock => 1
    case _ => 0
  }

  /** The sizes that a position speaks of are the same after the step. */
  lemma StepKeepsSizes(m: Memory, t: Tid, pc: Pc, g: nat)
    requires CanDo(m, ThreadOp(m, pc)) && g < |m.pools| && !pc.Scan? && !pc.ClearDestroy?
    ensures Size(Do(m, t, ThreadOp(m, pc)), g) == Size(m, g)
  {
  }

  lemma ScanDescends(m: Memory, t: Tid, g: nat, i: nat)
    requires CanDo(m, ThreadOp(m, Scan(g, i))) && g < |m.pools| && i <= |m.pools[g].conns|
    requires NextPc(m, Scan(g, i)) != AlreadyPreLocked
    ensures ToRelease(Do(m, t, ThreadOp(m, Scan(g, i))), NextPc(m, Scan(g, i))) < ToRelease(m, Scan(g, i))
  {
    ScanStep(m, t, g, i);
  }

  predicate PoolAt(m: Memory, pc: Pc) {
    match pc
    case ArrowTest => m.current.Some? ==> m.current.value < |m.pools|
    case UseSwap(_) => m.current.Some? ==> m.current.value < |m.pools|
    case PoolLock(g) => g < |m.pools|
    case ClearLock(g) => g < |m.pools|
    case ClearInterrupt(g, i) => g < |m.pools| && i <= |m.pools[g].conns|
    case ClearTry(g, i) => In(m, g, i)
    case _ => true
  }

  function PoolOf(m: Memory, pc: Pc): nat {
    match pc
    case ArrowTest => if m.current.Some? then m.current.value else 0
    case UseSwap(_) => if m.current.Some? then m.current.value else 0
    case PoolLock(g) => g
    case ClearLock(g) => g
    case ClearInterrupt(g, _) => g
    case ClearTry(g, _) => g
    case _ => 0
  }

  lemma StepKeepsCurrent(m: Memory, t: Tid, pc: Pc)
    requires CanDo(m, ThreadOp(m, pc)) && !pc.UseSwap?
    ensures Do(m, t, ThreadOp(m, pc)).current == m.current
  {
  }

  lemma HolderIsPlaced(s: State, t: Tid)
    requires Inv(s) && s.mem.proxyMutex == Some(t)
    ensures t in s.threads && HoldsProxy(s.threads[t]) && !Failed(s.threads[t]) && PoolAt(s.mem, s.threads[t])
    ensures s.threads[t].Scan? ==>
              s.threads[t].g < |s.mem.pools| && s.threads[t].i <= |s.mem.pools[s.threads[t].g].conns|
  {
  }

  lemma OwnStepDescends(s: State, t: Tid)
    requires Inv(s) && s.mem.proxyMutex == Some(t) && t in s.threads && Enabled(s, Inside(t))
    requires !Failed(NextPc(s.mem, s.threads[t]))
    ensures var s' := Apply(s, Inside(t)); ToRelease(s'.mem, s'.threads[t]) < ToRelease(s.mem, s.threads[t])
  {
    var m, pc := s.mem, s.threads[t];
    HolderIsPlaced(s, t);
    if pc.Scan? {
      ScanDescends(m, t, pc.g, pc.i);
    } else {
      var m' := Do(m, t, ThreadOp(m, pc));
      if !pc.UseSwap? {
        StepKeepsCurrent(m, t, pc);
      }
      if !pc.ClearDestroy? && PoolOf(m, pc) < |m.pools| {
        StepKeepsSizes(m, t, pc, PoolOf(m, pc));
      }
      PlacedDescends(m, m', pc);
    }
  }

  lemma PlacedDescends(m: Memory, m': Memory, pc: Pc)
    requires HoldsProxy(pc) && !Failed(pc) && !pc.Scan? && PoolAt(m, pc) && !Failed(NextPc(m, pc))
    requires !pc.ClearDestroy? ==> Size(m', PoolOf(m, pc)) == Size(m, PoolOf(m, pc)) || PoolOf(m, pc) >= |m.pools|
    requires m'.current == m.current || pc.UseSwap?
    ensures ToRelease(m', NextPc(m, pc)) < ToRelease(m, pc)
  {
  }

  lemma OthersKeepRank(m: Memory, u: Tid, pcu: Pc, pc: Pc)
    requires CanDo(m, ThreadOp(m, pcu)) && !HoldsProxy(pcu)
    ensures ToRelease(Do(m, u, ThreadOp(m, pcu)), pc) == ToRelease(m, pc)
  {
    var m' := Do(m, u, ThreadOp(m, pcu));
    StepKeepsCurrent(m, u, pcu);
    forall g: nat ensures Size(m', g) == Size(m, g) {
      SizeStays(m, u, pcu, g);
    }
  }

  lemma SizeStays(m: Memory, u: Tid, pcu: Pc, g: nat)
    requires CanDo(m, ThreadOp(m, pcu)) && !HoldsProxy(pcu)
    ensures Size(Do(m, u, ThreadOp(m, pcu)), g) == Size(m, g)
  {
    if g < |m.pools| {
      OtherOpKeepsCount(m, u, pcu, g);
    }
  }

  function OwnSteps(actions: seq<Action>, t: Tid): nat {
    if actions == [] then 0
    else OwnSteps(actions[..|actions| - 1], t) + if actions[|actions| - 1] == Inside(t) then 1 else 0
  }

  /** How many own steps the holder `t` has left at most. */
  function Rank(s: State, t: Tid): nat {
    if t in s.threads then ToRelease(s.mem, s.threads[t]) else 0
  }

  lemma StepDescends(s: State, a: Action, t: Tid)
    requires Inv(s) && s.mem.proxyMutex == Some(t) && Enabled(s, a)
    requires a == Inside(t) ==> !Failed(NextPc(s.mem, s.threads[t]))
    ensures Rank(Apply(s, a), t) + (if a == Inside(t) then 1 else 0) <= Rank(s, t)
  {
    HolderIsPlaced(s, t);
    if a == Inside(t) {
      OwnStepDescends(s, t);
    } else if a.Inside? {
      OthersKeepRank(s.mem, a.t, s.threads[a.t], s.threads[t]);
    }
  }

  ghost predicate HoldsUntil(run: seq<State>, n: nat, t: Tid)
    requires n < |run|
  {
    forall k {:trigger run[k]} :: 0 <= k < n ==> run[k].mem.proxyMutex == Some(t)
  }

  lemma NextIsNoFailure(run: seq<State>, actions: seq<Action>, n: nat, t: Tid)
    requires Trace(run, actions) && Inv(run[0]) && n < |actions| && !run[n + 1].mem.terminated
    requires actions[n] == Inside(t) && t in run[n].threads
    ensures !Failed(NextPc(run[n].mem, run[n].threads[t]))
  {
    OwnStep(run, actions, n, t, run[n].threads[t]);
    TraceInv(run, actions, n + 1);
    assert run[n + 1].threads[t] == NextPc(run[n].mem, run[n].threads[t]);
  }

  lemma InvOfRun(run: seq<State>, actions: seq<Action>, n: nat)
    requires Trace(run, actions) && Inv(run[0]) && n < |actions|
    ensures Inv(run[n]) && Enabled(run[n], actions[n])
  {
    TraceInv(run, actions, n);
    assert Enabled(run[n], actions[n]);
  }

  lemma TraceStepDescends(run: seq<State>, actions: seq<Action>, n: nat, t: Tid)
    requires Trace(run, actions) && Inv(run[0]) && n < |actions| && !run[n + 1].mem.terminated
    requires run[n].mem.proxyMutex == Some(t)
    ensures Rank(run[n + 1], t) + (if actions[n] == Inside(t) then 1 else 0) <= Rank(run[n], t)
  {
    InvOfRun(run, actions, n);
    if actions[n] == Inside(t) {
      NextIsNoFailure(run, actions, n, t);
    }
    StepDescends(run[n], actions[n], t);
  }

  lemma {:induction false} TraceDescends(run: seq<State>, actions: seq<Action>, n: nat, t: Tid)
    requires Trace(run, actions) && Inv(run[0]) && n <= |actions| && HoldsUntil(run, n, t) && !run[n].mem.terminated
    ensures Rank(run[n], t) + OwnSteps(actions[..n], t) <= Rank(run[0], t)
  {
    if n != 0 {
      assert Enabled(run[n - 1], actions[n - 1]);
      assert HoldsUntil(run, n - 1, t) && run[n - 1].mem.proxyMutex == Some(t);
      TraceDescends(run, actions, n - 1, t);
      TraceStepDescends(run, actions, n - 1, t);
      assert actions[..n][..n - 1] == actions[..n - 1];
    }
  }

  lemma RankIsPositive(s: State, t: Tid)
    requires Inv(s) && s.mem.proxyMutex == Some(t)
    ensures Rank(s, t) > 0
  {
    HolderIsPlaced(s, t);
  }

  /**
   Whatever the others do, the holder of the proxy's mutex makes fewer steps of its own than this rank gives while it
   holds it: a request for a connection a constant number beyond the size of the pool, a clearing twice that.
   */
  lemma HoldersAreShort(run: seq<State>, actions: seq<Action>, t: Tid)
    requires Trace(run, actions) && Reachable(run[0]) && !run[|actions|].mem.terminated
    requires HoldsUntil(run, |actions|, t) && run[|actions|].mem.proxyMutex == Some(t)
    ensures OwnSteps(actions, t) < Rank(run[0], t)
  {
    NotTerminatedBefore(run, actions, 0, |actions|);
    ReachableInv(run[0]);
    TraceDescends(run, actions, |actions|, t);
    assert actions[..|actions|] == actions;
    TraceInv(run, actions, |actions|);
    RankIsPositive(run[|actions|], t);
  }
}
