/** Over whole runs: exactly when a pool is as large as the most connections it ever had in use at once. */
module PoolGrowth {
  import opened Prelude
  import opened PoolMachine
  import opened PoolInvariants
  import opened PoolTheorems
  import opened PoolFirstFit

  function Growing(h: Pc, g: nat): nat {
    if GrowsNow(h, g) then 1 else 0
  }

  /** A pool is as large as its peak, apart from the connection that is just being added. */
  predicate TightPool(p: Pool, g: nat, h: Pc) {
    p.alive ==> |p.conns| == p.peak + Growing(h, g)
  }

  predicate Tight(s: State, g: nat) {
    g < |s.mem.pools| ==> TightPool(s.mem.pools[g], g, Holder(s))
  }

  /** The step hands out a new connection of pool `g`. */
  predicate HandsOver(s: State, a: Action, g: nat) {
    a.Inside? && a.t in s.threads && s.threads[a.t].TakeNew? && s.threads[a.t].g == g
  }

  /** If the step hands out a new connection of pool `g`, all the others are in use. */
  predicate Justified(s: State, a: Action, g: nat)
    requires Enabled(s, a)
  {
    HandsOver(s, a, g) ==> forall j :: 0 <= j < s.threads[a.t].i ==> s.mem.pools[g].conns[j].Live?
  }

  lemma OpSizes(m: Memory, t: Tid, op: Op, g: nat)
    requires CanDo(m, op) && g < |m.pools|
    ensures g < |Do(m, t, op).pools|
    ensures var p, p' := m.pools[g], Do(m, t, op).pools[g];
            p'.alive ==> p.alive && |p'.conns| == |p.conns| + if op == Grow(g) then 1 else 0
  {
    match op
    case Grow(_) =>
    case Swap(_) =>
    case Destroy(_) =>
    case _ =>
  }

  lemma GrowTable(m: Memory, pc: Pc, g: nat)
    ensures ThreadOp(m, pc) == Grow(g) <==> GrowsNow(NextPc(m, pc), g)
  {
  }

  /** Only the hand-over of a new connection changes how far the pool is ahead of the growth it is in. */
  lemma OpKeepsSize(m: Memory, t: Tid, pc: Pc, g: nat)
    requires CanDo(m, ThreadOp(m, pc)) && g < |m.pools|
    ensures g < |Do(m, t, ThreadOp(m, pc)).pools|
    ensures var p, p' := m.pools[g], Do(m, t, ThreadOp(m, pc)).pools[g];
            p'.alive ==>
              && p.alive
              && |p'.conns| + Growing(pc, g) ==
                 |p.conns| + Growing(NextPc(m, pc), g) + if pc.TakeNew? && pc.g == g then 1 else 0
  {
    OpSizes(m, t, ThreadOp(m, pc), g);
    GrowTable(m, pc, g);
  }

  lemma HolderMoves(s: State, t: Tid, g: nat)
    requires Inv(s) && Enabled(s, Inside(t))
    ensures Growing(Holder(Apply(s, Inside(t))), g) - Growing(Holder(s), g)
         == Growing(NextPc(s.mem, s.threads[t]), g) - Growing(s.threads[t], g)
  {
    var pc, s' := s.threads[t], Apply(s, Inside(t));
    if HoldsProxy(pc) {
      HolderProxy(s.mem, t, pc);
    } else {
      assert s.mem.proxyMutex != Some(t);
    }
  }

  lemma StepKeepsSize(s: State, t: Tid, g: nat)
    requires Inv(s) && Enabled(s, Inside(t)) && g < |s.mem.pools|
    ensures g < |Apply(s, Inside(t)).mem.pools|
    ensures var s' := Apply(s, Inside(t));
            var p, p', pc := s.mem.pools[g], s'.mem.pools[g], s.threads[t];
            p'.alive ==>
              && p.alive
              && |p'.conns| + Growing(Holder(s), g) ==
                 |p.conns| + Growing(Holder(s'), g) + if pc.TakeNew? && pc.g == g then 1 else 0
  {
    OpKeepsSize(s.mem, t, s.threads[t], g);
    HolderMoves(s, t, g);
  }

  /** The connection that is being added is not in use. */
  lemma RoomWhileGrowing(p: Pool, g: nat, current: bool, holder: Option<Tid>, h: Pc)
    requires PoolOk(p, g, current, holder, h)
    ensures LiveCount(p.conns) + Growing(h, g) <= |p.conns|
  {
    LiveCountBound(p.conns);
    LiveCountFull(p.conns);
  }

  lemma OtherStepKeepsTight(s: State, t: Tid, g: nat)
    requires Inv(s) && Tight(s, g) && Enabled(s, Inside(t)) && Inv(Apply(s, Inside(t))) && g < |s.mem.pools|
    requires !HandsOver(s, Inside(t), g)
    ensures g < |Apply(s, Inside(t)).mem.pools|
    ensures TightPool(Apply(s, Inside(t)).mem.pools[g], g, Holder(Apply(s, Inside(t))))
  {
    var s' := Apply(s, Inside(t));
    StepKeepsSize(s, t, g);
    StepPeak(s, Inside(t), g);
    assert TightPool(s.mem.pools[g], g, Holder(s));
    assert PoolOk(s'.mem.pools[g], g, s'.mem.current == Some(g), s'.mem.proxyMutex, Holder(s'));
    RoomWhileGrowing(s'.mem.pools[g], g, s'.mem.current == Some(g), s'.mem.proxyMutex, Holder(s'));
  }

  lemma HandOverTight(s: State, t: Tid, g: nat, i: nat)
    requires Inv(s) && Tight(s, g) && Enabled(s, Inside(t)) && s.threads[t] == TakeNew(g, i)
    ensures Tight(Apply(s, Inside(t)), g) <==> Justified(s, Inside(t), g)
  {
    var s' := Apply(s, Inside(t));
    var conns, conns' := s.mem.pools[g].conns, s'.mem.pools[g].conns;
    assert Holder(s) == TakeNew(g, i) && Holder(s') == PoolUnlock(g, i);
    assert TightPool(s.mem.pools[g], g, Holder(s));
    assert PoolOk(s.mem.pools[g], g, s.mem.current == Some(g), s.mem.proxyMutex, Holder(s));
    assert conns' == conns[i := Live(t)];
    StepPeak(s, Inside(t), g);
    LiveCountFull(conns');
    LiveCountBound(conns');
    assert forall j :: 0 <= j < i ==> conns'[j] == conns[j];
  }

  lemma NewPoolIsTight(s: State, t: Tid, g: nat)
    requires Inv(s) && Enabled(s, Inside(t)) && |s.mem.pools| <= g < |Apply(s, Inside(t)).mem.pools|
    ensures TightPool(Apply(s, Inside(t)).mem.pools[g], g, Holder(Apply(s, Inside(t))))
  {
    StepNewPool(s, Inside(t));
    HolderMoves(s, t, g);
  }

  lemma StepTight(s: State, a: Action, g: nat)
    requires Inv(s) && Tight(s, g) && Enabled(s, a) && Inv(Apply(s, a))
    ensures Tight(Apply(s, a), g) <==> Justified(s, a, g)
  {
    if HandsOver(s, a, g) {
      HandOverTight(s, a.t, g, s.threads[a.t].i);
    } else if !a.Inside? {
      assert Holder(Apply(s, a)) == Holder(s);
    } else if g < |s.mem.pools| {
      OtherStepKeepsTight(s, a.t, g);
    } else if g < |Apply(s, a).mem.pools| {
      NewPoolIsTight(s, a.t, g);
    }
  }

  ghost predicate AlwaysTight(run: seq<State>, n: nat, g: nat)
    requires n < |run|
  {
    forall k :: 0 <= k <= n ==> Tight(run[k], g)
  }

  /** If the step hands out a new connection of pool `g`, no other one was released behind the search for it. */
  ghost predicate Unreleased(run: seq<State>, actions: seq<Action>, n: nat, g: nat)
    requires Trace(run, actions) && n < |actions|
  {
    HandsOver(run[n], actions[n], g) ==>
      var t := actions[n].t;
      forall j: nat :: j < run[n].threads[t].i ==> !ReleasedBehind(run, actions, n, t, g, j)
  }

  /** The others are in use at the hand-over exactly if none was released since the search looked at it. */
  lemma JustifiedIffUnreleased(run: seq<State>, actions: seq<Action>, n: nat, g: nat)
    requires Trace(run, actions) && Init(run[0]) && n < |actions|
    ensures Enabled(run[n], actions[n])
    ensures Justified(run[n], actions[n], g) <==> Unreleased(run, actions, n, g)
  {
    var s, a := run[n], actions[n];
    assert Enabled(s, a);
    if HandsOver(s, a, g) {
      forall j: nat | j < s.threads[a.t].i
        ensures In(s.mem, g, j)
        ensures s.mem.pools[g].conns[j].Live? <==> !ReleasedBehind(run, actions, n, a.t, g, j)
      {
        FreeIffReleasedBehind(run, actions, n, a.t, g, j);
      }
    }
  }

  ghost predicate NeverReleasedBehind(run: seq<State>, actions: seq<Action>, n: nat, g: nat)
    requires Trace(run, actions) && n <= |actions|
  {
    forall k :: 0 <= k < n ==> Unreleased(run, actions, k, g)
  }

  lemma TraceStepTight(run: seq<State>, actions: seq<Action>, n: nat, g: nat)
    requires Trace(run, actions) && Init(run[0]) && n < |actions| && !run[n + 1].mem.terminated && Tight(run[n], g)
    ensures Tight(run[n + 1], g) <==> Unreleased(run, actions, n, g)
  {
    assert Enabled(run[n], actions[n]);
    JustifiedIffUnreleased(run, actions, n, g);
    StepTight(run[n], actions[n], g) by {
      InvAt(run, actions, n);
      InvAt(run, actions, n + 1);
    }
  }

  /**
   In a run from the beginning a pool always has exactly its peak of connections if and only if, whenever it hands out
   a new connection, no other one of its was released after the search had looked at it.
   */
  lemma {:induction false} AlwaysTightIff(run: seq<State>, actions: seq<Action>, n: nat, g: nat)
    requires Trace(run, actions) && Init(run[0]) && n <= |actions| && !run[n].mem.terminated
    ensures AlwaysTight(run, n, g) <==> NeverReleasedBehind(run, actions, n, g)
  {
    if n != 0 {
      assert Enabled(run[n - 1], actions[n - 1]);
      AlwaysTightIff(run, actions, n - 1, g);
      if AlwaysTight(run, n - 1, g) {
        TraceStepTight(run, actions, n - 1, g);
      }
    }
  }
}
