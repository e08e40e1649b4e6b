/** Over whole runs: exactly when a request gets the free connection with the lowest index. */
module PoolFirstFit {
  import opened PoolMachine
  import opened PoolInvariants
  import opened PoolTheorems

  /** Thread `t` scans pool `g`, or has added a connection after its scan, and has left connection `j` behind. */
  predicate PastProbe(s: State, t: Tid, g: nat, j: nat) {
    t in s.threads && Searches(s.threads[t]) && s.threads[t].g == g && j < s.threads[t].i
  }

  predicate Searches(pc: Pc) {
    pc.Scan? || pc.TakeNew?
  }

  /** The step destroys the `Lockable` of connection `j` of pool `g`. */
  predicate Releases(s: State, a: Action, g: nat, j: nat) {
    a.Inside? && a.t in s.threads && s.threads[a.t] == Using(g, j)
  }

  predicate StaysPast(run: seq<State>, l: nat, n: nat, t: Tid, g: nat, j: nat)
    requires n < |run|
  {
    forall m :: l <= m <= n ==> PastProbe(run[m], t, g, j)
  }

  /** During the search that `t` is in at `run[n]`, connection `j` was released behind it. */
  ghost predicate ReleasedBehind(run: seq<State>, actions: seq<Action>, n: nat, t: Tid, g: nat, j: nat)
    requires n <= |actions| && |run| == |actions| + 1
  {
    exists l: nat {:trigger actions[l]} :: l < n && StaysPast(run, l, n, t, g, j) && Releases(run[l], actions[l], g, j)
  }

  lemma ReleasedLater(run: seq<State>, actions: seq<Action>, n: nat, t: Tid, g: nat, j: nat)
    requires 0 < n <= |actions| && |run| == |actions| + 1 && PastProbe(run[n], t, g, j)
    ensures ReleasedBehind(run, actions, n, t, g, j) <==>
              PastProbe(run[n - 1], t, g, j) &&
              (ReleasedBehind(run, actions, n - 1, t, g, j) || Releases(run[n - 1], actions[n - 1], g, j))
  {
    if ReleasedBehind(run, actions, n, t, g, j) {
      var l: nat :| l < n && StaysPast(run, l, n, t, g, j) && Releases(run[l], actions[l], g, j);
      assert PastProbe(run[n - 1], t, g, j);
      assert l < n - 1 ==> StaysPast(run, l, n - 1, t, g, j);
    }
    if PastProbe(run[n - 1], t, g, j) {
      assert StaysPast(run, n - 1, n, t, g, j);
      if ReleasedBehind(run, actions, n - 1, t, g, j) {
        var l: nat :|
          l < n - 1 && StaysPast(run, l, n - 1, t, g, j) && Releases(run[l], actions[l], g, j);
        assert StaysPast(run, l, n, t, g, j);
      }
    }
  }

  /** Behind a scanning thread connections are only released. */
  lemma OtherOpOnlyReleases(m: Memory, u: Tid, pc: Pc, g: nat, j: nat)
    requires CanDo(m, ThreadOp(m, pc)) && !HoldsProxy(pc) && In(m, g, j)
    ensures var m' := Do(m, u, ThreadOp(m, pc));
            In(m', g, j) && m'.pools[g].conns[j] == if pc == Using(g, j) then Free else m.pools[g].conns[j]
  {
  }

  lemma ScanOpKeepsConns(m: Memory, t: Tid, pc: Pc, g: nat, j: nat)
    requires CanDo(m, ThreadOp(m, pc)) && pc.Scan? && Searches(NextPc(m, pc)) && In(m, g, j)
    ensures var m' := Do(m, t, ThreadOp(m, pc));
            In(m', g, j) && m'.pools[g].conns[j] == m.pools[g].conns[j]
    ensures NextPc(m, pc) ==
            if In(m, pc.g, pc.i) then Scan(pc.g, pc.i + 1) else TakeNew(pc.g, pc.i)
    ensures In(m, pc.g, pc.i) ==> m.pools[pc.g].conns[pc.i].Live?
  {
  }

  lemma ScanStart(m: Memory, pc: Pc)
    requires Searches(NextPc(m, pc)) && !pc.Scan?
    ensures NextPc(m, pc).i == 0
  {
  }

  lemma StepBehind(s: State, a: Action, t: Tid, g: nat, j: nat)
    requires Inv(s) && Enabled(s, a) && PastProbe(s, t, g, j) && PastProbe(Apply(s, a), t, g, j)
    ensures In(s.mem, g, j) && In(Apply(s, a).mem, g, j)
    ensures Apply(s, a).mem.pools[g].conns[j] == if Releases(s, a, g, j) then Free else s.mem.pools[g].conns[j]
  {
    assert Holder(s) == s.threads[t];
    if a.Inside? {
      if a.t == t {
        ScanOpKeepsConns(s.mem, t, s.threads[t], g, j);
      } else {
        OtherOpOnlyReleases(s.mem, a.t, s.threads[a.t], g, j);
      }
    }
  }

  lemma StepPast(s: State, a: Action, t: Tid, g: nat, j: nat)
    requires Inv(s) && Enabled(s, a) && !PastProbe(s, t, g, j) && PastProbe(Apply(s, a), t, g, j)
    ensures In(Apply(s, a).mem, g, j) && Apply(s, a).mem.pools[g].conns[j].Live?
  {
    if a.Inside? {
      if s.threads[t].Scan? {
        assert Holder(s) == s.threads[t];
        ScanOpKeepsConns(s.mem, t, s.threads[t], g, j);
      } else {
        ScanStart(s.mem, s.threads[t]);
      }
    }
  }

  predicate FreeOrLive(s: State, g: nat, j: nat, free: bool) {
    In(s.mem, g, j) && if free then s.mem.pools[g].conns[j] == Free else s.mem.pools[g].conns[j].Live?
  }

  lemma StepFrees(s: State, a: Action, t: Tid, g: nat, j: nat, free: bool)
    requires Inv(s) && Enabled(s, a) && PastProbe(Apply(s, a), t, g, j)
    requires PastProbe(s, t, g, j) ==> FreeOrLive(s, g, j, free)
    ensures FreeOrLive(Apply(s, a), g, j, PastProbe(s, t, g, j) && (free || Releases(s, a, g, j)))
  {
    if PastProbe(s, t, g, j) {
      StepBehind(s, a, t, g, j);
    } else {
      StepPast(s, a, t, g, j);
    }
  }

  lemma StepOfRunFrees(run: seq<State>, actions: seq<Action>, n: nat, t: Tid, g: nat, j: nat, free: bool)
    requires Trace(run, actions) && Init(run[0]) && n < |actions| && PastProbe(run[n + 1], t, g, j)
    requires PastProbe(run[n], t, g, j) ==> FreeOrLive(run[n], g, j, free)
    ensures FreeOrLive(run[n + 1], g, j, PastProbe(run[n], t, g, j) && (free || Releases(run[n], actions[n], g, j)))
  {
    assert Enabled(run[n], actions[n]);
    InvAt(run, actions, n);
    StepFrees(run[n], actions[n], t, g, j, free);
  }

  lemma TraceStepFrees(run: seq<State>, actions: seq<Action>, n: nat, t: Tid, g: nat, j: nat)
    requires Trace(run, actions) && Init(run[0]) && n < |actions| && PastProbe(run[n + 1], t, g, j)
    requires PastProbe(run[n], t, g, j) ==> FreeOrLive(run[n], g, j, ReleasedBehind(run, actions, n, t, g, j))
    ensures FreeOrLive(run[n + 1], g, j, ReleasedBehind(run, actions, n + 1, t, g, j))
  {
    ReleasedLater(run, actions, n + 1, t, g, j);
    StepOfRunFrees(run, actions, n, t, g, j, ReleasedBehind(run, actions, n, t, g, j));
  }

  /** Every connection that a search has left behind is free if it was released behind it, and in use otherwise. */
  lemma {:induction false} FreeIffReleasedBehind(run: seq<State>, actions: seq<Action>, n: nat, t: Tid, g: nat, j: nat)
    requires Trace(run, actions) && Init(run[0]) && n <= |actions| && PastProbe(run[n], t, g, j)
    ensures FreeOrLive(run[n], g, j, ReleasedBehind(run, actions, n, t, g, j))
  {
    if n != 0 {
      if PastProbe(run[n - 1], t, g, j) {
        FreeIffReleasedBehind(run, actions, n - 1, t, g, j);
      }
      TraceStepFrees(run, actions, n - 1, t, g, j);
    }
  }

  /**
   First fit: `operator->` hands out a free connection, and it is the free one with the lowest index if and only
   if no connection before it was released while the scan was under way.
   */
  lemma FirstFit(run: seq<State>, actions: seq<Action>, n: nat, t: Tid, g: nat, i: nat)
    requires Trace(run, actions) && Init(run[0]) && n <= |actions| && !run[n].mem.terminated
    requires t in run[n].threads && run[n].threads[t] == Scan(g, i)
    requires NextPc(run[n].mem, Scan(g, i)) == Take(g, i)
    ensures In(run[n].mem, g, i) && run[n].mem.pools[g].conns[i] == Free
    ensures (forall j :: 0 <= j < i ==> run[n].mem.pools[g].conns[j] != Free) <==>
            (forall j: nat :: j < i ==> !ReleasedBehind(run, actions, n, t, g, j))
  {
    forall j: nat | j < i
      ensures run[n].mem.pools[g].conns[j] == Free <==> ReleasedBehind(run, actions, n, t, g, j)
    {
      FreeIffReleasedBehind(run, actions, n, t, g, j);
    }
  }

  /** Likewise a pool grows although it has a free connection exactly where one was released behind the scan. */
  lemma GrowthIsNeeded(run: seq<State>, actions: seq<Action>, n: nat, t: Tid, g: nat, i: nat)
    requires Trace(run, actions) && Init(run[0]) && n <= |actions| && !run[n].mem.terminated
    requires t in run[n].threads && run[n].threads[t] == Scan(g, i)
    requires g < |run[n].mem.pools| && NextPc(run[n].mem, Scan(g, i)) == TakeNew(g, i)
    ensures |run[n].mem.pools[g].conns| == i
    ensures (forall j :: 0 <= j < i ==> run[n].mem.pools[g].conns[j].Live?) <==>
            (forall j: nat :: j < i ==> !ReleasedBehind(run, actions, n, t, g, j))
  {
    InitInv(run[0]);
    TraceInv(run, actions, n);
    assert Holder(run[n]) == Scan(g, i);
    forall j: nat | j < i
      ensures !run[n].mem.pools[g].conns[j].Live? <==> ReleasedBehind(run, actions, n, t, g, j)
    {
      FreeIffReleasedBehind(run, actions, n, t, g, j);
    }
  }
}
