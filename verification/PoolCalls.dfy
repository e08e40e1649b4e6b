/** What a request for a connection, its return, and a call of `use` do to the proxy and its pools, in every run. */
module PoolCalls {
  import opened Prelude
  import opened PoolMachine
  import opened PoolInvariants
  import opened PoolTheorems

  // ---- the steps of one thread ----

  predicate Own(actions: seq<Action>, k: nat, t: Tid) {
    k < |actions| && actions[k] == Inside(t)
  }

  predicate At(s: State, t: Tid, pc: Pc) {
    t in s.threads && s.threads[t] == pc
  }

  /** The thread has returned from a call, with a connection or without. */
  predicate Returned(s: State, t: Tid) {
    t in s.threads && (s.threads[t] == Idle || s.threads[t].Using?)
  }

  /** Thread `t` is inside a call from state `lo` on, and has returned in state `hi`. */
  ghost predicate BusyUntil(run: seq<State>, lo: nat, hi: nat, t: Tid)
    requires lo <= hi < |run|
  {
    && (forall k {:trigger run[k]} :: lo <= k < hi ==> t in run[k].threads && !Returned(run[k], t))
    && Returned(run[hi], t)
  }

  /** From state `k` to state `j` the thread stays where it is, and then makes a step. */
  ghost predicate StaysUntil(run: seq<State>, actions: seq<Action>, k: nat, j: nat, t: Tid)
    requires |run| == |actions| + 1 && k <= j < |actions|
  {
    && Own(actions, j, t) && t in run[k].threads && At(run[j], t, run[k].threads[t])
    && (forall x: nat {:trigger Own(actions, x, t)} :: k <= x < j ==> !Own(actions, x, t))
  }

  /** Mutexes and histories apart, nothing changes. */
  predicate SamePools(m: Memory, m': Memory) {
    && m'.current == m.current && |m'.pools| == |m.pools|
    && forall g :: 0 <= g < |m.pools| ==> SamePool(m.pools[g], m'.pools[g])
  }

  predicate SamePool(p: Pool, p': Pool) {
    p'.conns == p.conns && p'.alive == p.alive && p'.interrupted == p.interrupted
  }

  /** Pool `g` gets these connections, and nothing else changes. */
  predicate ConnsBecome(m: Memory, m': Memory, g: nat, conns: seq<Conn>) {
    && m'.current == m.current && |m'.pools| == |m.pools| && g < |m.pools|
    && m'.pools[g].conns == conns && m'.pools[g].alive == m.pools[g].alive
    && m'.pools[g].interrupted == m.pools[g].interrupted
    && forall h :: 0 <= h < |m.pools| && h != g ==> SamePool(m.pools[h], m'.pools[h])
  }

  /** No step of `t` between `lo` and `hi` but those in `but` changes a pool or the proxy. */
  ghost predicate ChangesOnly(run: seq<State>, actions: seq<Action>, lo: nat, hi: nat, t: Tid, but: set<nat>)
    requires |run| == |actions| + 1 && hi <= |actions|
  {
    forall k: nat {:trigger Own(actions, k, t)} :: lo <= k < hi && Own(actions, k, t) && k !in but ==>
      SamePools(run[k].mem, run[k + 1].mem)
  }

  lemma OthersLeave(s: State, a: Action, t: Tid)
    requires Enabled(s, a) && t in s.threads && s.threads[t] != Idle && a != Inside(t)
    ensures At(Apply(s, a), t, s.threads[t])
  {
  }

  lemma {:induction false} NextOwn(run: seq<State>, actions: seq<Action>, k: nat, hi: nat, t: Tid) returns (j: nat)
    requires Trace(run, actions) && k < hi <= |actions| && BusyUntil(run, k, hi, t)
    ensures k <= j < hi && StaysUntil(run, actions, k, j, t)
    ensures BusyUntil(run, j + 1, hi, t)
    decreases hi - k
  {
    if Own(actions, k, t) {
      j := k;
    } else {
      assert Enabled(run[k], actions[k]);
      OthersLeave(run[k], actions[k], t);
      assert k + 1 < hi;
      j := NextOwn(run, actions, k + 1, hi, t);
    }
  }

  /** What an own step does, by where the thread stands. */
  lemma OwnStep(run: seq<State>, actions: seq<Action>, j: nat, t: Tid, pc: Pc)
    requires Trace(run, actions) && Own(actions, j, t) && At(run[j], t, pc)
    ensures CanDo(run[j].mem, ThreadOp(run[j].mem, pc)) && !run[j].mem.terminated
    ensures run[j + 1].mem == Do(run[j].mem, t, ThreadOp(run[j].mem, pc))
    ensures At(run[j + 1], t, NextPc(run[j].mem, pc))
  {
    assert Enabled(run[j], actions[j]);
  }

  /** The first own step leads from one position to the next and changes nothing. */
  lemma QuietStep(run: seq<State>, actions: seq<Action>, k: nat, hi: nat, t: Tid, pc: Pc, but: set<nat>)
    returns (j: nat)
    requires Trace(run, actions) && k < hi <= |actions| && BusyUntil(run, k, hi, t) && At(run[k], t, pc) && Quiet(pc)
    ensures k <= j < hi && StaysUntil(run, actions, k, j, t) && BusyUntil(run, j + 1, hi, t)
    ensures At(run[j], t, pc) && At(run[j + 1], t, NextPc(run[j].mem, pc)) && SamePools(run[j].mem, run[j + 1].mem)
    ensures ChangesOnly(run, actions, j + 1, hi, t, but) ==> ChangesOnly(run, actions, k, hi, t, but)
  {
    j := NextOwn(run, actions, k, hi, t);
    OwnStep(run, actions, j, t, pc);
    QuietOps(run[j].mem, t, pc);
  }

  lemma QuietSegment(run: seq<State>, actions: seq<Action>, k: nat, j: nat, t: Tid)
    requires |run| == |actions| + 1 && k <= j < |actions| && StaysUntil(run, actions, k, j, t)
    requires SamePools(run[j].mem, run[j + 1].mem)
    ensures ChangesOnly(run, actions, k, j + 1, t, {})
  {
  }

  lemma JoinSegments(run: seq<State>, actions: seq<Action>, lo: nat, mid: nat, hi: nat, t: Tid)
    requires |run| == |actions| + 1 && lo <= mid <= hi <= |actions|
    requires ChangesOnly(run, actions, lo, mid, t, {}) && ChangesOnly(run, actions, mid, hi, t, {})
    ensures ChangesOnly(run, actions, lo, hi, t, {})
  {
  }

  /** Positions whose step only locks, unlocks or looks. */
  predicate Quiet(pc: Pc) {
    match pc
    case ArrowLock => true
    case ArrowTest => true
    case PoolLock(_) => true
    case PoolUnlock(_, _) => true
    case ProxyUnlock(_, _) => true
    case EmptyUnlock => true
    case UseLock(_) => true
    case ClearLock(_) => true
    case UseUnlock => true
    case _ => false
  }

  lemma QuietOps(m: Memory, t: Tid, pc: Pc)
    requires Quiet(pc) && CanDo(m, ThreadOp(m, pc))
    ensures SamePools(m, Do(m, t, ThreadOp(m, pc)))
  {
  }

  // ---- the end of a request ----

  /** Step `take` gives connection `i` of pool `g` to `t`. */
  predicate Takes(run: seq<State>, actions: seq<Action>, take: nat, t: Tid, g: nat, i: nat)
    requires |run| == |actions| + 1
  {
    && Own(actions, take, t) && In(run[take].mem, g, i) && !run[take].mem.pools[g].conns[i].Live?
    && ConnsBecome(run[take].mem, run[take + 1].mem, g, run[take].mem.pools[g].conns[i := Live(t)])
  }

  /** Step `lock` finds connection `i` free and pre-locks it. */
  predicate Locks(run: seq<State>, actions: seq<Action>, lock: nat, t: Tid, g: nat, i: nat)
    requires |run| == |actions| + 1
  {
    && Own(actions, lock, t) && In(run[lock].mem, g, i) && run[lock].mem.pools[g].conns[i] == Free
    && ConnsBecome(run[lock].mem, run[lock + 1].mem, g, run[lock].mem.pools[g].conns[i := PreLocked(t)])
  }

  /** Step `grow` adds connection `i`. */
  predicate Grows(run: seq<State>, actions: seq<Action>, grow: nat, t: Tid, g: nat, i: nat)
    requires |run| == |actions| + 1
  {
    && Own(actions, grow, t) && g < |run[grow].mem.pools| && i == |run[grow].mem.pools[g].conns|
    && ConnsBecome(run[grow].mem, run[grow + 1].mem, g, run[grow].mem.pools[g].conns + [Free])
  }

  /** After the hand-over the two mutexes are released. */
  lemma Unlocks(run: seq<State>, actions: seq<Action>, k: nat, hi: nat, t: Tid, g: nat, i: nat)
    requires Trace(run, actions) && k < hi <= |actions| && BusyUntil(run, k, hi, t)
    requires At(run[k], t, PoolUnlock(g, i))
    ensures ChangesOnly(run, actions, k, hi, t, {}) && At(run[hi], t, Using(g, i))
  {
    var j := QuietStep(run, actions, k, hi, t, PoolUnlock(g, i), {});
    var l := QuietStep(run, actions, j + 1, hi, t, ProxyUnlock(g, i), {});
    assert l + 1 == hi;
  }

  predicate ToTake(pc: Pc, g: nat, i: nat) {
    pc == Take(g, i) || pc == TakeNew(g, i)
  }

  lemma TakeStep(m: Memory, t: Tid, pc: Pc, g: nat, i: nat)
    requires ToTake(pc, g, i) && CanDo(m, ThreadOp(m, pc)) && NextPc(m, pc) != SimultaneousAccess
    ensures In(m, g, i) && !m.pools[g].conns[i].Live? && NextPc(m, pc) == PoolUnlock(g, i)
    ensures ConnsBecome(m, Do(m, t, ThreadOp(m, pc)), g, m.pools[g].conns[i := Live(t)])
  {
  }

  lemma NeverFails(run: seq<State>, actions: seq<Action>, n: nat, t: Tid)
    requires Trace(run, actions) && Init(run[0]) && n <= |actions| && !run[n].mem.terminated && t in run[n].threads
    ensures !Failed(run[n].threads[t])
  {
    InvAt(run, actions, n);
  }

  lemma TakeAt(run: seq<State>, actions: seq<Action>, take: nat, hi: nat, t: Tid, pc: Pc, g: nat, i: nat)
    requires Trace(run, actions) && Init(run[0]) && take < hi <= |actions| && !run[hi].mem.terminated
    requires Own(actions, take, t) && At(run[take], t, pc) && ToTake(pc, g, i)
    ensures Takes(run, actions, take, t, g, i) && At(run[take + 1], t, PoolUnlock(g, i))
  {
    OwnStep(run, actions, take, t, pc);
    NotTerminatedBefore(run, actions, take + 1, hi);
    NeverFails(run, actions, take + 1, t);
    TakeStep(run[take].mem, t, pc, g, i);
  }

  lemma ChangesOnlyThis(run: seq<State>, actions: seq<Action>, k: nat, j: nat, hi: nat, t: Tid)
    requires |run| == |actions| + 1 && k <= j < hi <= |actions| && StaysUntil(run, actions, k, j, t)
    requires ChangesOnly(run, actions, j + 1, hi, t, {})
    ensures ChangesOnly(run, actions, k, hi, t, {j})
  {
  }

  lemma HandsOver(run: seq<State>, actions: seq<Action>, k: nat, hi: nat, t: Tid, pc: Pc, g: nat, i: nat)
    returns (take: nat)
    requires Trace(run, actions) && Init(run[0]) && k < hi <= |actions| && !run[hi].mem.terminated
    requires BusyUntil(run, k, hi, t) && At(run[k], t, pc) && ToTake(pc, g, i)
    ensures k <= take < hi && Takes(run, actions, take, t, g, i) && At(run[hi], t, Using(g, i))
    ensures ChangesOnly(run, actions, k, hi, t, {take})
  {
    take := NextOwn(run, actions, k, hi, t);
    TakeAt(run, actions, take, hi, t, pc, g, i);
    Unlocks(run, actions, take + 1, hi, t, g, i);
    ChangesOnlyThis(run, actions, k, take, hi, t);
  }

  lemma {:induction false} NotTerminatedBefore(run: seq<State>, actions: seq<Action>, k: nat, n: nat)
    requires Trace(run, actions) && k <= n <= |actions| && !run[n].mem.terminated
    ensures !run[k].mem.terminated
  {
    if k < n {
      assert Enabled(run[n - 1], actions[n - 1]);
      NotTerminatedBefore(run, actions, k, n - 1);
    }
  }

  // ---- the scan ----

  lemma ScanStep(m: Memory, t: Tid, g: nat, i: nat)
    requires CanDo(m, ThreadOp(m, Scan(g, i))) && NextPc(m, Scan(g, i)) != AlreadyPreLocked
    requires g < |m.pools| && i <= |m.pools[g].conns|
    ensures var m', pc' := Do(m, t, ThreadOp(m, Scan(g, i))), NextPc(m, Scan(g, i));
            if i == |m.pools[g].conns| then pc' == TakeNew(g, i) && ConnsBecome(m, m', g, m.pools[g].conns + [Free])
            else if m.pools[g].conns[i] == Free
            then pc' == Take(g, i) && ConnsBecome(m, m', g, m.pools[g].conns[i := PreLocked(t)])
            else pc' == Scan(g, i + 1) && m' == m && m.pools[g].conns[i].Live?
  {
  }

  lemma ScanWithin(run: seq<State>, actions: seq<Action>, n: nat, t: Tid, g: nat, i: nat)
    requires Trace(run, actions) && Init(run[0]) && n <= |actions| && !run[n].mem.terminated
    requires At(run[n], t, Scan(g, i))
    ensures g < |run[n].mem.pools| && i <= |run[n].mem.pools[g].conns|
  {
    InvAt(run, actions, n);
    assert Holder(run[n]) == Scan(g, i);
  }

  /** The request gets connection `i`: one that it found free in step `first`, or that it added there. */
  ghost predicate Gets(
    run: seq<State>, actions: seq<Action>, k: nat, hi: nat, t: Tid, g: nat, i: nat, first: nat, take: nat)
    requires |run| == |actions| + 1 && hi <= |actions|
  {
    && k <= first < take < hi && (Locks(run, actions, first, t, g, i) || Grows(run, actions, first, t, g, i))
    && Takes(run, actions, take, t, g, i) && ChangesOnly(run, actions, k, hi, t, {first, take})
    && At(run[hi], t, Using(g, i))
  }

  lemma StepOfScan(run: seq<State>, actions: seq<Action>, j: nat, t: Tid, g: nat, i: nat)
    requires Trace(run, actions) && Init(run[0]) && Own(actions, j, t) && At(run[j], t, Scan(g, i))
    requires !run[j + 1].mem.terminated
    ensures || (At(run[j + 1], t, Take(g, i)) && Locks(run, actions, j, t, g, i))
            || (At(run[j + 1], t, TakeNew(g, i)) && Grows(run, actions, j, t, g, i))
            || (At(run[j + 1], t, Scan(g, i + 1)) && run[j + 1].mem == run[j].mem && In(run[j].mem, g, i)
                && run[j].mem.pools[g].conns[i].Live?)
  {
    OwnStep(run, actions, j, t, Scan(g, i));
    NeverFails(run, actions, j + 1, t);
    ScanWithin(run, actions, j, t, g, i);
    ScanStep(run[j].mem, t, g, i);
  }

  lemma GetsEarlier(
    run: seq<State>, actions: seq<Action>, k: nat, j: nat, hi: nat, t: Tid, g: nat, i: nat, first: nat, take: nat)
    requires |run| == |actions| + 1 && k <= j < hi <= |actions| && StaysUntil(run, actions, k, j, t)
    requires Gets(run, actions, j + 1, hi, t, g, i, first, take) && run[j + 1].mem == run[j].mem
    ensures Gets(run, actions, k, hi, t, g, i, first, take)
  {
  }

  lemma GetsNow(run: seq<State>, actions: seq<Action>, k: nat, j: nat, hi: nat, t: Tid, g: nat, i: nat, take: nat)
    requires |run| == |actions| + 1 && k <= j < hi <= |actions| && StaysUntil(run, actions, k, j, t)
    requires Locks(run, actions, j, t, g, i) || Grows(run, actions, j, t, g, i)
    requires j < take < hi && Takes(run, actions, take, t, g, i) && ChangesOnly(run, actions, j + 1, hi, t, {take})
    requires At(run[hi], t, Using(g, i))
    ensures Gets(run, actions, k, hi, t, g, i, j, take)
  {
  }

  lemma {:induction false} ScansOn(run: seq<State>, actions: seq<Action>, k: nat, hi: nat, t: Tid, g: nat, i: nat)
    returns (got: nat, first: nat, take: nat)
    requires Trace(run, actions) && Init(run[0]) && k < hi <= |actions| && !run[hi].mem.terminated
    requires BusyUntil(run, k, hi, t) && At(run[k], t, Scan(g, i))
    ensures Gets(run, actions, k, hi, t, g, got, first, take)
    decreases hi - k
  {
    var j := NextOwn(run, actions, k, hi, t);
    NotTerminatedBefore(run, actions, j + 1, hi);
    StepOfScan(run, actions, j, t, g, i);
    if At(run[j + 1], t, Scan(g, i + 1)) {
      got, first, take := ScansOn(run, actions, j + 1, hi, t, g, i + 1);
      GetsEarlier(run, actions, k, j, hi, t, g, got, first, take);
    } else {
      got, first := i, j;
      take := HandsOver(run, actions, j + 1, hi, t, run[j + 1].threads[t], g, i);
      GetsNow(run, actions, k, j, hi, t, g, i, take);
    }
  }

  // ---- a request ----

  /** Thread `t` calls `operator->` in step `lo`, and has a connection, or the exception, in state `hi`. */
  ghost predicate IsRequest(run: seq<State>, actions: seq<Action>, lo: nat, hi: nat, t: Tid)
    requires |run| == |actions| + 1
  {
    lo < hi <= |actions| && actions[lo] == InvokeArrow(t) && BusyUntil(run, lo + 1, hi, t)
  }

  lemma MutexOfHolder(run: seq<State>, actions: seq<Action>, n: nat, t: Tid)
    requires Trace(run, actions) && Init(run[0]) && n <= |actions| && !run[n].mem.terminated && t in run[n].threads
    ensures run[n].mem.proxyMutex == Some(t) <==> HoldsProxy(run[n].threads[t])
  {
    InvAt(run, actions, n);
  }

  /** Two quiet steps in a row. */
  lemma LocksAndLooks(run: seq<State>, actions: seq<Action>, k: nat, hi: nat, t: Tid) returns (look: nat)
    requires Trace(run, actions) && k < hi <= |actions| && BusyUntil(run, k, hi, t) && At(run[k], t, ArrowLock)
    ensures k < look < hi && Own(actions, look, t) && At(run[look], t, ArrowTest)
    ensures At(run[look + 1], t, NextPc(run[look].mem, ArrowTest))
    ensures BusyUntil(run, look + 1, hi, t) && ChangesOnly(run, actions, k, look + 1, t, {})
  {
    var lock := QuietStep(run, actions, k, hi, t, ArrowLock, {});
    QuietSegment(run, actions, k, lock, t);
    look := QuietStep(run, actions, lock + 1, hi, t, ArrowTest, {});
    QuietSegment(run, actions, lock + 1, look, t);
    JoinSegments(run, actions, k, lock + 1, look + 1, t);
  }

  lemma RequestLooks(run: seq<State>, actions: seq<Action>, lo: nat, hi: nat, t: Tid) returns (look: nat)
    requires Trace(run, actions) && Init(run[0]) && IsRequest(run, actions, lo, hi, t) && !run[hi].mem.terminated
    ensures lo < look < hi && Own(actions, look, t) && run[look].mem.proxyMutex == Some(t)
    ensures BusyUntil(run, look + 1, hi, t) && ChangesOnly(run, actions, lo + 1, look + 1, t, {})
    ensures var c := run[look].mem.current; At(run[look + 1], t, if c.Some? then PoolLock(c.value) else EmptyUnlock)
  {
    RequestBegins(run, actions, lo, t);
    look := LocksAndLooks(run, actions, lo + 1, hi, t);
    HoldsAtLook(run, actions, look, hi, t);
  }

  lemma RequestBegins(run: seq<State>, actions: seq<Action>, lo: nat, t: Tid)
    requires Trace(run, actions) && lo < |actions| && actions[lo] == InvokeArrow(t)
    ensures At(run[lo + 1], t, ArrowLock)
  {
    assert Enabled(run[lo], actions[lo]);
  }

  lemma HoldsAtLook(run: seq<State>, actions: seq<Action>, look: nat, hi: nat, t: Tid)
    requires Trace(run, actions) && Init(run[0]) && look < hi <= |actions| && !run[hi].mem.terminated
    requires At(run[look], t, ArrowTest) || (t in run[look].threads && run[look].threads[t].UseSwap?)
    ensures run[look].mem.proxyMutex == Some(t)
  {
    NotTerminatedBefore(run, actions, look, hi);
    MutexOfHolder(run, actions, look, t);
  }

  lemma EmptyRequest(run: seq<State>, actions: seq<Action>, k: nat, hi: nat, t: Tid)
    requires Trace(run, actions) && k < hi <= |actions| && BusyUntil(run, k, hi, t) && At(run[k], t, EmptyUnlock)
    ensures ChangesOnly(run, actions, k, hi, t, {}) && At(run[hi], t, Idle)
  {
    var j := QuietStep(run, actions, k, hi, t, EmptyUnlock, {});
    assert j + 1 == hi;
  }

  lemma ServedRequest(run: seq<State>, actions: seq<Action>, k: nat, hi: nat, t: Tid, g: nat)
    returns (i: nat, first: nat, take: nat)
    requires Trace(run, actions) && Init(run[0]) && k < hi <= |actions| && !run[hi].mem.terminated
    requires BusyUntil(run, k, hi, t) && At(run[k], t, PoolLock(g))
    ensures Gets(run, actions, k, hi, t, g, i, first, take)
  {
    var lock := QuietStep(run, actions, k, hi, t, PoolLock(g), {});
    i, first, take := ScansOn(run, actions, lock + 1, hi, t, g, 0);
    GetsAfterQuiet(run, actions, k, lock, hi, t, g, i, first, take);
  }

  lemma GetsAfterQuiet(
    run: seq<State>, actions: seq<Action>, k: nat, j: nat, hi: nat, t: Tid, g: nat, i: nat, first: nat, take: nat)
    requires |run| == |actions| + 1 && k <= j < hi <= |actions| && StaysUntil(run, actions, k, j, t)
    requires Gets(run, actions, j + 1, hi, t, g, i, first, take) && SamePools(run[j].mem, run[j + 1].mem)
    ensures Gets(run, actions, k, hi, t, g, i, first, take)
  {
  }

  /**
   A request looks at the proxy under its mutex. If it finds a pool it ends with a connection of that pool, which it
   found free or added, and changes nothing else. If it finds none it ends without, and changes nothing.
   */
  lemma RequestEffect(run: seq<State>, actions: seq<Action>, lo: nat, hi: nat, t: Tid)
    returns (look: nat, i: nat, first: nat, take: nat)
    requires Trace(run, actions) && Init(run[0]) && IsRequest(run, actions, lo, hi, t) && !run[hi].mem.terminated
    ensures lo < look < hi && Own(actions, look, t) && run[look].mem.proxyMutex == Some(t)
    ensures ChangesOnly(run, actions, lo + 1, look + 1, t, {})
    ensures if run[look].mem.current.Some?
            then Gets(run, actions, look + 1, hi, t, run[look].mem.current.value, i, first, take)
            else ChangesOnly(run, actions, look + 1, hi, t, {}) && At(run[hi], t, Idle)
  {
    look := RequestLooks(run, actions, lo, hi, t);
    i, first, take := 0, look, look;
    if run[look].mem.current.Some? {
      i, first, take := ServedRequest(run, actions, look + 1, hi, t, run[look].mem.current.value);
    } else {
      EmptyRequest(run, actions, look + 1, hi, t);
    }
  }

  /** At the end of its expression a caller gives back the connection that it has, and nothing else changes. */
  lemma ReturnEffect(run: seq<State>, actions: seq<Action>, k: nat, t: Tid, g: nat, i: nat)
    requires Trace(run, actions) && Init(run[0]) && Own(actions, k, t) && At(run[k], t, Using(g, i))
    ensures In(run[k].mem, g, i) && run[k].mem.pools[g].conns[i] == Live(t)
    ensures ConnsBecome(run[k].mem, run[k + 1].mem, g, run[k].mem.pools[g].conns[i := Free])
    ensures At(run[k + 1], t, Idle)
  {
    OwnStep(run, actions, k, t, Using(g, i));
    InvAt(run, actions, k);
    assert Has(run[k].threads, t, g, i);
    assert IsLive(run[k].mem, g, i, t);
  }

  // ---- use ----

  /** Thread `t` calls `use` in step `lo` and has returned from it in state `hi`. */
  ghost predicate IsUse(run: seq<State>, actions: seq<Action>, lo: nat, hi: nat, t: Tid, full: bool)
    requires |run| == |actions| + 1
  {
    lo < hi <= |actions| && actions[lo] == InvokeUse(t, full) && BusyUntil(run, lo + 1, hi, t)
  }

  /** In step `swap`, with the mutex, a new pool without connections, or none, comes into the proxy. */
  predicate Switches(run: seq<State>, actions: seq<Action>, swap: nat, t: Tid, full: bool)
    requires |run| == |actions| + 1
  {
    && Own(actions, swap, t) && run[swap].mem.proxyMutex == Some(t)
    && run[swap + 1].mem.current == (if full then Some(|run[swap].mem.pools|) else None)
    && run[swap + 1].mem.pools == run[swap].mem.pools + if full then [Pool([], None, true, {}, 0, false)] else []
  }

  /** Connection `i` of pool `g` is interrupted. */
  predicate Interrupts(m: Memory, m': Memory, g: nat, i: nat) {
    && In(m, g, i) && g < |m'.pools| && m'.current == m.current && m'.pools == m.pools[g := m'.pools[g]]
    && m'.pools[g] == m.pools[g].(interrupted := m.pools[g].interrupted + {i})
  }

  /** A free connection of pool `g` that has been interrupted is locked for good. */
  predicate LocksInterrupted(m: Memory, m': Memory, t: Tid, g: nat, i: nat) {
    && In(m, g, i) && m.pools[g].conns[i] == Free && i in m.pools[g].interrupted
    && ConnsBecome(m, m', g, m.pools[g].conns[i := PreLocked(t)])
  }

  ghost predicate ClearsPart(m: Memory, m': Memory, t: Tid, g: nat) {
    || SamePools(m, m')
    || (exists i: nat :: Interrupts(m, m', g, i))
    || (exists i: nat :: LocksInterrupted(m, m', t, g, i))
  }

  ghost predicate OnlyClears(run: seq<State>, actions: seq<Action>, lo: nat, hi: nat, t: Tid, g: nat, but: set<nat>)
    requires |run| == |actions| + 1 && hi <= |actions|
  {
    forall k: nat {:trigger Own(actions, k, t)} :: lo <= k < hi && Own(actions, k, t) && k !in but ==>
      ClearsPart(run[k].mem, run[k + 1].mem, t, g)
  }

  /** In step `destroy` pool `g` goes, when `t` has interrupted all its connections and then locked them. */
  predicate Destroys(run: seq<State>, actions: seq<Action>, destroy: nat, t: Tid, g: nat)
    requires |run| == |actions| + 1
  {
    && Own(actions, destroy, t) && g < |run[destroy].mem.pools|
    && var p := run[destroy].mem.pools[g];
       && (forall i :: 0 <= i < |p.conns| ==> p.conns[i] == PreLocked(t) && i in p.interrupted)
       && run[destroy + 1].mem.current == run[destroy].mem.current
       && run[destroy + 1].mem.pools ==
          run[destroy].mem.pools[g := p.(conns := [], mutex := None, alive := false)]
  }

  lemma DoKeepsInterrupted(m: Memory, t: Tid, op: Op, g: nat)
    requires CanDo(m, op) && g < |m.pools|
    ensures g < |Do(m, t, op).pools| && m.pools[g].interrupted <= Do(m, t, op).pools[g].interrupted
  {
  }

  /** The connections below `n` have been interrupted. */
  predicate InterruptedBelow(s: State, g: nat, n: nat) {
    g < |s.mem.pools| && forall i: nat :: i < n ==> i in s.mem.pools[g].interrupted
  }

  lemma {:induction false} InterruptedStays(run: seq<State>, actions: seq<Action>, k: nat, n: nat, g: nat, below: nat)
    requires Trace(run, actions) && k <= n <= |actions| && InterruptedBelow(run[k], g, below)
    ensures InterruptedBelow(run[n], g, below)
  {
    if k < n {
      InterruptedStays(run, actions, k, n - 1, g, below);
      var s, a := run[n - 1], actions[n - 1];
      assert Enabled(s, a);
      if a.Inside? {
        DoKeepsInterrupted(s.mem, a.t, ThreadOp(s.mem, s.threads[a.t]), g);
      }
    }
  }

  lemma InterruptStep(m: Memory, t: Tid, g: nat, i: nat)
    requires In(m, g, i)
    ensures var m' := Do(m, t, ThreadOp(m, ClearInterrupt(g, i)));
            Interrupts(m, m', g, i) && NextPc(m, ClearInterrupt(g, i)) == ClearTry(g, i)
  {
  }

  lemma TryStep(m: Memory, t: Tid, g: nat, i: nat)
    requires CanDo(m, ThreadOp(m, ClearTry(g, i))) && In(m, g, i) && i in m.pools[g].interrupted
    requires NextPc(m, ClearTry(g, i)) != AlreadyPreLocked && !ThreadOp(m, ClearTry(g, i)).Terminate?
    ensures var m' := Do(m, t, ThreadOp(m, ClearTry(g, i)));
            LocksInterrupted(m, m', t, g, i) && NextPc(m, ClearTry(g, i)) == ClearInterrupt(g, i + 1)
  {
  }

  lemma ClearingAt(run: seq<State>, actions: seq<Action>, n: nat, t: Tid, pc: Pc, g: nat, i: nat)
    requires Trace(run, actions) && Init(run[0]) && n <= |actions| && !run[n].mem.terminated && At(run[n], t, pc)
    requires pc == ClearInterrupt(g, i) || pc == ClearTry(g, i) || pc == ClearDestroy(g)
    ensures g < |run[n].mem.pools|
    ensures pc.ClearInterrupt? ==> i <= |run[n].mem.pools[g].conns|
    ensures pc.ClearTry? ==> In(run[n].mem, g, i)
    ensures pc.ClearDestroy? ==>
              forall j :: 0 <= j < |run[n].mem.pools[g].conns| ==> run[n].mem.pools[g].conns[j] == PreLocked(t)
  {
    InvAt(run, actions, n);
    assert Holder(run[n]) == pc;
    assert PoolOk(run[n].mem.pools[g], g, run[n].mem.current == Some(g), run[n].mem.proxyMutex, pc);
  }

  lemma OtherOpKeepsCount(m: Memory, u: Tid, pc: Pc, g: nat)
    requires CanDo(m, ThreadOp(m, pc)) && !HoldsProxy(pc) && g < |m.pools|
    ensures var m' := Do(m, u, ThreadOp(m, pc)); g < |m'.pools| && |m'.pools[g].conns| == |m.pools[g].conns|
  {
  }

  lemma OthersKeepCount(s: State, a: Action, t: Tid, g: nat)
    requires Inv(s) && Enabled(s, a) && s.mem.proxyMutex == Some(t) && a != Inside(t) && g < |s.mem.pools|
    ensures g < |Apply(s, a).mem.pools| && |Apply(s, a).mem.pools[g].conns| == |s.mem.pools[g].conns|
  {
    if a.Inside? {
      OtherOpKeepsCount(s.mem, a.t, s.threads[a.t], g);
    }
  }

  lemma {:induction false} CountStays(
    run: seq<State>, actions: seq<Action>, k: nat, j: nat, hi: nat, t: Tid, pc: Pc, g: nat)
    requires Trace(run, actions) && Init(run[0]) && k <= j < hi <= |actions| && !run[hi].mem.terminated
    requires At(run[k], t, pc) && HoldsProxy(pc) && g < |run[k].mem.pools|
    requires forall x: nat {:trigger Own(actions, x, t)} :: k <= x < j ==> !Own(actions, x, t)
    ensures g < |run[j].mem.pools| && |run[j].mem.pools[g].conns| == |run[k].mem.pools[g].conns| && At(run[j], t, pc)
  {
    if k < j {
      CountStays(run, actions, k, j - 1, hi, t, pc, g);
      var s, a := run[j - 1], actions[j - 1];
      assert Enabled(s, a) && !Own(actions, j - 1, t);
      NotTerminatedBefore(run, actions, j - 1, hi);
      InvAt(run, actions, j - 1);
      OthersKeepCount(s, a, t, g);
      OthersLeave(s, a, t);
    }
  }

  lemma DestroyStep(run: seq<State>, actions: seq<Action>, k: nat, hi: nat, t: Tid, g: nat, n: nat)
    returns (destroy: nat)
    requires Trace(run, actions) && Init(run[0]) && k < hi <= |actions| && !run[hi].mem.terminated
    requires BusyUntil(run, k, hi, t) && At(run[k], t, ClearDestroy(g)) && InterruptedBelow(run[k], g, n)
    requires n == |run[k].mem.pools[g].conns|
    ensures k <= destroy < hi && Destroys(run, actions, destroy, t, g) && StaysUntil(run, actions, k, destroy, t)
    ensures ChangesOnly(run, actions, destroy + 1, hi, t, {}) && At(run[hi], t, Idle)
  {
    destroy := NextOwn(run, actions, k, hi, t);
    OwnStep(run, actions, destroy, t, ClearDestroy(g));
    CountStays(run, actions, k, destroy, hi, t, ClearDestroy(g), g);
    InterruptedStays(run, actions, k, destroy, g, n);
    ClearingAt(run, actions, destroy, t, ClearDestroy(g), g, 0);
    var unlock := QuietStep(run, actions, destroy + 1, hi, t, UseUnlock, {});
    assert unlock + 1 == hi;
  }

  /** The rest of a clearing: what happens up to the destruction of the pool, and nothing after it. */
  ghost predicate ClearsAll(run: seq<State>, actions: seq<Action>, k: nat, hi: nat, t: Tid, g: nat, destroy: nat)
    requires |run| == |actions| + 1 && hi <= |actions|
  {
    && k <= destroy < hi && Destroys(run, actions, destroy, t, g)
    && OnlyClears(run, actions, k, destroy, t, g, {}) && ChangesOnly(run, actions, destroy + 1, hi, t, {})
    && At(run[hi], t, Idle)
  }

  lemma ClearsEarlier(run: seq<State>, actions: seq<Action>, k: nat, j: nat, hi: nat, t: Tid, g: nat, destroy: nat)
    requires |run| == |actions| + 1 && k <= j < hi <= |actions| && StaysUntil(run, actions, k, j, t)
    requires ClearsAll(run, actions, j + 1, hi, t, g, destroy) && ClearsPart(run[j].mem, run[j + 1].mem, t, g)
    ensures ClearsAll(run, actions, k, hi, t, g, destroy)
  {
  }

  lemma TryAt(run: seq<State>, actions: seq<Action>, j: nat, hi: nat, t: Tid, g: nat, i: nat)
    requires Trace(run, actions) && Init(run[0]) && j < hi <= |actions| && !run[hi].mem.terminated
    requires Own(actions, j, t) && At(run[j], t, ClearTry(g, i)) && InterruptedBelow(run[j], g, i + 1)
    ensures At(run[j + 1], t, ClearInterrupt(g, i + 1)) && ClearsPart(run[j].mem, run[j + 1].mem, t, g)
  {
    OwnStep(run, actions, j, t, ClearTry(g, i));
    ClearingAt(run, actions, j, t, ClearTry(g, i), g, i);
    NotTerminatedBefore(run, actions, j + 1, hi);
    NeverFails(run, actions, j + 1, t);
    TryStep(run[j].mem, t, g, i);
    assert LocksInterrupted(run[j].mem, run[j + 1].mem, t, g, i);
  }

  lemma InterruptAt(run: seq<State>, actions: seq<Action>, j: nat, t: Tid, g: nat, i: nat)
    requires Trace(run, actions) && Init(run[0]) && Own(actions, j, t) && At(run[j], t, ClearInterrupt(g, i))
    requires InterruptedBelow(run[j], g, i)
    ensures ClearsPart(run[j].mem, run[j + 1].mem, t, g) && i <= |run[j].mem.pools[g].conns|
    ensures if i < |run[j].mem.pools[g].conns|
            then At(run[j + 1], t, ClearTry(g, i)) && InterruptedBelow(run[j + 1], g, i + 1)
            else At(run[j + 1], t, ClearDestroy(g)) && run[j + 1].mem == run[j].mem
  {
    OwnStep(run, actions, j, t, ClearInterrupt(g, i));
    ClearingAt(run, actions, j, t, ClearInterrupt(g, i), g, i);
    if i < |run[j].mem.pools[g].conns| {
      InterruptStep(run[j].mem, t, g, i);
      assert Interrupts(run[j].mem, run[j + 1].mem, g, i);
    }
  }

  lemma {:induction false} ClearsOn(run: seq<State>, actions: seq<Action>, k: nat, hi: nat, t: Tid, g: nat, i: nat)
    returns (destroy: nat)
    requires Trace(run, actions) && Init(run[0]) && k < hi <= |actions| && !run[hi].mem.terminated
    requires BusyUntil(run, k, hi, t) && At(run[k], t, ClearInterrupt(g, i)) && InterruptedBelow(run[k], g, i)
    ensures ClearsAll(run, actions, k, hi, t, g, destroy)
    decreases hi - k
  {
    var j := NextOwn(run, actions, k, hi, t);
    InterruptedStays(run, actions, k, j, g, i);
    InterruptAt(run, actions, j, t, g, i);
    if i < |run[j].mem.pools[g].conns| {
      destroy := TriesOn(run, actions, j + 1, hi, t, g, i);
    } else {
      destroy := DestroyStep(run, actions, j + 1, hi, t, g, i);
    }
    ClearsEarlier(run, actions, k, j, hi, t, g, destroy);
  }

  lemma {:induction false} TriesOn(run: seq<State>, actions: seq<Action>, k: nat, hi: nat, t: Tid, g: nat, i: nat)
    returns (destroy: nat)
    requires Trace(run, actions) && Init(run[0]) && k < hi <= |actions| && !run[hi].mem.terminated
    requires BusyUntil(run, k, hi, t) && At(run[k], t, ClearTry(g, i)) && InterruptedBelow(run[k], g, i + 1)
    ensures ClearsAll(run, actions, k, hi, t, g, destroy)
    decreases hi - k
  {
    var j := NextOwn(run, actions, k, hi, t);
    InterruptedStays(run, actions, k, j, g, i + 1);
    TryAt(run, actions, j, hi, t, g, i);
    InterruptedStays(run, actions, j, j + 1, g, i + 1);
    destroy := ClearsOn(run, actions, j + 1, hi, t, g, i + 1);
    ClearsEarlier(run, actions, k, j, hi, t, g, destroy);
  }

  lemma UseBegins(run: seq<State>, actions: seq<Action>, lo: nat, t: Tid, full: bool)
    requires Trace(run, actions) && lo < |actions| && actions[lo] == InvokeUse(t, full)
    ensures At(run[lo + 1], t, UseLock(full))
  {
    assert Enabled(run[lo], actions[lo]);
  }

  lemma SwapAt(run: seq<State>, actions: seq<Action>, swap: nat, hi: nat, t: Tid, full: bool)
    requires Trace(run, actions) && Init(run[0]) && swap < hi <= |actions| && !run[hi].mem.terminated
    requires Own(actions, swap, t) && At(run[swap], t, UseSwap(full))
    ensures Switches(run, actions, swap, t, full)
    ensures var c := run[swap].mem.current; At(run[swap + 1], t, if c.Some? then ClearLock(c.value) else UseUnlock)
  {
    OwnStep(run, actions, swap, t, UseSwap(full));
    HoldsAtLook(run, actions, swap, hi, t);
  }

  lemma NothingBefore(run: seq<State>, actions: seq<Action>, k: nat, j: nat, t: Tid)
    requires |run| == |actions| + 1 && k <= j < |actions| && StaysUntil(run, actions, k, j, t)
    ensures ChangesOnly(run, actions, k, j, t, {})
  {
  }

  lemma LocksAndSwaps(run: seq<State>, actions: seq<Action>, k: nat, hi: nat, t: Tid, full: bool) returns (swap: nat)
    requires Trace(run, actions) && k < hi <= |actions| && BusyUntil(run, k, hi, t) && At(run[k], t, UseLock(full))
    ensures k <= swap < hi && Own(actions, swap, t) && At(run[swap], t, UseSwap(full))
    ensures BusyUntil(run, swap + 1, hi, t)
    ensures ChangesOnly(run, actions, k, swap, t, {})
  {
    var lock := QuietStep(run, actions, k, hi, t, UseLock(full), {});
    QuietSegment(run, actions, k, lock, t);
    swap := ComesToSwap(run, actions, lock + 1, hi, t, full);
    JoinSegments(run, actions, k, lock + 1, swap, t);
  }

  lemma ComesToSwap(run: seq<State>, actions: seq<Action>, k: nat, hi: nat, t: Tid, full: bool) returns (swap: nat)
    requires Trace(run, actions) && k < hi <= |actions| && BusyUntil(run, k, hi, t) && At(run[k], t, UseSwap(full))
    ensures k <= swap < hi && Own(actions, swap, t) && At(run[swap], t, UseSwap(full))
    ensures BusyUntil(run, swap + 1, hi, t) && ChangesOnly(run, actions, k, swap, t, {})
  {
    swap := NextOwn(run, actions, k, hi, t);
    NothingBefore(run, actions, k, swap, t);
  }

  lemma SwapStep(run: seq<State>, actions: seq<Action>, lo: nat, hi: nat, t: Tid, full: bool) returns (swap: nat)
    requires Trace(run, actions) && Init(run[0]) && IsUse(run, actions, lo, hi, t, full) && !run[hi].mem.terminated
    ensures lo < swap < hi && Switches(run, actions, swap, t, full) && BusyUntil(run, swap + 1, hi, t)
    ensures ChangesOnly(run, actions, lo + 1, swap, t, {})
    ensures var c := run[swap].mem.current; At(run[swap + 1], t, if c.Some? then ClearLock(c.value) else UseUnlock)
  {
    UseBegins(run, actions, lo, t, full);
    swap := LocksAndSwaps(run, actions, lo + 1, hi, t, full);
    SwapAt(run, actions, swap, hi, t, full);
  }

  lemma ClearsOld(run: seq<State>, actions: seq<Action>, k: nat, hi: nat, t: Tid, g: nat) returns (destroy: nat)
    requires Trace(run, actions) && Init(run[0]) && k < hi <= |actions| && !run[hi].mem.terminated
    requires BusyUntil(run, k, hi, t) && At(run[k], t, ClearLock(g)) && g < |run[k].mem.pools|
    ensures ClearsAll(run, actions, k, hi, t, g, destroy)
  {
    var lock := QuietStep(run, actions, k, hi, t, ClearLock(g), {});
    InterruptedStays(run, actions, k, lock + 1, g, 0);
    destroy := ClearsOn(run, actions, lock + 1, hi, t, g, 0);
    ClearsEarlier(run, actions, k, lock, hi, t, g, destroy);
  }

  lemma UnlocksAfterSwap(run: seq<State>, actions: seq<Action>, k: nat, hi: nat, t: Tid)
    requires Trace(run, actions) && k < hi <= |actions| && BusyUntil(run, k, hi, t) && At(run[k], t, UseUnlock)
    ensures ChangesOnly(run, actions, k, hi, t, {}) && At(run[hi], t, Idle)
  {
    var j := QuietStep(run, actions, k, hi, t, UseUnlock, {});
    assert j + 1 == hi;
  }

  lemma CurrentInRange(run: seq<State>, actions: seq<Action>, n: nat)
    requires Trace(run, actions) && Init(run[0]) && n <= |actions| && !run[n].mem.terminated
    ensures run[n].mem.current.Some? ==> run[n].mem.current.value < |run[n].mem.pools|
  {
    InvAt(run, actions, n);
  }

  /**
   A call of `use` that returns puts the new pool, or none, into the proxy, under the mutex. The pool that was there is
   destroyed after that, when every connection of it has been interrupted, and after its interruption found free and
   locked; beyond that the call changes nothing.
   */
  lemma UseEffect(run: seq<State>, actions: seq<Action>, lo: nat, hi: nat, t: Tid, full: bool)
    returns (swap: nat, destroy: nat)
    requires Trace(run, actions) && Init(run[0]) && IsUse(run, actions, lo, hi, t, full) && !run[hi].mem.terminated
    ensures lo < swap < hi && Switches(run, actions, swap, t, full) && ChangesOnly(run, actions, lo + 1, swap, t, {})
    ensures if run[swap].mem.current.Some?
            then ClearsAll(run, actions, swap + 1, hi, t, run[swap].mem.current.value, destroy)
            else ChangesOnly(run, actions, swap + 1, hi, t, {})
  {
    swap := SwapStep(run, actions, lo, hi, t, full);
    destroy := swap;
    if run[swap].mem.current.Some? {
      NotTerminatedBefore(run, actions, swap, hi);
      CurrentInRange(run, actions, swap);
      destroy := ClearsOld(run, actions, swap + 1, hi, t, run[swap].mem.current.value);
    } else {
      UnlocksAfterSwap(run, actions, swap + 1, hi, t);
    }
  }
}
