/** A pool can grow although one of its connections is free. */
module PoolLimits {
  import opened Prelude
  import opened PoolMachine
  import opened PoolInvariants
  import opened PoolTheorems

  lemma GoInside(m: Memory, threads: map<Tid, Pc>, t: Tid, pc: Pc)
    requires Reachable(State(m, threads[t := pc])) && !m.terminated
    requires pc != Idle && !Failed(pc) && CanDo(m, ThreadOp(m, pc))
    ensures Reachable(State(Do(m, t, ThreadOp(m, pc)), threads[t := NextPc(m, pc)]))
  {
    ReachNext(State(m, threads[t := pc]), Inside(t));
    assert threads[t := pc][t := NextPc(m, pc)] == threads[t := NextPc(m, pc)];
  }

  function Threads(pc1: Pc, pc2: Pc): map<Tid, Pc> {
    map[1 := pc1, 2 := pc2]
  }

  /** The proxy holds its first pool; its mutex and the pool's are both free or both taken by `holder`. */
  function Memo(holder: Option<Tid>, conns: seq<Conn>, peak: nat, raced: bool): Memory {
    Memory(holder, Some(0), [Pool(conns, holder, true, {}, peak, raced)], false)
  }

  lemma EmptyProxy(m: Memory, threads: map<Tid, Pc>)
    requires m == Memory(None, None, [], false) && threads == Threads(Idle, Idle)
    ensures Reachable(State(m, threads))
  {
    assert Trace([State(m, threads)], []) && Init([State(m, threads)][0]);
  }

  lemma Switches(m: Memory, threads: map<Tid, Pc>, m': Memory)
    requires Reachable(State(m, threads)) && 1 in threads && threads[1] == Idle
    requires !m.terminated && m.proxyMutex == None && m.current == None
    requires m' == m.(current := Some(|m.pools|), pools := m.pools + [Pool([], None, true, {}, 0, false)])
    ensures Reachable(State(m', threads))
  {
    var m1 := m.(proxyMutex := Some(1));
    ReachNext(State(m, threads), InvokeUse(1, true));
    GoInside(m, threads, 1, UseLock(true));
    GoInside(m1, threads, 1, UseSwap(true));
    SwitchReturns(m', threads);
  }

  lemma SwitchReturns(m: Memory, threads: map<Tid, Pc>)
    requires Reachable(State(m.(proxyMutex := Some(1)), threads[1 := UseUnlock])) && !m.terminated
    requires m.proxyMutex == None && 1 in threads && threads[1] == Idle
    ensures Reachable(State(m, threads))
  {
    GoInside(m.(proxyMutex := Some(1)), threads, 1, UseUnlock);
    assert m.(proxyMutex := Some(1)).(proxyMutex := None) == m;
    assert threads[1 := Idle] == threads;
  }

  lemma FirstPool()
    ensures Reachable(State(Memo(None, [], 0, false), Threads(Idle, Idle)))
  {
    var m := Memory(None, None, [], false);
    EmptyProxy(m, Threads(Idle, Idle));
    assert m.pools + [Pool([], None, true, {}, 0, false)] == [Pool([], None, true, {}, 0, false)];
    Switches(m, Threads(Idle, Idle), Memo(None, [], 0, false));
  }

  /** A thread asks for a connection and is about to look at the first one. */
  lemma Asks(conns: seq<Conn>, peak: nat, raced: bool, threads: map<Tid, Pc>, t: Tid)
    requires Reachable(State(Memo(None, conns, peak, raced), threads)) && t in threads && threads[t] == Idle
    ensures Reachable(State(Memo(Some(t), conns, peak, raced), threads[t := Scan(0, 0)]))
  {
    var m := Memo(None, conns, peak, raced);
    var m1 := m.(proxyMutex := Some(t));
    ReachNext(State(m, threads), InvokeArrow(t));
    GoInside(m, threads, t, ArrowLock);
    GoInside(m1, threads, t, ArrowTest);
    GoInside(m1, threads, t, PoolLock(0));
    assert Do(m1, t, TakePoolMutex(0)) == Memo(Some(t), conns, peak, raced);
  }

  /** A thread that has looked at all connections adds one. */
  lemma Grows(conns: seq<Conn>, peak: nat, raced: bool, threads: map<Tid, Pc>, t: Tid)
    requires Reachable(State(Memo(Some(t), conns, peak, raced), threads[t := Scan(0, |conns|)]))
    ensures Reachable(State(Memo(Some(t), conns + [Free], peak, raced), threads[t := TakeNew(0, |conns|)]))
  {
    var m := Memo(Some(t), conns, peak, raced);
    GoInside(m, threads, t, Scan(0, |conns|));
    assert Do(m, t, Grow(0)) == Memo(Some(t), conns + [Free], peak, raced);
  }

  lemma Takes(conns: seq<Conn>, peak: nat, raced: bool, threads: map<Tid, Pc>, t: Tid, i: nat)
    requires i < |conns| && conns[i] == Free
    requires Reachable(State(Memo(Some(t), conns, peak, raced), threads[t := TakeNew(0, i)]))
    ensures Reachable(State(Memo(Some(t), conns[i := Live(t)], Max(peak, LiveCount(conns[i := Live(t)])), raced),
                            threads[t := PoolUnlock(0, i)]))
  {
    var m := Memo(Some(t), conns, peak, raced);
    GoInside(m, threads, t, TakeNew(0, i));
    assert Do(m, t, MoveLock(0, i)) ==
           Memo(Some(t), conns[i := Live(t)], Max(peak, LiveCount(conns[i := Live(t)])), raced);
  }

  lemma Leaves(conns: seq<Conn>, peak: nat, raced: bool, threads: map<Tid, Pc>, t: Tid, i: nat)
    requires Reachable(State(Memo(Some(t), conns, peak, raced), threads[t := PoolUnlock(0, i)]))
    ensures Reachable(State(Memo(None, conns, peak, raced), threads[t := Using(0, i)]))
  {
    var m := Memo(Some(t), conns, peak, raced);
    var m1 := Memo(None, conns, peak, raced);
    GoInside(m, threads, t, PoolUnlock(0, i));
    assert Do(m, t, FreePoolMutex(0)) == m1.(proxyMutex := Some(t));
    GoInside(m1.(proxyMutex := Some(t)), threads, t, ProxyUnlock(0, i));
    assert m1.(proxyMutex := Some(t)).(proxyMutex := None) == m1;
  }

  lemma OneConnection(c: Conn)
    ensures LiveCount([c]) == if c.Live? then 1 else 0
  {
    assert [c][..0] == [];
  }

  /** Thread 1 gets the first connection. */
  lemma FirstConnection()
    ensures Reachable(State(Memo(None, [Live(1)], 1, false), Threads(Using(0, 0), Idle)))
  {
    var threads := Threads(Idle, Idle);
    FirstPool();
    Asks([], 0, false, threads, 1);
    Grows([], 0, false, threads, 1);
    assert [] + [Free] == [Free] && [Free][0 := Live(1)] == [Live(1)];
    Takes([Free], 0, false, threads, 1, 0);
    OneConnection(Live(1));
    Leaves([Live(1)], 1, false, threads, 1, 0);
    assert threads[1 := Using(0, 0)] == Threads(Using(0, 0), Idle);
  }

  lemma FirstConnectionTaken()
    ensures Reachable(State(Memo(Some(2), [Live(1)], 1, false), Threads(Using(0, 0), Scan(0, 1))))
  {
    var threads := Threads(Using(0, 0), Idle);
    FirstConnection();
    Asks([Live(1)], 1, false, threads, 2);
    GoInside(Memo(Some(2), [Live(1)], 1, false), threads, 2, Scan(0, 0));
    assert threads[2 := Scan(0, 1)] == Threads(Using(0, 0), Scan(0, 1));
  }

  /** Thread 2 has found that connection taken; then thread 1 gives it back. */
  lemma FirstConnectionReturned()
    ensures Reachable(State(Memo(Some(2), [Free], 1, true), Threads(Idle, Scan(0, 1))))
  {
    FirstConnectionTaken();
    var m, threads := Memo(Some(2), [Live(1)], 1, false), Threads(Idle, Scan(0, 1));
    assert threads[1 := Using(0, 0)] == Threads(Using(0, 0), Scan(0, 1));
    GoInside(m, threads, 1, Using(0, 0));
    assert [Live(1)][0 := Free] == [Free];
    OneConnection(Free);
    assert Do(m, 1, Release(0, 0)) == Memo(Some(2), [Free], 1, true);
    assert threads[1 := Idle] == threads;
  }

  lemma Outgrown()
    ensures Reachable(State(Memo(None, [Free, Live(2)], 1, true), Threads(Idle, Using(0, 1))))
  {
    var threads := Threads(Idle, Idle);
    FirstConnectionReturned();
    assert Threads(Idle, Scan(0, 1)) == threads[2 := Scan(0, 1)];
    Grows([Free], 1, true, threads, 2);
    assert [Free] + [Free] == [Free, Free] && [Free, Free][1 := Live(2)] == [Free, Live(2)];
    Takes([Free, Free], 1, true, threads, 2, 1);
    TwoConnections(Free, Live(2));
    Leaves([Free, Live(2)], 1, true, threads, 2, 1);
    assert threads[2 := Using(0, 1)] == Threads(Idle, Using(0, 1));
  }

  lemma TwoConnections(c: Conn, d: Conn)
    ensures LiveCount([c, d]) == (if c.Live? then 1 else 0) + (if d.Live? then 1 else 0)
  {
    assert [c, d][..1] == [c];
    OneConnection(c);
  }

  /** The pool then has two connections although no two `Lockable`s were ever live at once. */
  lemma PoolMayOutgrowPeak()
    ensures exists s: State ::
              && Reachable(s) && s.mem.current == Some(0) && s.mem.proxyMutex == None && |s.mem.pools| == 1
              && |s.mem.pools[0].conns| == 2 && s.mem.pools[0].peak == 1
  {
    Outgrown();
  }

  // ---- a request may pass over a free connection ----

  lemma GivesBack(conns: seq<Conn>, holder: Option<Tid>, threads: map<Tid, Pc>, t: Tid, i: nat)
    requires Reachable(State(Memo(holder, conns, 1, true), threads[t := Using(0, i)])) && t in threads
    requires threads[t] == Idle && i < |conns| && LiveCount(conns[i := Free]) <= 1
    ensures Reachable(State(Memo(holder, conns[i := Free], 1, true), threads))
  {
    var m := Memo(holder, conns, 1, true);
    GoInside(m, threads, t, Using(0, i));
    assert Do(m, t, Release(0, i)) == Memo(holder, conns[i := Free], 1, true);
    assert threads[t := Idle] == threads;
  }

  /** Both connections are free, and thread 1 takes the first one. */
  lemma TakesFirstOfTwo()
    ensures Reachable(State(Memo(None, [Live(1), Free], 1, true), Threads(Using(0, 0), Idle)))
  {
    var threads := Threads(Idle, Idle);
    Outgrown();
    assert Threads(Idle, Using(0, 1)) == threads[2 := Using(0, 1)];
    assert [Free, Live(2)][1 := Free] == [Free, Free];
    TwoConnections(Free, Free);
    GivesBack([Free, Live(2)], None, threads, 2, 1);
    Asks([Free, Free], 1, true, threads, 1);
    PreLocks([Free, Free], threads, 1);
    assert [Free, Free][0 := PreLocked(1)] == [PreLocked(1), Free];
    TwoConnections(PreLocked(1), Free);
    MovesLock([PreLocked(1), Free], threads, 1);
    assert [PreLocked(1), Free][0 := Live(1)] == [Live(1), Free];
    TwoConnections(Live(1), Free);
    Leaves([Live(1), Free], 1, true, threads, 1, 0);
    assert threads[1 := Using(0, 0)] == Threads(Using(0, 0), Idle);
  }

  lemma PreLocks(conns: seq<Conn>, threads: map<Tid, Pc>, t: Tid)
    requires Reachable(State(Memo(Some(t), conns, 1, true), threads[t := Scan(0, 0)]))
    requires conns != [] && conns[0] == Free && LiveCount(conns[0 := PreLocked(t)]) <= 1
    ensures Reachable(State(Memo(Some(t), conns[0 := PreLocked(t)], 1, true), threads[t := Take(0, 0)]))
  {
    var m := Memo(Some(t), conns, 1, true);
    GoInside(m, threads, t, Scan(0, 0));
    assert Do(m, t, TryLock(0, 0)) == Memo(Some(t), conns[0 := PreLocked(t)], 1, true);
  }

  lemma MovesLock(conns: seq<Conn>, threads: map<Tid, Pc>, t: Tid)
    requires Reachable(State(Memo(Some(t), conns, 1, true), threads[t := Take(0, 0)]))
    requires conns != [] && conns[0] == PreLocked(t) && LiveCount(conns[0 := Live(t)]) <= 1
    ensures Reachable(State(Memo(Some(t), conns[0 := Live(t)], 1, true), threads[t := PoolUnlock(0, 0)]))
  {
    var m := Memo(Some(t), conns, 1, true);
    GoInside(m, threads, t, Take(0, 0));
    assert Do(m, t, MoveLock(0, 0)) == Memo(Some(t), conns[0 := Live(t)], 1, true);
  }

  /** Thread 2 is about to take the second connection although the first one is free. */
  lemma RequestMayPassOverFree()
    ensures exists s: State ::
              && Reachable(s) && 2 in s.threads && s.threads[2] == Scan(0, 1)
              && NextPc(s.mem, s.threads[2]) == Take(0, 1)
              && |s.mem.pools| == 1 && |s.mem.pools[0].conns| == 2 && s.mem.pools[0].conns[0] == Free
  {
    var threads, threads' := Threads(Using(0, 0), Idle), Threads(Idle, Scan(0, 1));
    TakesFirstOfTwo();
    Asks([Live(1), Free], 1, true, threads, 2);
    GoInside(Memo(Some(2), [Live(1), Free], 1, true), threads, 2, Scan(0, 0));
    assert threads[2 := Scan(0, 1)] == threads'[1 := Using(0, 0)];
    assert [Live(1), Free][0 := Free] == [Free, Free];
    TwoConnections(Free, Free);
    GivesBack([Live(1), Free], Some(2), threads', 1, 0);
  }
}
