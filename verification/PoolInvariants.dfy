/** What every step of the pool machine keeps. */
module PoolInvariants {
  import opened Prelude
  import opened PoolMachine

  // ---- what a position means ----

  predicate HoldsProxy(pc: Pc) {
    match pc
    case Idle => false
    case ArrowLock => false
    case Using(_, _) => false
    case UseLock(_) => false
    case _ => true
  }

  /** The pool whose mutex the thread holds. */
  function PoolHeld(pc: Pc): Option<nat> {
    match pc
    case Scan(g, _) => Some(g)
    case Take(g, _) => Some(g)
    case TakeNew(g, _) => Some(g)
    case PoolUnlock(g, _) => Some(g)
    case ClearInterrupt(g, _) => Some(g)
    case ClearTry(g, _) => Some(g)
    case ClearDestroy(g) => Some(g)
    case _ => None
  }

  /** The pool that the thread is serving from. */
  function Serving(pc: Pc): Option<nat> {
    match pc
    case PoolLock(g) => Some(g)
    case Scan(g, _) => Some(g)
    case Take(g, _) => Some(g)
    case TakeNew(g, _) => Some(g)
    case PoolUnlock(g, _) => Some(g)
    case ProxyUnlock(g, _) => Some(g)
    case _ => None
  }

  /** The pool that the thread is destroying. */
  function Dying(pc: Pc): Option<nat> {
    match pc
    case ClearLock(g) => Some(g)
    case ClearInterrupt(g, _) => Some(g)
    case ClearTry(g, _) => Some(g)
    case ClearDestroy(g) => Some(g)
    case _ => None
  }

  /** The connection of the `Lockable` that the thread holds. */
  function LockableOf(pc: Pc): Option<(nat, nat)> {
    match pc
    case PoolUnlock(g, i) => Some((g, i))
    case ProxyUnlock(g, i) => Some((g, i))
    case Using(g, i) => Some((g, i))
    case _ => None
  }

  /** The thread has pre-locked connection `i` of pool `g`. */
  predicate PreLocks(pc: Pc, g: nat, i: nat) {
    match pc
    case Take(h, k) => g == h && i == k
    case ClearInterrupt(h, k) => g == h && i < k
    case ClearTry(h, k) => g == h && i < k
    case ClearDestroy(h) => g == h
    case _ => false
  }

  /** How many connections of pool `g` the thread has found taken in the scan that it is in. */
  function Scanned(pc: Pc, g: nat): nat {
    match pc
    case Scan(h, k) => if g == h then k else 0
    case Take(h, k) => if g == h then k else 0
    case TakeNew(h, k) => if g == h then k else 0
    case _ => 0
  }

  predicate GrowsNow(pc: Pc, g: nat) {
    pc.TakeNew? && pc.g == g
  }

  predicate Failed(pc: Pc) {
    pc.AlreadyPreLocked? || pc.SimultaneousAccess?
  }

  // ---- the invariant ----

  /** Where the owner of the proxy's mutex stands. */
  function Holder(s: State): Pc {
    if s.mem.proxyMutex.Some? && s.mem.proxyMutex.value in s.threads
    then s.threads[s.mem.proxyMutex.value] else Idle
  }

  ghost predicate ProxyOk(s: State) {
    && (s.mem.proxyMutex.Some? ==> s.mem.proxyMutex.value in s.threads)
    && (forall t <- s.threads :: s.mem.proxyMutex == Some(t) <==> HoldsProxy(s.threads[t]))
  }

  /** A pool, while the proxy's mutex is held as `holder` says by a thread at `h`. */
  ghost predicate PoolOk(p: Pool, g: nat, current: bool, holder: Option<Tid>, h: Pc) {
    && p.mutex == (if PoolHeld(h) == Some(g) then holder else None)
    && (p.alive <==> current || Dying(h) == Some(g))
    && (!p.alive ==> p.conns == [])
    && (forall i :: 0 <= i < |p.conns| && p.conns[i].PreLocked? ==> holder == Some(p.conns[i].owner))
    && (forall i :: 0 <= i < |p.conns| ==> (p.conns[i].PreLocked? <==> PreLocks(h, g, i)))
    && (GrowsNow(h, g) ==> |p.conns| == h.i + 1 && p.conns[h.i] == Free)
    && (!p.raced ==> forall i :: 0 <= i < |p.conns| && i < Scanned(h, g) ==> p.conns[i].Live?)
    && LiveCount(p.conns) <= p.peak
    && (p.alive ==> p.peak <= |p.conns|)
    && (p.alive && !p.raced ==> |p.conns| == p.peak + if GrowsNow(h, g) then 1 else 0)
  }

  /** Indices that the holder of the proxy's mutex carries are within its pool. */
  predicate HolderOk(m: Memory, h: Pc) {
    && (Serving(h).Some? ==> m.current == Serving(h))
    && (Dying(h).Some? ==> Dying(h).value < |m.pools| && m.current != Dying(h))
    && match h
       case Scan(g, i) => g < |m.pools| && i <= |m.pools[g].conns|
       case Take(g, i) => In(m, g, i)
       case ClearInterrupt(g, i) => i <= |m.pools[g].conns|
       case ClearTry(g, i) => In(m, g, i)
       case _ => true
  }

  ghost predicate PoolsOk(m: Memory, h: Pc) {
    && (m.current.Some? ==> m.current.value + 1 == |m.pools|)
    && HolderOk(m, h)
    && (forall g :: 0 <= g < |m.pools| ==> PoolOk(m.pools[g], g, m.current == Some(g), m.proxyMutex, h))
  }

  /** The mutex of connection `i` of pool `g` is owned by a `Lockable` of thread `t`. */
  predicate IsLive(m: Memory, g: nat, i: nat, t: Tid) {
    In(m, g, i) && m.pools[g].conns[i] == Live(t)
  }

  predicate Has(threads: map<Tid, Pc>, t: Tid, g: nat, i: nat) {
    t in threads && LockableOf(threads[t]) == Some((g, i))
  }

  ghost predicate Inv(s: State) {
    && ProxyOk(s)
    && PoolsOk(s.mem, Holder(s))
    && (forall t <- s.threads :: !Failed(s.threads[t]))
    && (forall t: Tid, g: nat, i: nat :: IsLive(s.mem, g, i, t) <==> Has(s.threads, t, g, i))
  }

  // ---- counting ----

  lemma {:induction false} LiveCountBound(conns: seq<Conn>)
    ensures LiveCount(conns) <= |conns|
    ensures (forall i :: 0 <= i < |conns| ==> conns[i].Live?) ==> LiveCount(conns) == |conns|
  {
    if conns != [] {
      LiveCountBound(conns[..|conns| - 1]);
    }
  }

  lemma {:induction false} LiveCountSet(conns: seq<Conn>, i: nat, c: Conn)
    requires i < |conns|
    ensures LiveCount(conns[i := c]) ==
            LiveCount(conns) - (if conns[i].Live? then 1 else 0) + (if c.Live? then 1 else 0)
  {
    var n := |conns| - 1;
    if i < n {
      LiveCountSet(conns[..n], i, c);
      assert conns[i := c][..n] == conns[..n][i := c];
    } else {
      assert conns[i := c][..n] == conns[..n];
    }
  }

  // ---- the pool that a step is about ----

  lemma TryLockKeepsPool(p: Pool, g: nat, t: Tid, h: Pc, h': Pc, i: nat)
    requires PoolOk(p, g, h.Scan?, Some(t), h) && i < |p.conns| && p.conns[i] == Free
    requires (h == Scan(g, i) && h' == Take(g, i)) || (h == ClearTry(g, i) && h' == ClearInterrupt(g, i + 1))
    ensures PoolOk(SetConn(p, i, PreLocked(t)), g, h.Scan?, Some(t), h')
  {
    LiveCountSet(p.conns, i, PreLocked(t));
  }

  lemma GrowKeepsPool(p: Pool, g: nat, t: Tid, h: Pc)
    requires PoolOk(p, g, true, Some(t), h) && h == Scan(g, |p.conns|)
    ensures PoolOk(p.(conns := p.conns + [Free]), g, true, Some(t), TakeNew(g, |p.conns|))
  {
    assert (p.conns + [Free])[..|p.conns|] == p.conns;
  }

  lemma MoveLockKeepsPool(p: Pool, g: nat, t: Tid, h: Pc, i: nat)
    requires PoolOk(p, g, true, Some(t), h) && (h == Take(g, i) || h == TakeNew(g, i)) && i < |p.conns|
    ensures !p.conns[i].Live?
    ensures PoolOk(SetConn(p, i, Live(t)), g, true, Some(t), PoolUnlock(g, i))
  {
    LiveCountSet(p.conns, i, Live(t));
    LiveCountBound(p.conns[i := Live(t)]);
  }

  lemma ReleaseKeepsPool(p: Pool, g: nat, current: bool, holder: Option<Tid>, h: Pc, i: nat)
    requires PoolOk(p, g, current, holder, h) && i < |p.conns| && p.conns[i].Live?
    requires PoolHeld(h) == Some(g) ==> holder.Some?
    ensures PoolOk(SetConn(p, i, Free).(raced := p.raced || p.mutex.Some?), g, current, holder, h)
  {
    LiveCountSet(p.conns, i, Free);
  }

  /** A position says nothing of a pool that it is not about. */
  predicate Silent(pc: Pc, g: nat) {
    PoolHeld(pc) != Some(g) && Dying(pc) != Some(g)
  }

  lemma SilentKeepsPool(p: Pool, g: nat, current: bool, holder: Option<Tid>, holder': Option<Tid>, h: Pc, h': Pc)
    requires PoolOk(p, g, current, holder, h) && Silent(h, g) && Silent(h', g)
    ensures PoolOk(p, g, current, holder', h')
  {
    SilentMeans(h, g);
    SilentMeans(h', g);
  }

  lemma SilentMeans(pc: Pc, g: nat)
    requires Silent(pc, g)
    ensures !GrowsNow(pc, g) && Scanned(pc, g) == 0
    ensures forall i: nat :: !PreLocks(pc, g, i)
  {
  }

  // ---- steps of the thread that holds the proxy's mutex ----

  /** The position that counts after the step: that of the new owner of the proxy's mutex, if there is one. */
  function HolderAfter(m: Memory, h: Pc): Pc {
    if HoldsProxy(NextPc(m, h)) then NextPc(m, h) else Idle
  }

  /** The step of the owner of the proxy's mutex, who stands at `h`, does what it should. */
  ghost predicate StepsWell(m: Memory, t: Tid, h: Pc) {
    && CanDo(m, ThreadOp(m, h))
    && !Failed(NextPc(m, h))
    && PoolsOk(Do(m, t, ThreadOp(m, h)), HolderAfter(m, h))
  }

  /** Only pool `g` is concerned by the step. */
  lemma OnlyPool(m: Memory, m': Memory, g: nat, h: Pc, h': Pc)
    requires PoolsOk(m, h) && HolderOk(m', h') && g < |m.pools| == |m'.pools|
    requires forall k :: 0 <= k < |m.pools| && k != g ==> m'.pools[k] == m.pools[k]
    requires m'.current == m.current
    requires forall k: nat :: k != g ==> Silent(h, k) && Silent(h', k)
    requires PoolOk(m'.pools[g], g, m.current == Some(g), m'.proxyMutex, h')
    ensures PoolsOk(m', h')
  {
    forall k | 0 <= k < |m'.pools|
      ensures PoolOk(m'.pools[k], k, m'.current == Some(k), m'.proxyMutex, h')
    {
      if k != g {
        SilentKeepsPool(m.pools[k], k, m.current == Some(k), m.proxyMutex, m'.proxyMutex, h, h');
      }
    }
  }

  /** No pool is concerned by the step. */
  lemma NoPool(m: Memory, m': Memory, h: Pc, h': Pc)
    requires PoolsOk(m, h) && HolderOk(m', h') && m'.pools == m.pools && m'.current == m.current
    requires forall k: nat :: Silent(h, k) && Silent(h', k)
    ensures PoolsOk(m', h')
  {
    forall k | 0 <= k < |m'.pools|
      ensures PoolOk(m'.pools[k], k, m'.current == Some(k), m'.proxyMutex, h')
    {
      SilentKeepsPool(m.pools[k], k, m.current == Some(k), m.proxyMutex, m'.proxyMutex, h, h');
    }
  }

  lemma ArrowSteps(m: Memory, t: Tid, h: Pc)
    requires PoolsOk(m, h) && m.proxyMutex == Some(t)
    requires h.ArrowTest? || h.EmptyUnlock? || h.ProxyUnlock? || h.UseUnlock?
    ensures StepsWell(m, t, h)
  {
    NoPool(m, Do(m, t, ThreadOp(m, h)), h, HolderAfter(m, h));
  }

  lemma PoolLockSteps(m: Memory, t: Tid, h: Pc)
    requires PoolsOk(m, h) && m.proxyMutex == Some(t) && (h.PoolLock? || h.ClearLock?)
    ensures StepsWell(m, t, h)
  {
    var m', h' := Do(m, t, ThreadOp(m, h)), HolderAfter(m, h);
    assert PoolOk(m.pools[h.g], h.g, m.current == Some(h.g), Some(t), h);
    OnlyPool(m, m', h.g, h, h');
  }

  lemma PoolUnlockSteps(m: Memory, t: Tid, h: Pc)
    requires PoolsOk(m, h) && m.proxyMutex == Some(t) && h.PoolUnlock?
    ensures StepsWell(m, t, h)
  {
    assert PoolOk(m.pools[h.g], h.g, true, Some(t), h);
    OnlyPool(m, Do(m, t, ThreadOp(m, h)), h.g, h, HolderAfter(m, h));
  }

  lemma ScanGrows(m: Memory, t: Tid, h: Pc)
    requires PoolsOk(m, h) && m.proxyMutex == Some(t) && h.Scan? && h.i == |m.pools[h.g].conns|
    ensures StepsWell(m, t, h)
  {
    var p := m.pools[h.g];
    assert PoolOk(p, h.g, true, Some(t), h);
    GrowKeepsPool(p, h.g, t, h);
    OnlyPool(m, Do(m, t, ThreadOp(m, h)), h.g, h, HolderAfter(m, h));
  }

  lemma ScanTries(m: Memory, t: Tid, h: Pc)
    requires PoolsOk(m, h) && m.proxyMutex == Some(t) && h.Scan? && h.i < |m.pools[h.g].conns|
    ensures StepsWell(m, t, h)
  {
    var h' := HolderAfter(m, h);
    var p := m.pools[h.g];
    assert PoolOk(p, h.g, true, Some(t), h);
    if p.conns[h.i] == Free {
      TryLockKeepsPool(p, h.g, t, h, h', h.i);
    }
    OnlyPool(m, Do(m, t, ThreadOp(m, h)), h.g, h, h');
  }

  lemma TakeSteps(m: Memory, t: Tid, h: Pc)
    requires PoolsOk(m, h) && m.proxyMutex == Some(t) && (h.Take? || h.TakeNew?)
    ensures StepsWell(m, t, h)
  {
    assert PoolOk(m.pools[h.g], h.g, true, Some(t), h);
    MoveLockKeepsPool(m.pools[h.g], h.g, t, h, h.i);
    OnlyPool(m, Do(m, t, ThreadOp(m, h)), h.g, h, HolderAfter(m, h));
  }

  lemma SwapMovesHolder(m: Memory, t: Tid, h: Pc)
    requires (m.current.Some? ==> m.current.value + 1 == |m.pools|) && h.UseSwap?
    ensures var m' := Do(m, t, ThreadOp(m, h));
            && CanDo(m, ThreadOp(m, h)) && !Failed(NextPc(m, h)) && HolderOk(m', HolderAfter(m, h))
            && (m'.current.Some? ==> m'.current.value + 1 == |m'.pools|)
            && m'.proxyMutex == m.proxyMutex
            && |m.pools| <= |m'.pools| <= |m.pools| + 1 && m'.pools[..|m.pools|] == m.pools
            && (|m'.pools| > |m.pools| ==>
                  m'.pools[|m.pools|] == Pool([], None, true, {}, 0, false) && m'.current == Some(|m.pools|))
            && (|m'.pools| == |m.pools| ==> m'.current == None)
            && HolderAfter(m, h) == if m.current.Some? then ClearLock(m.current.value) else UseUnlock
  {
  }

  /** A pool that is there stays as it is; if it was the current one, its clearing is next. */
  lemma SwapKeepsPool(p: Pool, g: nat, current: Option<nat>, t: Tid, h: Pc, h': Pc)
    requires PoolOk(p, g, current == Some(g), Some(t), h) && h.UseSwap?
    requires h' == if current.Some? then ClearLock(current.value) else UseUnlock
    ensures PoolOk(p, g, false, Some(t), h')
  {
  }

  lemma SwapSteps(m: Memory, t: Tid, h: Pc)
    requires PoolsOk(m, h) && m.proxyMutex == Some(t) && h.UseSwap?
    ensures StepsWell(m, t, h)
  {
    var m', h' := Do(m, t, ThreadOp(m, h)), HolderAfter(m, h);
    SwapMovesHolder(m, t, h);
    forall k | 0 <= k < |m'.pools|
      ensures PoolOk(m'.pools[k], k, m'.current == Some(k), m'.proxyMutex, h')
    {
      if k < |m.pools| {
        assert m'.pools[k] == m'.pools[..|m.pools|][k];
        SwapKeepsPool(m.pools[k], k, m.current, t, h, h');
      } else {
        assert PoolOk(Pool([], None, true, {}, 0, false), k, true, Some(t), h');
      }
    }
  }

  lemma ClearInterruptSteps(m: Memory, t: Tid, h: Pc)
    requires PoolsOk(m, h) && m.proxyMutex == Some(t) && h.ClearInterrupt?
    ensures StepsWell(m, t, h)
  {
    assert PoolOk(m.pools[h.g], h.g, false, Some(t), h);
    OnlyPool(m, Do(m, t, ThreadOp(m, h)), h.g, h, HolderAfter(m, h));
  }

  lemma ClearTrySteps(m: Memory, t: Tid, h: Pc)
    requires PoolsOk(m, h) && m.proxyMutex == Some(t) && h.ClearTry? && !ThreadOp(m, h).Terminate?
    ensures StepsWell(m, t, h)
  {
    var h' := HolderAfter(m, h);
    assert PoolOk(m.pools[h.g], h.g, false, Some(t), h);
    TryLockKeepsPool(m.pools[h.g], h.g, t, h, h', h.i);
    OnlyPool(m, Do(m, t, ThreadOp(m, h)), h.g, h, h');
  }

  lemma DestroySteps(m: Memory, t: Tid, h: Pc)
    requires PoolsOk(m, h) && m.proxyMutex == Some(t) && h.ClearDestroy?
    ensures StepsWell(m, t, h)
  {
    assert PoolOk(m.pools[h.g], h.g, false, Some(t), h);
    OnlyPool(m, Do(m, t, ThreadOp(m, h)), h.g, h, HolderAfter(m, h));
  }

  lemma HolderSteps(m: Memory, t: Tid, h: Pc)
    requires PoolsOk(m, h) && m.proxyMutex == Some(t) && HoldsProxy(h) && !Failed(h)
    requires !ThreadOp(m, h).Terminate?
    ensures StepsWell(m, t, h)
  {
    match h
    case ArrowTest => ArrowSteps(m, t, h);
    case PoolLock(_) => PoolLockSteps(m, t, h);
    case Scan(g, i) => if i == |m.pools[g].conns| { ScanGrows(m, t, h); } else { ScanTries(m, t, h); }
    case Take(_, _) => TakeSteps(m, t, h);
    case TakeNew(_, _) => TakeSteps(m, t, h);
    case PoolUnlock(_, _) => PoolUnlockSteps(m, t, h);
    case ProxyUnlock(_, _) => ArrowSteps(m, t, h);
    case EmptyUnlock => ArrowSteps(m, t, h);
    case UseSwap(_) => SwapSteps(m, t, h);
    case ClearLock(_) => PoolLockSteps(m, t, h);
    case ClearInterrupt(_, _) => ClearInterruptSteps(m, t, h);
    case ClearTry(_, _) => ClearTrySteps(m, t, h);
    case ClearDestroy(_) => DestroySteps(m, t, h);
    case UseUnlock => ArrowSteps(m, t, h);
  }

  // ---- which connections are live ----

  /** The live connections of thread `t` are those its position tells of. */
  ghost predicate Owns(m: Memory, t: Tid, pc: Pc) {
    forall g: nat, i: nat :: IsLive(m, g, i, t) <==> LockableOf(pc) == Some((g, i))
  }

  ghost predicate OthersStay(m: Memory, m': Memory, t: Tid) {
    forall g: nat, i: nat, u: Tid :: u != t ==> (IsLive(m', g, i, u) <==> IsLive(m, g, i, u))
  }

  lemma ReadMovesLive(m: Memory, m': Memory, t: Tid, pc: Pc, pc': Pc)
    requires Owns(m, t, pc) && LockableOf(pc') == LockableOf(pc) && |m'.pools| == |m.pools|
    requires forall g :: 0 <= g < |m.pools| ==> m'.pools[g].conns == m.pools[g].conns
    ensures Owns(m', t, pc') && OthersStay(m, m', t)
  {
    assert forall g: nat, i: nat, u: Tid :: IsLive(m', g, i, u) <==> IsLive(m, g, i, u);
  }

  /** A step that puts `c` into one place. */
  lemma SetMovesLive(m: Memory, m': Memory, t: Tid, pc: Pc, pc': Pc, g: nat, i: nat, c: Conn)
    requires Owns(m, t, pc) && In(m, g, i)
    requires |m'.pools| == |m.pools| && m'.pools == m.pools[g := m'.pools[g]]
    requires m'.pools[g].conns == m.pools[g].conns[i := c]
    requires m.pools[g].conns[i].Live? ==> m.pools[g].conns[i] == Live(t)
    requires c.Live? ==> c == Live(t)
    requires LockableOf(pc) == (if m.pools[g].conns[i].Live? then Some((g, i)) else None)
    requires LockableOf(pc') == (if c.Live? then Some((g, i)) else None)
    ensures Owns(m', t, pc') && OthersStay(m, m', t)
  {
    forall h: nat, k: nat, u: Tid | (h, k) != (g, i)
      ensures IsLive(m', h, k, u) <==> IsLive(m, h, k, u)
    {
    }
  }

  lemma GrowMovesLive(m: Memory, m': Memory, t: Tid, pc: Pc, pc': Pc, g: nat)
    requires Owns(m, t, pc) && LockableOf(pc') == LockableOf(pc) && g < |m.pools|
    requires |m'.pools| == |m.pools| && m'.pools == m.pools[g := m'.pools[g]]
    requires m'.pools[g].conns == m.pools[g].conns + [Free]
    ensures Owns(m', t, pc') && OthersStay(m, m', t)
  {
    assert forall h: nat, i: nat, u: Tid :: IsLive(m', h, i, u) <==> IsLive(m, h, i, u);
  }

  /** A step that removes connections none of which is live, or adds a pool without any. */
  lemma EmptyMovesLive(m: Memory, m': Memory, t: Tid, pc: Pc, pc': Pc, g: nat)
    requires Owns(m, t, pc) && LockableOf(pc') == LockableOf(pc)
    requires g < |m'.pools| && m'.pools[g].conns == []
    requires g < |m.pools| ==> forall i :: 0 <= i < |m.pools[g].conns| ==> !m.pools[g].conns[i].Live?
    requires |m'.pools| == (if g < |m.pools| then |m.pools| else g + 1) && g <= |m.pools|
    requires forall h :: 0 <= h < |m.pools| && h != g ==> m'.pools[h] == m.pools[h]
    ensures Owns(m', t, pc') && OthersStay(m, m', t)
  {
    assert forall h: nat, i: nat, u: Tid :: IsLive(m', h, i, u) <==> IsLive(m, h, i, u);
  }

  lemma HolderMovesLive(m: Memory, t: Tid, h: Pc)
    requires PoolsOk(m, h) && m.proxyMutex == Some(t) && HoldsProxy(h) && !Failed(h)
    requires !ThreadOp(m, h).Terminate? && Owns(m, t, h) && CanDo(m, ThreadOp(m, h))
    ensures var m' := Do(m, t, ThreadOp(m, h)); Owns(m', t, NextPc(m, h)) && OthersStay(m, m', t)
  {
    var m', h' := Do(m, t, ThreadOp(m, h)), NextPc(m, h);
    match h
    case Scan(g, i) => ScanMovesLive(m, t, h);
    case Take(g, i) => TakeMovesLive(m, t, h);
    case TakeNew(g, i) => TakeMovesLive(m, t, h);
    case ClearTry(g, i) => ClearTryMovesLive(m, t, h);
    case ClearDestroy(g) =>
      assert PoolOk(m.pools[g], g, false, Some(t), h);
      EmptyMovesLive(m, m', t, h, h', g);
    case UseSwap(full) =>
      if full { EmptyMovesLive(m, m', t, h, h', |m.pools|); } else { ReadMovesLive(m, m', t, h, h'); }
    case _ => ReadMovesLive(m, m', t, h, h');
  }

  lemma ScanMovesLive(m: Memory, t: Tid, h: Pc)
    requires PoolsOk(m, h) && m.proxyMutex == Some(t) && Owns(m, t, h) && h.Scan?
    requires CanDo(m, ThreadOp(m, h))
    ensures var m' := Do(m, t, ThreadOp(m, h)); Owns(m', t, NextPc(m, h)) && OthersStay(m, m', t)
  {
    var m', h' := Do(m, t, ThreadOp(m, h)), NextPc(m, h);
    assert PoolOk(m.pools[h.g], h.g, true, Some(t), h);
    if !In(m, h.g, h.i) {
      GrowMovesLive(m, m', t, h, h', h.g);
    } else if m.pools[h.g].conns[h.i] == Free {
      SetMovesLive(m, m', t, h, h', h.g, h.i, PreLocked(t));
    } else {
      ReadMovesLive(m, m', t, h, h');
    }
  }

  lemma TakeMovesLive(m: Memory, t: Tid, h: Pc)
    requires PoolsOk(m, h) && m.proxyMutex == Some(t) && Owns(m, t, h) && (h.Take? || h.TakeNew?)
    requires CanDo(m, ThreadOp(m, h))
    ensures var m' := Do(m, t, ThreadOp(m, h)); Owns(m', t, NextPc(m, h)) && OthersStay(m, m', t)
  {
    var m', h' := Do(m, t, ThreadOp(m, h)), NextPc(m, h);
    assert PoolOk(m.pools[h.g], h.g, true, Some(t), h);
    SetMovesLive(m, m', t, h, h', h.g, h.i, Live(t));
  }

  lemma ClearTryMovesLive(m: Memory, t: Tid, h: Pc)
    requires PoolsOk(m, h) && m.proxyMutex == Some(t) && Owns(m, t, h) && h.ClearTry?
    requires !ThreadOp(m, h).Terminate? && CanDo(m, ThreadOp(m, h))
    ensures var m' := Do(m, t, ThreadOp(m, h)); Owns(m', t, NextPc(m, h)) && OthersStay(m, m', t)
  {
    var m', h' := Do(m, t, ThreadOp(m, h)), NextPc(m, h);
    assert PoolOk(m.pools[h.g], h.g, false, Some(t), h);
    SetMovesLive(m, m', t, h, h', h.g, h.i, PreLocked(t));
  }

  // ---- every step ----

  lemma LiveFollows(s: State, s': State, t: Tid, pc': Pc)
    requires t in s.threads && s'.threads == s.threads[t := pc']
    requires forall u: Tid, g: nat, i: nat :: IsLive(s.mem, g, i, u) <==> Has(s.threads, u, g, i)
    requires Owns(s'.mem, t, pc') && OthersStay(s.mem, s'.mem, t)
    ensures forall u: Tid, g: nat, i: nat :: IsLive(s'.mem, g, i, u) <==> Has(s'.threads, u, g, i)
  {
    forall u: Tid, g: nat, i: nat
      ensures IsLive(s'.mem, g, i, u) <==> Has(s'.threads, u, g, i)
    {
      if u != t {
        assert IsLive(s'.mem, g, i, u) <==> IsLive(s.mem, g, i, u);
        assert Has(s'.threads, u, g, i) <==> Has(s.threads, u, g, i);
      }
    }
  }

  lemma OwnsNow(s: State, t: Tid)
    requires Inv(s) && t in s.threads
    ensures Owns(s.mem, t, s.threads[t])
  {
    forall g: nat, i: nat ensures IsLive(s.mem, g, i, t) <==> LockableOf(s.threads[t]) == Some((g, i)) {
      assert IsLive(s.mem, g, i, t) <==> Has(s.threads, t, g, i);
    }
  }

  lemma HolderKeepsInv(s: State, t: Tid)
    requires Inv(s) && Enabled(s, Inside(t)) && HoldsProxy(s.threads[t])
    requires !ThreadOp(s.mem, s.threads[t]).Terminate?
    ensures Inv(Apply(s, Inside(t)))
  {
    var h := s.threads[t];
    var s' := Apply(s, Inside(t));
    HolderSteps(s.mem, t, h);
    OwnsNow(s, t);
    HolderMovesLive(s.mem, t, h);
    LiveFollows(s, s', t, NextPc(s.mem, h));
    HolderProxy(s.mem, t, h);
    assert ProxyOk(s');
    assert Holder(s') == HolderAfter(s.mem, h);
  }

  lemma HolderProxy(m: Memory, t: Tid, h: Pc)
    requires CanDo(m, ThreadOp(m, h)) && HoldsProxy(h)
    ensures Do(m, t, ThreadOp(m, h)).proxyMutex == (if HoldsProxy(NextPc(m, h)) then m.proxyMutex else None)
  {
  }

  lemma AcquireKeepsInv(s: State, t: Tid)
    requires Inv(s) && Enabled(s, Inside(t)) && (s.threads[t].ArrowLock? || s.threads[t].UseLock?)
    ensures Inv(Apply(s, Inside(t)))
  {
    var s' := Apply(s, Inside(t));
    OwnsNow(s, t);
    ReadMovesLive(s.mem, s'.mem, t, s.threads[t], s'.threads[t]);
    LiveFollows(s, s', t, s'.threads[t]);
    NoPool(s.mem, s'.mem, Idle, s'.threads[t]);
  }

  lemma ReleaseKeepsInv(s: State, t: Tid)
    requires Inv(s) && Enabled(s, Inside(t)) && s.threads[t].Using?
    ensures Inv(Apply(s, Inside(t)))
  {
    var s' := Apply(s, Inside(t));
    var pc := s.threads[t];
    OwnsNow(s, t);
    assert IsLive(s.mem, pc.g, pc.i, t);
    SetMovesLive(s.mem, s'.mem, t, pc, Idle, pc.g, pc.i, Free);
    LiveFollows(s, s', t, Idle);
    ReleaseKeepsPools(s.mem, Holder(s), t, pc.g, pc.i);
  }

  lemma ReleaseKeepsPools(m: Memory, h: Pc, t: Tid, g: nat, i: nat)
    requires PoolsOk(m, h) && IsLive(m, g, i, t)
    requires PoolHeld(h).Some? ==> m.proxyMutex.Some?
    ensures PoolsOk(Do(m, t, Release(g, i)), h)
  {
    var m' := Do(m, t, Release(g, i));
    assert PoolOk(m.pools[g], g, m.current == Some(g), m.proxyMutex, h);
    ReleaseKeepsPool(m.pools[g], g, m.current == Some(g), m.proxyMutex, h, i);
    forall k | 0 <= k < |m'.pools| ensures PoolOk(m'.pools[k], k, m'.current == Some(k), m'.proxyMutex, h) {
      assert PoolOk(m.pools[k], k, m.current == Some(k), m.proxyMutex, h);
    }
  }

  lemma InvokeKeepsInv(s: State, a: Action)
    requires Inv(s) && Enabled(s, a) && !a.Inside?
    ensures Inv(Apply(s, a))
  {
    var s' := Apply(s, a);
    OwnsNow(s, a.t);
    ReadMovesLive(s.mem, s'.mem, a.t, Idle, s'.threads[a.t]);
    LiveFollows(s, s', a.t, s'.threads[a.t]);
    assert Holder(s') == Holder(s);
  }

  lemma KeepsInv(s: State, a: Action)
    requires Inv(s) && Enabled(s, a)
    ensures Inv(Apply(s, a)) || Apply(s, a).mem.terminated
  {
    if a.Inside? {
      var pc := s.threads[a.t];
      if pc.ArrowLock? || pc.UseLock? {
        AcquireKeepsInv(s, a.t);
      } else if pc.Using? {
        ReleaseKeepsInv(s, a.t);
      } else if !ThreadOp(s.mem, pc).Terminate? {
        HolderKeepsInv(s, a.t);
      }
    } else {
      InvokeKeepsInv(s, a);
    }
  }
}
