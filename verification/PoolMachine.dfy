/**
 The connection pool behind the switchable proxy of `languages/cxx/chain_proxy/12-mutex.cpp` as a step machine.

 Any finite number of threads call `Proxy::operator->`, use the connection they get and destroy the `Lockable`,
 or call `Proxy::use`, which destroys the replaced pool. Every lock operation, every `try_lock`, the growth of the
 pool, the hand-over of a pre-lock and every release is a step of its own. No thread nests two acquisitions, and
 `try_lock` does not fail spuriously.
 */
module PoolMachine {
  import opened Prelude

  type Tid = nat

  /**
   An `Exclusive` together with its mutex: the mutex is free, owned by the pre-lock `m_Lock` that a thread
   took, or owned by the `Lockable` that a thread holds.
   */
  datatype Conn = Free | PreLocked(owner: Tid) | Live(owner: Tid)

  datatype Pool = Pool(
    conns: seq<Conn>,        // m_as
    mutex: Option<Tid>,      // m_Mutex
    alive: bool,             // not destroyed yet
    // history
    interrupted: set<nat>,   // the connections that `clear` has interrupted
    peak: nat,               // most `Lockable`s that were live at once
    raced: bool)             // a `Lockable` was destroyed while the pool's mutex was taken

  datatype Memory = Memory(
    proxyMutex: Option<Tid>, // Proxy::m_Mutex
    current: Option<nat>,    // Proxy::m_a, as a position in `pools`
    pools: seq<Pool>,        // every pool ever given to the proxy
    terminated: bool)        // an exception left the destructor of a pool

  datatype Pc =
    | Idle
    // Proxy::operator->, Pool::operator->
    | ArrowLock
    | ArrowTest
    | PoolLock(g: nat)
    | Scan(g: nat, i: nat)
    | Take(g: nat, i: nat)
    | TakeNew(g: nat, i: nat)
    | PoolUnlock(g: nat, i: nat)
    | ProxyUnlock(g: nat, i: nat)
    | EmptyUnlock                     // the proxy is empty: unwinding
    // the caller's expression, at whose end the Lockable is destroyed
    | Using(g: nat, i: nat)
    // Proxy::use, Pool::~Pool, Pool::clear
    | UseLock(full: bool)
    | UseSwap(full: bool)
    | ClearLock(g: nat)
    | ClearInterrupt(g: nat, i: nat)
    | ClearTry(g: nat, i: nat)
    | ClearDestroy(g: nat)
    | UseUnlock
    // the two exceptions of Exclusive
    | AlreadyPreLocked
    | SimultaneousAccess

  datatype State = State(mem: Memory, threads: map<Tid, Pc>)

  // ---- atomic operations ----

  datatype Op =
    | Read
    | LockProxy | UnlockProxy
    | TakePoolMutex(g: nat) | FreePoolMutex(g: nat)
    | TryLock(g: nat, i: nat)
    | Grow(g: nat)
    | SendInterrupt(g: nat, i: nat)
    | MoveLock(g: nat, i: nat)
    | Release(g: nat, i: nat)
    | Swap(full: bool)
    | Destroy(g: nat)
    | Terminate

  predicate In(m: Memory, g: nat, i: nat) {
    g < |m.pools| && i < |m.pools[g].conns|
  }

  predicate CanDo(m: Memory, op: Op) {
    match op
    case LockProxy => m.proxyMutex == None
    case TakePoolMutex(g) => g < |m.pools| && m.pools[g].mutex == None
    case FreePoolMutex(g) => g < |m.pools|
    case TryLock(g, i) => In(m, g, i)
    case Grow(g) => g < |m.pools|
    case SendInterrupt(g, i) => In(m, g, i)
    case MoveLock(g, i) => In(m, g, i)
    case Release(g, i) => In(m, g, i)
    case Destroy(g) => g < |m.pools|
    case _ => true
  }

  function LiveCount(conns: seq<Conn>): nat {
    if conns == [] then 0
    else LiveCount(conns[..|conns| - 1]) + if conns[|conns| - 1].Live? then 1 else 0
  }

  function Max(a: nat, b: nat): nat {
    if a < b then b else a
  }

  function SetConn(p: Pool, i: nat, c: Conn): Pool
    requires i < |p.conns|
  {
    var conns := p.conns[i := c];
    p.(conns := conns, peak := Max(p.peak, LiveCount(conns)))
  }

  function SetPool(m: Memory, g: nat, p: Pool): Memory
    requires g < |m.pools|
  {
    m.(pools := m.pools[g := p])
  }

  /** The effect on memory of operation `op` of thread `t`. */
  function Do(m: Memory, t: Tid, op: Op): Memory
    requires CanDo(m, op)
  {
    match op
    case Read => m
    case LockProxy => m.(proxyMutex := Some(t))
    case UnlockProxy => m.(proxyMutex := None)
    case TakePoolMutex(g) => SetPool(m, g, m.pools[g].(mutex := Some(t)))
    case FreePoolMutex(g) => SetPool(m, g, m.pools[g].(mutex := None))
    case TryLock(g, i) => if m.pools[g].conns[i] == Free then SetPool(m, g, SetConn(m.pools[g], i, PreLocked(t))) else m
    case Grow(g) => SetPool(m, g, m.pools[g].(conns := m.pools[g].conns + [Free]))
    case SendInterrupt(g, i) => SetPool(m, g, m.pools[g].(interrupted := m.pools[g].interrupted + {i}))
    case MoveLock(g, i) =>
      if m.pools[g].conns[i].Live? then m else SetPool(m, g, SetConn(m.pools[g], i, Live(t)))
    case Release(g, i) =>
      SetPool(m, g, SetConn(m.pools[g], i, Free).(raced := m.pools[g].raced || m.pools[g].mutex.Some?))
    case Swap(full) =>
      if full
      then m.(current := Some(|m.pools|), pools := m.pools + [Pool([], None, true, {}, 0, false)])
      else m.(current := None)
    case Destroy(g) => SetPool(m, g, m.pools[g].(conns := [], mutex := None, alive := false))
    case Terminate => m.(terminated := true)
  }

  // ---- threads ----

  /** `Scan` probes the connection at its index, or grows the pool behind the last one. */
  function ThreadOp(m: Memory, pc: Pc): Op {
    match pc
    case ArrowLock => LockProxy
    case PoolLock(g) => TakePoolMutex(g)
    case Scan(g, i) => if In(m, g, i) then TryLock(g, i) else Grow(g)
    case Take(g, i) => MoveLock(g, i)
    case TakeNew(g, i) => MoveLock(g, i)
    case PoolUnlock(g, _) => FreePoolMutex(g)
    case ProxyUnlock(_, _) => UnlockProxy
    case EmptyUnlock => UnlockProxy
    case Using(g, i) => Release(g, i)
    case UseLock(_) => LockProxy
    case UseSwap(full) => Swap(full)
    case ClearLock(g) => TakePoolMutex(g)
    case ClearInterrupt(g, i) => if In(m, g, i) then SendInterrupt(g, i) else Read
    case ClearTry(g, i) => if In(m, g, i) && m.pools[g].conns[i].Live? then Terminate else TryLock(g, i)
    case ClearDestroy(g) => Destroy(g)
    case UseUnlock => UnlockProxy
    case _ => Read
  }

  function NextPc(m: Memory, pc: Pc): Pc {
    match pc
    case Idle => Idle
    case ArrowLock => ArrowTest
    case ArrowTest => if m.current.Some? then PoolLock(m.current.value) else EmptyUnlock
    case PoolLock(g) => Scan(g, 0)
    case Scan(g, i) =>
      if !In(m, g, i) then TakeNew(g, i)
      else match m.pools[g].conns[i] {
        case Free => Take(g, i)
        case PreLocked(_) => AlreadyPreLocked
        case Live(_) => Scan(g, i + 1)
      }
    case Take(g, i) => if In(m, g, i) && m.pools[g].conns[i].Live? then SimultaneousAccess else PoolUnlock(g, i)
    case TakeNew(g, i) => if In(m, g, i) && m.pools[g].conns[i].Live? then SimultaneousAccess else PoolUnlock(g, i)
    case PoolUnlock(g, i) => ProxyUnlock(g, i)
    case ProxyUnlock(g, i) => Using(g, i)
    case EmptyUnlock => Idle
    case Using(_, _) => Idle
    case UseLock(full) => UseSwap(full)
    case UseSwap(_) => if m.current.Some? then ClearLock(m.current.value) else UseUnlock
    case ClearLock(g) => ClearInterrupt(g, 0)
    case ClearInterrupt(g, i) => if In(m, g, i) then ClearTry(g, i) else ClearDestroy(g)
    case ClearTry(g, i) =>
      if In(m, g, i) && m.pools[g].conns[i].PreLocked? then AlreadyPreLocked else ClearInterrupt(g, i + 1)
    case ClearDestroy(_) => UseUnlock
    case UseUnlock => Idle
    case AlreadyPreLocked => AlreadyPreLocked
    case SimultaneousAccess => SimultaneousAccess
  }

  datatype Action = Inside(t: Tid) | InvokeArrow(t: Tid) | InvokeUse(t: Tid, full: bool)

  predicate Enabled(s: State, a: Action) {
    && !s.mem.terminated
    && a.t in s.threads
    && match a
       case Inside(t) =>
         s.threads[t] != Idle && !s.threads[t].AlreadyPreLocked? && !s.threads[t].SimultaneousAccess?
         && CanDo(s.mem, ThreadOp(s.mem, s.threads[t]))
       case _ => s.threads[a.t] == Idle
  }

  function Apply(s: State, a: Action): State
    requires Enabled(s, a)
  {
    match a
    case Inside(t) =>
      State(Do(s.mem, t, ThreadOp(s.mem, s.threads[t])), s.threads[t := NextPc(s.mem, s.threads[t])])
    case InvokeArrow(t) => s.(threads := s.threads[t := ArrowLock])
    case InvokeUse(t, full) => s.(threads := s.threads[t := UseLock(full)])
  }

  /** An empty proxy and idle threads. */
  ghost predicate Init(s: State) {
    && s.mem == Memory(None, None, [], false)
    && forall t <- s.threads :: s.threads[t] == Idle
  }

  ghost predicate Trace(run: seq<State>, actions: seq<Action>) {
    && |run| == |actions| + 1
    && forall i {:trigger actions[i]} :: 0 <= i < |actions| ==>
         Enabled(run[i], actions[i]) && run[i + 1] == Apply(run[i], actions[i])
  }

  ghost predicate Reachable(s: State) {
    exists run, actions :: Trace(run, actions) && Init(run[0]) && run[|actions|] == s
  }
}
