/**
 The DNS-continuation hand-over: retain, release, start-with-token, plain start, stop and
 force-kill, as threads that interleave at every lock acquisition and release.

 Two mutexes are involved.  `poolLock` guards the continuation pool, `registryLock` guards the
 map from handles to running engines.  A program counter (`Pc`) names what a thread is about to do and
 which locks it holds while it does it.  A continuation is represented by the engine whose stop
 fence it shares.

 The fields `issued`, `born`, `killed` and `published` of `Shared` are history: no transition
 reads them, they only let the theorems speak about the past.
 */
module DnsHandover {
  import opened Common
  import opened ContinuationPool

  type Tid = nat
  type Handle = nat
  type Engine = nat
  type Token = nat

  /** The fence shared by an engine's worker and every clone of its continuation. */
  datatype Fence = FenceRunning | FenceStopping | FenceStopped | FenceRevoked

  datatype Phase = WorkerRunning | WorkerStopping | WorkerStopped

  /** `threadInSlot`: the join handle has not been taken.  `exited`: the worker thread is gone. */
  datatype Worker = Worker(phase: Phase, fence: Fence, threadInSlot: bool, exited: bool)

  datatype Grant = Grant(owner: Handle, engine: Engine)

  datatype Shared = Shared(
    pool: Pool<Engine>,
    registry: map<Handle, Engine>,
    workers: seq<Worker>,
    nextHandle: nat,
    poolLock: Option<Tid>,
    registryLock: Option<Tid>,
    // history
    issued: map<Token, Grant>,
    born: map<Handle, Engine>,
    killed: set<Handle>,
    published: map<Handle, Token>)

  /** Laps of the stop reaper before it removes the handle regardless. */
  const STOP_REAP_ATTEMPTS: nat := 40

  datatype Pc =
    // nativeRetainDnsContinuation
    | RetainLookup(h: Handle)
    | RetainLookupIn(h: Handle)                                       // registry
    | RetainWait(h: Handle, e: Engine)
    | RetainPool(h: Handle, e: Engine)                                // pool
    | RetainBoth(h: Handle, e: Engine)                                // pool, registry
    | RetainDecide(h: Handle, e: Engine, current: bool)               // pool
    // nativeReleaseDnsContinuation
    | ReleaseWait(t: Token)
    | ReleaseIn(t: Token)                                             // pool
    // nativeStartOnNetworkWithDnsContinuity
    | BorrowWait(t: Token)
    | BorrowIn(t: Token)                                              // pool
    | BorrowCheck(t: Token, c: Engine)
    | StartImport(t: Token, c: Engine)
    | StartVerify(t: Token, c: Engine, e: Engine)
    | StartHandle(t: Token, c: Engine, e: Engine)
    | CommitWait(t: Token, c: Engine, e: Engine, h: Handle)
    | CommitIn(t: Token, c: Engine, e: Engine, h: Handle)             // pool
    | CommitRegistry(t: Token, c: Engine, e: Engine, h: Handle)       // pool
    | CommitBoth(t: Token, c: Engine, e: Engine, h: Handle)           // pool, registry
    | RetireStop(e: Engine)
    | RetireKill(e: Engine)
    // a start without a continuation
    | PlainCreate
    | PlainHandle(e: Engine)
    | PlainWait(e: Engine, h: Handle)
    | PlainIn(e: Engine, h: Handle)                                   // registry
    // nativeForceKill
    | KillWait(h: Handle)
    | KillIn(h: Handle)                                               // registry
    | KillPoolWait(h: Handle, found: Option<Engine>)
    | KillPoolIn(h: Handle, found: Option<Engine>)                    // pool
    | KillRevoke(found: Option<Engine>, revoked: Option<Engine>)
    | KillAbandon(e: Engine)
    // nativeStop and its reaper
    | StopWait(h: Handle)
    | StopIn(h: Handle)                                               // registry
    | StopBegin(h: Handle, e: Engine, laps: nat)
    | StopJoin(h: Handle, e: Engine, laps: nat)
    | StopFence(h: Handle, e: Engine)
    | StopRemoveWait(h: Handle)
    | StopRemoveIn(h: Handle)                                         // registry
    | Finished

  predicate HoldsPool(pc: Pc) {
    pc.RetainPool? || pc.RetainBoth? || pc.RetainDecide? || pc.ReleaseIn? || pc.BorrowIn?
    || pc.CommitIn? || pc.CommitRegistry? || pc.CommitBoth? || pc.KillPoolIn?
  }

  predicate HoldsRegistry(pc: Pc) {
    pc.RetainLookupIn? || pc.RetainBoth? || pc.CommitBoth? || pc.PlainIn? || pc.KillIn?
    || pc.StopIn? || pc.StopRemoveIn?
  }

  predicate WantsPool(pc: Pc) {
    pc.RetainWait? || pc.ReleaseWait? || pc.BorrowWait? || pc.CommitWait? || pc.KillPoolWait?
  }

  predicate WantsRegistry(pc: Pc) {
    pc.RetainLookup? || pc.RetainPool? || pc.CommitRegistry? || pc.PlainWait? || pc.KillWait?
    || pc.StopWait? || pc.StopRemoveWait?
  }

  /** Where a native call starts.  Non-positive handles and tokens are refused before anything is locked. */
  predicate IsEntry(pc: Pc) {
    || ((pc.RetainLookup? || pc.KillWait? || pc.StopWait?) && pc.h > 0)
    || ((pc.ReleaseWait? || pc.BorrowWait?) && pc.t > 0)
    || pc.PlainCreate?
  }

  // ---------------------------------------------------------------------------------------
  // Transitions
  // ---------------------------------------------------------------------------------------

  /** What one step does to the shared state, locks aside. */
  datatype Effect =
    | Quiet
    | Issue(h: Handle, e: Engine)                 // pool: a lease is retained
    | Drop(t: Token)                              // pool: a lease is released
    | Kill(h: Handle, found: bool)                // pool: every lease of `h` is revoked
    | Put(h: Handle, e: Engine)                   // registry: an engine is published
    | PutSuccessor(h: Handle, e: Engine, t: Token)
    | Take(h: Handle)                             // registry: a handle is removed
    | Create                                      // a worker starts
    | Draw                                        // a handle number is drawn
    | Work(e: Engine, w: Worker)                  // a worker's atomics change

  const NewWorker := Worker(WorkerRunning, FenceRunning, true, false)

  function Apply(sh: Shared, effect: Effect): Shared
    requires effect.Work? ==> effect.e < |sh.workers|
  {
    match effect
    case Quiet => sh
    case Issue(h, e) => sh.(pool := Retain(sh.pool, h, e), issued := sh.issued[sh.pool.nextToken := Grant(h, e)])
    case Drop(t) => sh.(pool := Release(sh.pool, t))
    case Kill(h, found) =>
      sh.(pool := RevokeOwner(sh.pool, h), killed := if found then sh.killed + {h} else sh.killed)
    case Put(h, e) => sh.(registry := sh.registry[h := e], born := sh.born[h := e])
    case PutSuccessor(h, e, t) =>
      sh.(registry := sh.registry[h := e], born := sh.born[h := e], published := sh.published[h := t])
    case Take(h) => sh.(registry := sh.registry - {h})
    case Create => sh.(workers := sh.workers + [NewWorker])
    case Draw => sh.(nextHandle := sh.nextHandle + 1)
    case Work(e, w) => sh.(workers := sh.workers[e := w])
  }

  predicate Ready(sh: Shared, c: Engine) {
    c < |sh.workers| && sh.workers[c].fence == FenceStopped
  }

  /** First half of a stop that is not one too many: the fence is moved on only if nobody revoked it. */
  function Stopping(w: Worker): Worker {
    if w.phase == WorkerStopped then w
    else w.(phase := WorkerStopping, fence := if w.fence == FenceRunning then FenceStopping else w.fence)
  }

  /** Second half, after the join; again a revocation is not undone. */
  function Joined(w: Worker): Worker {
    w.(fence := if w.fence == FenceStopping then FenceStopped else w.fence)
  }

  /** `RuntimeWorker::abandon`. */
  function Abandon(w: Worker): Worker {
    var revoked := w.(fence := FenceRevoked);
    if w.phase == WorkerStopped || !w.threadInSlot then revoked
    else if w.exited then revoked.(threadInSlot := false, phase := WorkerStopped)
    else revoked.(threadInSlot := false, phase := WorkerStopping)
  }

  /** Taking the lock a program counter waits for. */
  function Acquired(pc: Pc): Pc
    requires WantsPool(pc) || WantsRegistry(pc)
  {
    match pc
    case RetainLookup(h) => RetainLookupIn(h)
    case RetainWait(h, e) => RetainPool(h, e)
    case RetainPool(h, e) => RetainBoth(h, e)
    case ReleaseWait(t) => ReleaseIn(t)
    case BorrowWait(t) => BorrowIn(t)
    case CommitWait(t, c, e, h) => CommitIn(t, c, e, h)
    case CommitRegistry(t, c, e, h) => CommitBoth(t, c, e, h)
    case PlainWait(e, h) => PlainIn(e, h)
    case KillWait(h) => KillIn(h)
    case KillPoolWait(h, found) => KillPoolIn(h, found)
    case StopWait(h) => StopIn(h)
    case StopRemoveWait(h) => StopRemoveIn(h)
  }

  /** The engines whose workers the next step touches exist. */
  predicate KnowsEngines(sh: Shared, pc: Pc) {
    match pc
    case RetireStop(e) => e < |sh.workers|
    case RetireKill(e) => e < |sh.workers|
    case KillRevoke(_, revoked) => revoked.Some? ==> revoked.value < |sh.workers|
    case KillAbandon(e) => e < |sh.workers|
    case StopBegin(_, e, _) => e < |sh.workers|
    case StopJoin(_, e, _) => e < |sh.workers|
    case StopFence(_, e) => e < |sh.workers|
    case _ => true
  }

  predicate IsRetain(pc: Pc) {
    pc.RetainLookupIn? || pc.RetainBoth? || pc.RetainDecide? || pc.ReleaseIn?
  }

  function DecideRetain(sh: Shared, pc: Pc): (Effect, Pc)
    requires IsRetain(pc)
  {
    match pc
    case RetainLookupIn(h) => (Quiet, if h in sh.registry then RetainWait(h, sh.registry[h]) else Finished)
    case RetainBoth(h, e) => (Quiet, RetainDecide(h, e, h in sh.registry && sh.registry[h] == e))
    case RetainDecide(h, e, current) =>
      (if current && RetainError(sh.pool, h).None? then Issue(h, e) else Quiet, Finished)
    case ReleaseIn(t) => (Drop(t), Finished)
  }

  predicate IsBorrow(pc: Pc) {
    pc.BorrowIn? || pc.BorrowCheck? || pc.StartImport? || pc.StartVerify? || pc.StartHandle?
  }

  /** `next_handle` skips what does not fit a `jlong`, so the caller goes round again. */
  predicate HandleFits(sh: Shared) {
    0 < sh.nextHandle <= MAX_I64
  }

  /** `choice` stands for what the environment decides: whether an engine starts, whether a stop joins. */
  function DecideBorrow(sh: Shared, pc: Pc, choice: bool): (Effect, Pc)
    requires IsBorrow(pc)
  {
    match pc
    case BorrowIn(t) =>
      var c := CloneForStart(sh.pool, t);
      (Quiet, if c.Some? then BorrowCheck(t, c.value) else Finished)
    case BorrowCheck(t, c) => (Quiet, if Ready(sh, c) then StartImport(t, c) else Finished)
    case StartImport(t, c) =>
      if Ready(sh, c) && choice then (Create, StartVerify(t, c, |sh.workers|)) else (Quiet, Finished)
    case StartVerify(t, c, e) => (Quiet, if Ready(sh, c) then StartHandle(t, c, e) else RetireStop(e))
    case StartHandle(t, c, e) => (Draw, if HandleFits(sh) then CommitWait(t, c, e, sh.nextHandle) else pc)
  }

  predicate IsCommit(pc: Pc) {
    pc.CommitIn? || pc.CommitBoth? || pc.RetireStop? || pc.RetireKill? || pc.PlainCreate? || pc.PlainHandle? || pc.PlainIn?
  }

  function DecideCommit(sh: Shared, pc: Pc, choice: bool): (Effect, Pc)
    requires IsCommit(pc) && KnowsEngines(sh, pc)
  {
    match pc
    case CommitIn(t, c, e, h) =>
      (Quiet, if Contains(sh.pool, t) && Ready(sh, c) then CommitRegistry(t, c, e, h) else RetireStop(e))
    case CommitBoth(t, c, e, h) => (PutSuccessor(h, e, t), Finished)
    case RetireStop(e) =>
      var w := Stopping(sh.workers[e]);
      if choice && w.exited then (Work(e, Joined(w.(phase := WorkerStopped, threadInSlot := false))), Finished)
      else (Work(e, w), RetireKill(e))
    case RetireKill(e) => (Work(e, Abandon(sh.workers[e])), Finished)
    case PlainCreate => if choice then (Create, PlainHandle(|sh.workers|)) else (Quiet, Finished)
    case PlainHandle(e) => (Draw, if HandleFits(sh) then PlainWait(e, sh.nextHandle) else pc)
    case PlainIn(e, h) => (Put(h, e), Finished)
  }

  predicate IsKill(pc: Pc) {
    pc.KillIn? || pc.KillPoolIn? || pc.KillRevoke? || pc.KillAbandon?
  }

  function DecideKill(sh: Shared, pc: Pc): (Effect, Pc)
    requires IsKill(pc) && KnowsEngines(sh, pc)
  {
    match pc
    case KillIn(h) => (Take(h), KillPoolWait(h, if h in sh.registry then Some(sh.registry[h]) else None))
    case KillPoolIn(h, found) =>
      (Kill(h, found.Some?),
       KillRevoke(found, if OwnedBy(sh.pool, h) then Some(sh.pool.lease.value.continuation) else None))
    case KillRevoke(found, revoked) =>
      (if revoked.Some? then Work(revoked.value, sh.workers[revoked.value].(fence := FenceRevoked)) else Quiet,
       if found.Some? then KillAbandon(found.value) else Finished)
    case KillAbandon(e) => (Work(e, Abandon(sh.workers[e])), Finished)
  }

  predicate IsStop(pc: Pc) {
    pc.StopIn? || pc.StopBegin? || pc.StopJoin? || pc.StopFence? || pc.StopRemoveIn?
  }

  function DecideStop(sh: Shared, pc: Pc, choice: bool): (Effect, Pc)
    requires IsStop(pc) && KnowsEngines(sh, pc)
  {
    match pc
    case StopIn(h) => (Quiet, if h in sh.registry then StopBegin(h, sh.registry[h], 0) else Finished)
    case StopBegin(h, e, laps) =>
      if sh.workers[e].phase == WorkerStopped then (Quiet, StopRemoveWait(h))
      else (Work(e, Stopping(sh.workers[e])), StopJoin(h, e, laps))
    case StopJoin(h, e, laps) =>
      var w := sh.workers[e];
      if choice && w.exited then
        (Work(e, w.(phase := WorkerStopped, threadInSlot := false)),
         if w.threadInSlot then StopFence(h, e) else StopRemoveWait(h))
      else (Quiet, if laps < STOP_REAP_ATTEMPTS then StopBegin(h, e, laps + 1) else StopRemoveWait(h))
    case StopFence(h, e) => (Work(e, Joined(sh.workers[e])), StopRemoveWait(h))
    case StopRemoveIn(h) => (Take(h), Finished)
  }

  predicate Enabled(sh: Shared, pc: Pc) {
    && !pc.Finished?
    && (WantsPool(pc) ==> sh.poolLock.None?)
    && (WantsRegistry(pc) ==> sh.registryLock.None?)
  }

  function Decide(sh: Shared, pc: Pc, choice: bool): (Effect, Pc)
    requires Enabled(sh, pc) && KnowsEngines(sh, pc)
  {
    if WantsPool(pc) || WantsRegistry(pc) then (Quiet, Acquired(pc))
    else if IsRetain(pc) then DecideRetain(sh, pc)
    else if IsBorrow(pc) then DecideBorrow(sh, pc, choice)
    else if IsCommit(pc) then DecideCommit(sh, pc, choice)
    else if IsKill(pc) then DecideKill(sh, pc)
    else DecideStop(sh, pc, choice)
  }

  /** The owner of a lock after thread `tid` moved from holding it (or not) to holding it (or not). */
  function Relock(lock: Option<Tid>, tid: Tid, before: bool, after: bool): Option<Tid> {
    if after then Some(tid) else if before then None else lock
  }

  function Relocked(sh: Shared, tid: Tid, pc: Pc, pc': Pc): Shared {
    sh.(poolLock := Relock(sh.poolLock, tid, HoldsPool(pc), HoldsPool(pc')),
        registryLock := Relock(sh.registryLock, tid, HoldsRegistry(pc), HoldsRegistry(pc')))
  }

  // ---------------------------------------------------------------------------------------
  // Whole systems
  // ---------------------------------------------------------------------------------------

  datatype Sys = Sys(sh: Shared, threads: map<Tid, Pc>)

  datatype Step =
    | Spawn(tid: Tid, entry: Pc)          // a native call arrives on a new thread
    | WorkerExits(engine: Engine)         // a worker thread ends
    | Run(tid: Tid, choice: bool)         // one thread takes one step

  predicate CanStep(s: Sys, step: Step) {
    match step
    case Spawn(tid, entry) => tid !in s.threads && IsEntry(entry)
    case WorkerExits(e) => e < |s.sh.workers|
    case Run(tid, choice) =>
      && tid in s.threads && KnowsEngines(s.sh, s.threads[tid]) && Enabled(s.sh, s.threads[tid])
      && WorksOnKnown(s.sh, Decide(s.sh, s.threads[tid], choice).0)
  }

  predicate WorksOnKnown(sh: Shared, effect: Effect) {
    effect.Work? ==> effect.e < |sh.workers|
  }

  function Next(s: Sys, step: Step): Sys
    requires CanStep(s, step)
  {
    match step
    case Spawn(tid, entry) => s.(threads := s.threads[tid := entry])
    case WorkerExits(e) => s.(sh := Apply(s.sh, Work(e, s.sh.workers[e].(exited := true))))
    case Run(tid, choice) =>
      var pc := s.threads[tid];
      var (effect, pc') := Decide(s.sh, pc, choice);
      Sys(Relocked(Apply(s.sh, effect), tid, pc, pc'), s.threads[tid := pc'])
  }

  const Boot := Sys(Shared(EmptyPool(), map[], [], 1, None, None, map[], map[], {}, map[]), map[])

  ghost predicate Follows(s: Sys, s': Sys) {
    exists step :: CanStep(s, step) && s' == Next(s, step)
  }

  /** A run: the boot state, then one state per step of some thread. */
  ghost predicate IsRun(states: seq<Sys>) {
    && |states| > 0
    && states[0] == Boot
    && forall i :: 0 < i < |states| ==> FollowsAt(states, i)
  }

  ghost predicate FollowsAt(states: seq<Sys>, i: nat)
    requires 0 < i < |states|
  {
    Follows(states[i - 1], states[i])
  }

  // ---------------------------------------------------------------------------------------
  // The invariant
  // ---------------------------------------------------------------------------------------

  predicate GrantsInv(sh: Shared) {
    && sh.pool.nextToken >= 1
    && (forall t :: t in sh.issued ==>
          1 <= t < sh.pool.nextToken && sh.issued[t].engine < |sh.workers| && Hosted(sh, sh.issued[t].owner, sh.issued[t].engine))
    && (sh.pool.lease.Some? ==>
          var l := sh.pool.lease.value;
          l.token in sh.issued && sh.issued[l.token] == Grant(l.owner, l.continuation) && l.owner !in sh.killed)
  }

  predicate HandlesInv(sh: Shared) {
    && sh.nextHandle >= 1
    && (forall h :: h in sh.registry ==> Hosted(sh, h, sh.registry[h]) && h !in sh.killed && sh.registry[h] < |sh.workers|)
    && (forall h :: h in sh.born ==> 0 < h < sh.nextHandle && h <= MAX_I64)
    && (forall h :: h in sh.killed ==> h in sh.born)
  }

  /** Handle `h` was given to engine `e` when it was published. */
  predicate Hosted(sh: Shared, h: Handle, e: Engine) {
    h in sh.born && sh.born[h] == e
  }

  /** No overlap: the predecessor of every published successor has exited. */
  predicate SuccessionInv(sh: Shared) {
    && (forall h :: h in sh.published ==> h in sh.born && PredecessorExited(sh, sh.published[h]))
    && (forall e :: 0 <= e < |sh.workers| ==> WorkerInv(sh.workers[e]))
  }

  predicate PredecessorExited(sh: Shared, t: Token) {
    t in sh.issued && sh.issued[t].engine < |sh.workers| && sh.workers[sh.issued[t].engine].exited
  }

  predicate WorkerInv(w: Worker) {
    && (w.fence == FenceStopped ==> w.exited)
    && (w.phase.WorkerStopped? ==> w.exited && !w.threadInSlot)
    && (!w.threadInSlot ==> !w.phase.WorkerRunning?)
    && (!w.phase.WorkerRunning? ==> !w.fence.FenceRunning?)
  }

  predicate SharedInv(sh: Shared) {
    GrantsInv(sh) && HandlesInv(sh) && SuccessionInv(sh)
  }

  predicate Fresh(sh: Shared, h: Handle) {
    0 < h < sh.nextHandle && h <= MAX_I64 && h !in sh.born
  }

  predicate Granted(sh: Shared, t: Token, c: Engine) {
    t in sh.issued && sh.issued[t].engine == c
  }

  predicate IsEngine(sh: Shared, e: Engine) {
    e < |sh.workers|
  }

  predicate IsEngineIf(sh: Shared, e: Option<Engine>) {
    e.Some? ==> e.value < |sh.workers|
  }

  /** What a thread may rely on at each of its program counters, whatever the others do. */
  predicate Facts(sh: Shared, pc: Pc) {
    match pc
    case RetainWait(_, e) => IsEngine(sh, e)
    case RetainPool(_, e) => IsEngine(sh, e)
    case RetainBoth(_, e) => IsEngine(sh, e)
    case RetainDecide(h, e, current) => IsEngine(sh, e) && (current ==> h !in sh.killed && Hosted(sh, h, e))
    case BorrowCheck(t, c) => Granted(sh, t, c)
    case StartImport(t, c) => Granted(sh, t, c)
    case StartVerify(t, c, e) => IsEngine(sh, e) && Granted(sh, t, c)
    case StartHandle(t, c, e) => IsEngine(sh, e) && Granted(sh, t, c)
    case CommitWait(t, c, e, h) => IsEngine(sh, e) && Granted(sh, t, c) && Fresh(sh, h)
    case CommitIn(t, c, e, h) => IsEngine(sh, e) && Granted(sh, t, c) && Fresh(sh, h)
    case CommitRegistry(t, c, e, h) => IsEngine(sh, e) && Granted(sh, t, c) && Fresh(sh, h) && Committing(sh, t)
    case CommitBoth(t, c, e, h) => IsEngine(sh, e) && Granted(sh, t, c) && Fresh(sh, h) && Committing(sh, t)
    case RetireStop(e) => IsEngine(sh, e)
    case RetireKill(e) => IsEngine(sh, e)
    case PlainHandle(e) => IsEngine(sh, e)
    case PlainWait(e, h) => IsEngine(sh, e) && Fresh(sh, h)
    case PlainIn(e, h) => IsEngine(sh, e) && Fresh(sh, h)
    case KillPoolWait(h, found) => IsEngineIf(sh, found) && (found.Some? ==> Removed(sh, h))
    case KillPoolIn(h, found) => IsEngineIf(sh, found) && (found.Some? ==> Removed(sh, h))
    case KillRevoke(found, revoked) => IsEngineIf(sh, found) && IsEngineIf(sh, revoked)
    case KillAbandon(e) => IsEngine(sh, e)
    case StopBegin(_, e, _) => IsEngine(sh, e)
    case StopJoin(_, e, _) => IsEngine(sh, e) && !sh.workers[e].phase.WorkerRunning?
    case StopFence(_, e) => IsEngine(sh, e) && !sh.workers[e].phase.WorkerRunning? && sh.workers[e].exited
    case _ => true
  }

  /** A handle that was in the registry and is not any more. */
  predicate Removed(sh: Shared, h: Handle) {
    h in sh.born && h !in sh.registry
  }

  predicate Committing(sh: Shared, t: Token) {
    Contains(sh.pool, t) && PredecessorExited(sh, t)
  }

  predicate LocksAgree(sh: Shared, tid: Tid, pc: Pc) {
    && (HoldsPool(pc) <==> sh.poolLock == Some(tid))
    && (HoldsRegistry(pc) <==> sh.registryLock == Some(tid))
  }

  /** The handle a start has drawn but not inserted yet. */
  function Pending(pc: Pc): Option<Handle> {
    match pc
    case CommitWait(_, _, _, h) => Some(h)
    case CommitIn(_, _, _, h) => Some(h)
    case CommitRegistry(_, _, _, h) => Some(h)
    case CommitBoth(_, _, _, h) => Some(h)
    case PlainWait(_, h) => Some(h)
    case PlainIn(_, h) => Some(h)
    case _ => None
  }

  ghost predicate Inv(s: Sys) {
    && SharedInv(s.sh)
    && (forall tid :: tid in s.threads ==> LocksAgree(s.sh, tid, s.threads[tid]) && Facts(s.sh, s.threads[tid]))
    && (s.sh.poolLock.Some? ==> s.sh.poolLock.value in s.threads)
    && (s.sh.registryLock.Some? ==> s.sh.registryLock.value in s.threads)
    && PendingDistinct(s.threads)
  }

  ghost predicate PendingDistinct(threads: map<Tid, Pc>) {
    forall a, b :: a in threads && b in threads && a != b && Pending(threads[a]).Some?
      ==> Pending(threads[a]) != Pending(threads[b])
  }

  // ---------------------------------------------------------------------------------------
  // What any two states of a run have to do with each other
  // ---------------------------------------------------------------------------------------

  /** The order in which a fence may move: nothing leaves `FenceRevoked`. */
  predicate FenceMoves(f: Fence, f': Fence) {
    match f
    case FenceRunning => true
    case FenceStopping => !f'.FenceRunning?
    case FenceStopped => f'.FenceStopped? || f'.FenceRevoked?
    case FenceRevoked => f'.FenceRevoked?
  }

  predicate WorkerMoves(w: Worker, w': Worker) {
    && FenceMoves(w.fence, w'.fence)
    && (w.exited ==> w'.exited)
    && (!w.phase.WorkerRunning? ==> !w'.phase.WorkerRunning?)
    && (w.phase.WorkerStopped? ==> w'.phase.WorkerStopped?)
    && (!w.threadInSlot ==> !w'.threadInSlot)
  }

  predicate WorkersMove(sh: Shared, sh': Shared) {
    && |sh.workers| <= |sh'.workers|
    && (forall e :: 0 <= e < |sh.workers| ==> WorkerMoves(sh.workers[e], sh'.workers[e]))
  }

  /** Tokens are never reissued, and a token that left the pool never comes back. */
  predicate TokensMove(sh: Shared, sh': Shared) {
    && sh.pool.nextToken <= sh'.pool.nextToken
    && (forall t :: t in sh.issued ==> t in sh'.issued && sh'.issued[t] == sh.issued[t])
    && (sh'.pool.lease.Some? && sh'.pool.lease.value.token < sh.pool.nextToken ==> sh'.pool.lease == sh.pool.lease)
  }

  /** Handles are never reused, and a removed handle never comes back. */
  predicate HandlesMove(sh: Shared, sh': Shared) {
    && sh.nextHandle <= sh'.nextHandle
    && (forall h :: h in sh.born ==> Hosted(sh', h, sh.born[h]))
    && sh.killed <= sh'.killed
    && (forall h :: h in sh.born && h in sh'.registry ==> h in sh.registry && sh'.registry[h] == sh.registry[h])
  }

  /** Whatever was published in between came from a token whose owner was not killed before. */
  predicate PublicationsMove(sh: Shared, sh': Shared) {
    && (forall h :: h in sh.published ==> h in sh'.published && sh'.published[h] == sh.published[h])
    && (forall h :: h in sh'.published && h !in sh.published ==> OwnerSpared(sh', sh'.published[h], sh.killed))
  }

  predicate OwnerSpared(sh: Shared, t: Token, killed: set<Handle>) {
    t in sh.issued && sh.issued[t].owner !in killed
  }

  predicate Moves(sh: Shared, sh': Shared) {
    WorkersMove(sh, sh') && TokensMove(sh, sh') && HandlesMove(sh, sh') && PublicationsMove(sh, sh')
  }

  /** When an effect may happen. */
  predicate Allowed(sh: Shared, effect: Effect) {
    match effect
    case Quiet => true
    case Issue(h, e) => RetainError(sh.pool, h).None? && h !in sh.killed && IsEngine(sh, e) && Hosted(sh, h, e)
    case Drop(_) => true
    case Kill(h, found) => found ==> Removed(sh, h)
    case Put(h, e) => Fresh(sh, h) && IsEngine(sh, e)
    case PutSuccessor(h, e, t) => Fresh(sh, h) && IsEngine(sh, e) && Committing(sh, t)
    case Take(_) => true
    case Create => true
    case Draw => true
    case Work(e, w) => e < |sh.workers| && WorkerMoves(sh.workers[e], w) && WorkerInv(w)
  }

  lemma EffectKeepsGrants(sh: Shared, effect: Effect)
    requires SharedInv(sh) && Allowed(sh, effect)
    ensures GrantsInv(Apply(sh, effect)) && TokensMove(sh, Apply(sh, effect))
  {}

  lemma EffectKeepsHandles(sh: Shared, effect: Effect)
    requires SharedInv(sh) && Allowed(sh, effect)
    ensures HandlesInv(Apply(sh, effect)) && HandlesMove(sh, Apply(sh, effect))
  {
    if effect.Put? || effect.PutSuccessor? { PublicationKeepsHandles(sh, effect); }
  }

  lemma PublicationKeepsHandles(sh: Shared, effect: Effect)
    requires HandlesInv(sh) && Allowed(sh, effect) && (effect.Put? || effect.PutSuccessor?)
    ensures HandlesInv(Apply(sh, effect)) && HandlesMove(sh, Apply(sh, effect))
  {}

  lemma EffectKeepsSuccession(sh: Shared, effect: Effect)
    requires SharedInv(sh) && Allowed(sh, effect)
    ensures SuccessionInv(Apply(sh, effect))
    ensures WorkersMove(sh, Apply(sh, effect)) && PublicationsMove(sh, Apply(sh, effect))
  {
    match effect
    case Work(_, _) => WorkKeepsSuccession(sh, effect);
    case PutSuccessor(_, _, _) => PublicationKeepsSuccession(sh, effect);
    case _ =>
  }

  lemma WorkKeepsSuccession(sh: Shared, effect: Effect)
    requires SuccessionInv(sh) && Allowed(sh, effect) && effect.Work?
    ensures SuccessionInv(Apply(sh, effect))
    ensures WorkersMove(sh, Apply(sh, effect)) && PublicationsMove(sh, Apply(sh, effect))
  {
    var sh' := Apply(sh, effect);
    forall h | h in sh'.published ensures PredecessorExited(sh', sh'.published[h]) {
      assert PredecessorExited(sh, sh.published[h]);
    }
  }

  lemma PublicationKeepsSuccession(sh: Shared, effect: Effect)
    requires SuccessionInv(sh) && GrantsInv(sh) && Allowed(sh, effect) && effect.PutSuccessor?
    ensures SuccessionInv(Apply(sh, effect))
    ensures WorkersMove(sh, Apply(sh, effect)) && PublicationsMove(sh, Apply(sh, effect))
  {}

  lemma EffectKeeps(sh: Shared, effect: Effect)
    requires SharedInv(sh) && Allowed(sh, effect)
    ensures SharedInv(Apply(sh, effect)) && Moves(sh, Apply(sh, effect))
  {
    EffectKeepsGrants(sh, effect);
    EffectKeepsHandles(sh, effect);
    EffectKeepsSuccession(sh, effect);
  }

  // Each program counter only asks for effects that are allowed, and its successor's facts hold after them.

  lemma RetainStep(sh: Shared, pc: Pc)
    requires SharedInv(sh) && Facts(sh, pc) && IsRetain(pc)
    ensures var (effect, pc') := DecideRetain(sh, pc); Allowed(sh, effect) && Facts(Apply(sh, effect), pc')
  {}

  lemma BorrowStep(sh: Shared, pc: Pc, choice: bool)
    requires SharedInv(sh) && Facts(sh, pc) && IsBorrow(pc)
    ensures var (effect, pc') := DecideBorrow(sh, pc, choice); Allowed(sh, effect) && Facts(Apply(sh, effect), pc')
  {}

  lemma CommitStep(sh: Shared, pc: Pc, choice: bool)
    requires SharedInv(sh) && Facts(sh, pc) && IsCommit(pc) && !pc.RetireStop? && !pc.RetireKill?
    ensures var (effect, pc') := DecideCommit(sh, pc, choice); Allowed(sh, effect) && Facts(Apply(sh, effect), pc')
  {}

  lemma RetireStep(sh: Shared, pc: Pc, choice: bool)
    requires SharedInv(sh) && Facts(sh, pc) && (pc.RetireStop? || pc.RetireKill?)
    ensures var (effect, pc') := DecideCommit(sh, pc, choice); Allowed(sh, effect) && Facts(Apply(sh, effect), pc')
  {
    assert WorkerInv(sh.workers[pc.e]);
  }

  lemma KillStep(sh: Shared, pc: Pc)
    requires SharedInv(sh) && Facts(sh, pc) && IsKill(pc)
    ensures var (effect, pc') := DecideKill(sh, pc); Allowed(sh, effect) && Facts(Apply(sh, effect), pc')
  {}

  lemma StopStep(sh: Shared, pc: Pc, choice: bool)
    requires SharedInv(sh) && Facts(sh, pc) && IsStop(pc) && !pc.StopJoin? && !pc.StopFence?
    ensures var (effect, pc') := DecideStop(sh, pc, choice); Allowed(sh, effect) && Facts(Apply(sh, effect), pc')
  {}

  lemma JoinStep(sh: Shared, pc: Pc, choice: bool)
    requires SharedInv(sh) && Facts(sh, pc) && (pc.StopJoin? || pc.StopFence?)
    ensures var (effect, pc') := DecideStop(sh, pc, choice); Allowed(sh, effect) && Facts(Apply(sh, effect), pc')
  {
    assert WorkerInv(sh.workers[pc.e]);
  }

  lemma AcquireStep(sh: Shared, pc: Pc)
    requires Facts(sh, pc) && (WantsPool(pc) || WantsRegistry(pc))
    ensures Facts(sh, Acquired(pc))
  {}

  lemma DecideStep(sh: Shared, pc: Pc, choice: bool)
    requires SharedInv(sh) && Facts(sh, pc) && Enabled(sh, pc)
    ensures var (effect, pc') := Decide(sh, pc, choice); Allowed(sh, effect) && Facts(Apply(sh, effect), pc')
  {
    if WantsPool(pc) || WantsRegistry(pc) { AcquireStep(sh, pc);
    } else if IsRetain(pc) { RetainStep(sh, pc);
    } else if IsBorrow(pc) { BorrowStep(sh, pc, choice);
    } else if pc.RetireStop? || pc.RetireKill? { RetireStep(sh, pc, choice);
    } else if IsCommit(pc) { CommitStep(sh, pc, choice);
    } else if IsKill(pc) { KillStep(sh, pc);
    } else if pc.StopJoin? || pc.StopFence? { JoinStep(sh, pc, choice);
    } else { StopStep(sh, pc, choice); }
  }

  predicate TouchesPool(effect: Effect) {
    effect.Issue? || effect.Drop? || effect.Kill?
  }

  function Inserts(effect: Effect): Option<Handle> {
    if effect.Put? || effect.PutSuccessor? then Some(effect.h) else None
  }

  /**
   Pool effects happen only under the pool lock, only the thread that drew a handle inserts it, a handle that
   becomes pending is the one drawn just now, and no lock is held that was not held or waited for.
   */
  predicate Disciplined(sh: Shared, pc: Pc, effect: Effect, pc': Pc) {
    && (TouchesPool(effect) ==> HoldsPool(pc))
    && (Inserts(effect).Some? ==> Inserts(effect) == Pending(pc) && Pending(pc').None?)
    && (Pending(pc').Some? ==> Pending(pc') == Pending(pc) || Pending(pc') == Some(sh.nextHandle))
    && (HoldsPool(pc') ==> HoldsPool(pc) || WantsPool(pc))
    && (HoldsRegistry(pc') ==> HoldsRegistry(pc) || WantsRegistry(pc))
  }

  lemma AcquiringIsDisciplined(sh: Shared, pc: Pc)
    requires WantsPool(pc) || WantsRegistry(pc)
    ensures Disciplined(sh, pc, Quiet, Acquired(pc))
  {}

  lemma RetainIsDisciplined(sh: Shared, pc: Pc)
    requires IsRetain(pc)
    ensures var (effect, pc') := DecideRetain(sh, pc); Disciplined(sh, pc, effect, pc')
  {}

  lemma BorrowIsDisciplined(sh: Shared, pc: Pc, choice: bool)
    requires IsBorrow(pc)
    ensures var (effect, pc') := DecideBorrow(sh, pc, choice); Disciplined(sh, pc, effect, pc')
  {}

  lemma CommitIsDisciplined(sh: Shared, pc: Pc, choice: bool)
    requires IsCommit(pc) && KnowsEngines(sh, pc)
    ensures var (effect, pc') := DecideCommit(sh, pc, choice); Disciplined(sh, pc, effect, pc')
  {}

  lemma KillIsDisciplined(sh: Shared, pc: Pc)
    requires IsKill(pc) && KnowsEngines(sh, pc)
    ensures var (effect, pc') := DecideKill(sh, pc); Disciplined(sh, pc, effect, pc')
  {}

  lemma StopIsDisciplined(sh: Shared, pc: Pc, choice: bool)
    requires IsStop(pc) && KnowsEngines(sh, pc)
    ensures var (effect, pc') := DecideStop(sh, pc, choice); Disciplined(sh, pc, effect, pc')
  {}

  lemma StepIsDisciplined(sh: Shared, pc: Pc, choice: bool)
    requires KnowsEngines(sh, pc) && Enabled(sh, pc)
    ensures var (effect, pc') := Decide(sh, pc, choice); Disciplined(sh, pc, effect, pc')
  {
    if WantsPool(pc) || WantsRegistry(pc) { AcquiringIsDisciplined(sh, pc);
    } else if IsRetain(pc) { RetainIsDisciplined(sh, pc);
    } else if IsBorrow(pc) { BorrowIsDisciplined(sh, pc, choice);
    } else if IsCommit(pc) { CommitIsDisciplined(sh, pc, choice);
    } else if IsKill(pc) { KillIsDisciplined(sh, pc);
    } else { StopIsDisciplined(sh, pc, choice); }
  }

  /** The rely side: what one thread does leaves every other thread's facts standing. */
  lemma OthersKeepFacts(sh: Shared, effect: Effect, other: Pc)
    requires SharedInv(sh) && Allowed(sh, effect) && Facts(sh, other)
    requires TouchesPool(effect) ==> !HoldsPool(other)
    requires Inserts(effect).Some? ==> Pending(other) != Inserts(effect)
    ensures Facts(Apply(sh, effect), other)
  {}

  lemma RelockingIsHarmless(sh: Shared, sh': Shared, tid: Tid, pc: Pc, pc': Pc)
    requires sh' == Relocked(sh, tid, pc, pc')
    ensures SharedInv(sh) ==> SharedInv(sh')
    ensures forall other :: Facts(sh, other) ==> Facts(sh', other)
    ensures forall before :: Moves(before, sh) ==> Moves(before, sh')
  {}

  /** Every step of every thread keeps the invariant. */
  lemma NextKeepsInv(s: Sys, step: Step)
    requires Inv(s) && CanStep(s, step)
    ensures Inv(Next(s, step)) && Moves(s.sh, Next(s, step).sh)
  {
    match step
    case Spawn(tid, entry) => SpawnKeepsInv(s, tid, entry);
    case WorkerExits(e) => ExitKeepsInv(s, e);
    case Run(tid, choice) => RunKeepsInv(s, tid, choice);
  }

  lemma EntryIsHarmless(sh: Shared, tid: Tid, entry: Pc)
    requires IsEntry(entry) && sh.poolLock != Some(tid) && sh.registryLock != Some(tid)
    ensures LocksAgree(sh, tid, entry) && Facts(sh, entry) && Pending(entry).None?
  {}

  lemma SpawnKeepsInv(s: Sys, tid: Tid, entry: Pc)
    requires Inv(s) && CanStep(s, Spawn(tid, entry))
    ensures Inv(Next(s, Spawn(tid, entry))) && Moves(s.sh, s.sh)
  {
    EntryIsHarmless(s.sh, tid, entry);
    MovesReflexive(s.sh);
  }

  lemma ExitKeepsInv(s: Sys, e: Engine)
    requires Inv(s) && CanStep(s, WorkerExits(e))
    ensures Inv(Next(s, WorkerExits(e))) && Moves(s.sh, Next(s, WorkerExits(e)).sh)
  {
    var effect := Work(e, s.sh.workers[e].(exited := true));
    EffectKeeps(s.sh, effect);
    forall tid | tid in s.threads ensures Facts(Apply(s.sh, effect), s.threads[tid]) {
      OthersKeepFacts(s.sh, effect, s.threads[tid]);
    }
  }

  lemma RunKeepsInv(s: Sys, tid: Tid, choice: bool)
    requires Inv(s) && CanStep(s, Run(tid, choice))
    ensures Inv(Next(s, Run(tid, choice))) && Moves(s.sh, Next(s, Run(tid, choice)).sh)
  {
    var s' := Next(s, Run(tid, choice));
    MoverStands(s, tid, choice);
    forall other | other in s'.threads && other != tid
      ensures LocksAgree(s'.sh, other, s'.threads[other]) && Facts(s'.sh, s'.threads[other])
    {
      OtherStands(s, tid, choice, other);
    }
    PendingStaysDistinct(s, tid, choice);
  }

  lemma MoverStands(s: Sys, tid: Tid, choice: bool)
    requires Inv(s) && CanStep(s, Run(tid, choice))
    ensures var s' := Next(s, Run(tid, choice));
      && SharedInv(s'.sh) && Moves(s.sh, s'.sh)
      && LocksAgree(s'.sh, tid, s'.threads[tid]) && Facts(s'.sh, s'.threads[tid])
      && (s'.sh.poolLock.Some? ==> s'.sh.poolLock.value in s'.threads)
      && (s'.sh.registryLock.Some? ==> s'.sh.registryLock.value in s'.threads)
  {
    var pc := s.threads[tid];
    var (effect, pc') := Decide(s.sh, pc, choice);
    var mid := Apply(s.sh, effect);
    DecideStep(s.sh, pc, choice);
    EffectKeeps(s.sh, effect);
    ApplyKeepsLocks(s.sh, effect);
    RelockingIsHarmless(mid, Relocked(mid, tid, pc, pc'), tid, pc, pc');
  }

  lemma ApplyKeepsLocks(sh: Shared, effect: Effect)
    requires WorksOnKnown(sh, effect)
    ensures Apply(sh, effect).poolLock == sh.poolLock && Apply(sh, effect).registryLock == sh.registryLock
  {}

  lemma OtherStands(s: Sys, tid: Tid, choice: bool, other: Tid)
    requires Inv(s) && CanStep(s, Run(tid, choice)) && other in s.threads && other != tid
    ensures var s' := Next(s, Run(tid, choice));
      LocksAgree(s'.sh, other, s'.threads[other]) && Facts(s'.sh, s'.threads[other])
  {
    var pc := s.threads[tid];
    var (effect, pc') := Decide(s.sh, pc, choice);
    var mid := Apply(s.sh, effect);
    DecideStep(s.sh, pc, choice);
    StepIsDisciplined(s.sh, pc, choice);
    ApplyKeepsLocks(s.sh, effect);
    OthersKeepFacts(s.sh, effect, s.threads[other]);
    RelockingIsHarmless(mid, Relocked(mid, tid, pc, pc'), tid, pc, pc');
  }

  lemma PendingStaysDistinct(s: Sys, tid: Tid, choice: bool)
    requires Inv(s) && CanStep(s, Run(tid, choice))
    ensures PendingDistinct(Next(s, Run(tid, choice)).threads)
  {
    var threads, pc' := s.threads, Next(s, Run(tid, choice)).threads[tid];
    forall other | other in threads && other != tid && Pending(pc').Some?
      ensures Pending(pc') != Pending(threads[other])
    {
      MoverPendsApart(s, tid, choice, other);
    }
    UpdateStaysDistinct(threads, tid, pc');
  }

  lemma MoverPendsApart(s: Sys, tid: Tid, choice: bool, other: Tid)
    requires Inv(s) && CanStep(s, Run(tid, choice)) && other in s.threads && other != tid
    requires Pending(Decide(s.sh, s.threads[tid], choice).1).Some?
    ensures Pending(Decide(s.sh, s.threads[tid], choice).1) != Pending(s.threads[other])
  {
    StepIsDisciplined(s.sh, s.threads[tid], choice);
    assert Facts(s.sh, s.threads[other]);
  }

  lemma UpdateStaysDistinct(threads: map<Tid, Pc>, tid: Tid, pc': Pc)
    requires PendingDistinct(threads) && tid in threads
    requires forall other :: other in threads && other != tid && Pending(pc').Some? ==> Pending(pc') != Pending(threads[other])
    ensures PendingDistinct(threads[tid := pc'])
  {}

  lemma MovesTransitive(a: Shared, b: Shared, c: Shared)
    requires Moves(a, b) && Moves(b, c) && SharedInv(b)
    ensures Moves(a, c)
  {
    forall e | 0 <= e < |a.workers| ensures WorkerMoves(a.workers[e], c.workers[e]) {
      assert WorkerMoves(a.workers[e], b.workers[e]) && WorkerMoves(b.workers[e], c.workers[e]);
    }
    forall h | h in c.published && h !in a.published ensures OwnerSpared(c, c.published[h], a.killed) {
      if h in b.published {
        assert OwnerSpared(b, b.published[h], a.killed);
      }
    }
  }

  lemma MovesReflexive(sh: Shared)
    ensures Moves(sh, sh)
  {}

  // ---------------------------------------------------------------------------------------
  // Theorems: they speak of every run, that is, of every interleaving
  // ---------------------------------------------------------------------------------------

  lemma BootInv()
    ensures Inv(Boot)
  {}

  lemma FollowsKeepsInv(s: Sys, s': Sys)
    requires Inv(s) && Follows(s, s')
    ensures Inv(s') && Moves(s.sh, s'.sh)
  {
    var step :| CanStep(s, step) && s' == Next(s, step);
    NextKeepsInv(s, step);
  }

  lemma {:induction false} ReachableInv(states: seq<Sys>, j: nat)
    requires IsRun(states) && j < |states|
    ensures Inv(states[j])
  {
    if j == 0 {
      BootInv();
    } else {
      ReachableInv(states, j - 1);
      assert FollowsAt(states, j);
      FollowsKeepsInv(states[j - 1], states[j]);
    }
  }

  lemma StepMoves(states: seq<Sys>, j: nat)
    requires IsRun(states) && 0 < j < |states|
    ensures SharedInv(states[j - 1].sh) && Moves(states[j - 1].sh, states[j].sh)
  {
    ReachableInv(states, j - 1);
    assert FollowsAt(states, j);
    FollowsKeepsInv(states[j - 1], states[j]);
  }

  /** Any two states of a run are ordered by `Moves`. */
  lemma {:induction false} RunMoves(states: seq<Sys>, i: nat, j: nat)
    requires IsRun(states) && i <= j < |states|
    ensures Moves(states[i].sh, states[j].sh)
    decreases j - i
  {
    if i == j {
      MovesReflexive(states[i].sh);
    } else {
      RunMoves(states, i, j - 1);
      StepMoves(states, j);
      MovesTransitive(states[i].sh, states[j - 1].sh, states[j].sh);
    }
  }

  /**
   Once a force-kill that found handle `h` has taken its revoke step (from state `i - 1` to state `i`),
   then for ever after: `h` does not resolve, no lease is owned by `h`, and no successor has been
   published since from a token that `h` owned.
   */
  lemma ForceKillIsFinal(states: seq<Sys>, i: nat, j: nat, tid: Tid, choice: bool, h: Handle, found: Engine)
    requires IsRun(states) && 0 < i <= j < |states|
    requires tid in states[i - 1].threads && states[i - 1].threads[tid] == KillPoolIn(h, Some(found))
    requires CanStep(states[i - 1], Run(tid, choice)) && states[i] == Next(states[i - 1], Run(tid, choice))
    ensures h !in states[j].sh.registry
    ensures !OwnedBy(states[j].sh.pool, h)
    ensures forall x :: x in states[j].sh.published && x !in states[i].sh.published ==>
      OwnerSpared(states[j].sh, states[j].sh.published[x], {h})
  {
    RunMoves(states, i, j);
    ReachableInv(states, j);
    assert h in states[i].sh.killed;
    forall x | x in states[j].sh.published && x !in states[i].sh.published
      ensures OwnerSpared(states[j].sh, states[j].sh.published[x], states[i].sh.killed)
    {}
  }

  /** No two generations overlap: whenever a successor is published, its predecessor's worker is gone. */
  lemma SuccessorsNeverOverlap(states: seq<Sys>, j: nat, x: Handle)
    requires IsRun(states) && j < |states| && x in states[j].sh.published
    ensures PredecessorExited(states[j].sh, states[j].sh.published[x])
  {
    ReachableInv(states, j);
  }

  /** A revoked continuation is never usable again, whatever a concurrent stop does to its fence. */
  lemma RevocationIsFinal(states: seq<Sys>, i: nat, j: nat, e: Engine)
    requires IsRun(states) && i <= j < |states|
    requires e < |states[i].sh.workers| && states[i].sh.workers[e].fence == FenceRevoked
    ensures e < |states[j].sh.workers| && states[j].sh.workers[e].fence == FenceRevoked
    ensures !Ready(states[j].sh, e)
  {
    RunMoves(states, i, j);
    assert WorkerMoves(states[i].sh.workers[e], states[j].sh.workers[e]);
  }

  /** A token that was issued and is no longer in the pool never names a lease again. */
  lemma SpentTokensStaySpent(states: seq<Sys>, i: nat, j: nat, t: Token)
    requires IsRun(states) && i <= j < |states|
    requires t < states[i].sh.pool.nextToken && !Contains(states[i].sh.pool, t)
    ensures !Contains(states[j].sh.pool, t) && CloneForStart(states[j].sh.pool, t).None?
  {
    RunMoves(states, i, j);
  }

  /** A handle that was removed never resolves again, not even to another engine. */
  lemma RemovedHandlesStayRemoved(states: seq<Sys>, i: nat, j: nat, h: Handle)
    requires IsRun(states) && i <= j < |states| && Removed(states[i].sh, h)
    ensures h !in states[j].sh.registry
  {
    RunMoves(states, i, j);
  }

  /** Locks nest pool-then-registry only: whoever holds the registry waits for nothing. */
  lemma RegistryHolderNeverWaits(pc: Pc)
    requires HoldsRegistry(pc)
    ensures !WantsPool(pc) && !WantsRegistry(pc) && !pc.Finished?
  {}

  /** No deadlock: while any call is unfinished, some unfinished call can take a step. */
  lemma SomeCallCanStep(states: seq<Sys>, j: nat, tid: Tid) returns (mover: Tid)
    requires IsRun(states) && j < |states|
    requires tid in states[j].threads && !states[j].threads[tid].Finished?
    ensures mover in states[j].threads && !states[j].threads[mover].Finished?
    ensures forall choice :: CanStep(states[j], Run(mover, choice))
  {
    ReachableInv(states, j);
    var s := states[j];
    if s.sh.registryLock.Some? {
      mover := s.sh.registryLock.value;
      RegistryHolderNeverWaits(s.threads[mover]);
    } else if s.sh.poolLock.Some? {
      mover := s.sh.poolLock.value;
      assert HoldsPool(s.threads[mover]);
    } else {
      mover := tid;
    }
    forall choice ensures CanStep(s, Run(mover, choice)) {
      EnabledCanStep(s, mover, choice);
    }
  }

  /** The side conditions in `CanStep` never block a reachable call: only locks do. */
  lemma EnabledCanStep(s: Sys, tid: Tid, choice: bool)
    requires Inv(s) && tid in s.threads
    ensures CanStep(s, Run(tid, choice)) <==> Enabled(s.sh, s.threads[tid])
  {
    if Enabled(s.sh, s.threads[tid]) {
      DecideStep(s.sh, s.threads[tid], choice);
    }
  }
}
