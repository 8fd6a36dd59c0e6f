/**
 What a native call has done when it is over, whatever other calls did in the meantime.  The theorems speak of the
 states of a run only: where the calling thread stood, and what the registry, the pool and the workers hold.
 */
module HandoverCalls {
  import opened Common
  import opened ContinuationPool
  import opened DnsHandover

  // ---------------------------------------------------------------------------------------
  // Following one thread through a run
  // ---------------------------------------------------------------------------------------

  /** The thread stands there. */
  predicate At(s: Sys, tid: Tid, pc: Pc) {
    tid in s.threads && s.threads[tid] == pc
  }

  predicate IsOver(s: Sys, tid: Tid) {
    tid in s.threads && s.threads[tid].Finished?
  }

  /** What the thread's own step does, locks aside. */
  predicate Steps(sh: Shared, pc: Pc, choice: bool, sh': Shared, pc': Pc) {
    && Enabled(sh, pc) && KnowsEngines(sh, pc) && WorksOnKnown(sh, Decide(sh, pc, choice).0)
    && pc' == Decide(sh, pc, choice).1
    && SameButLocks(sh', Apply(sh, Decide(sh, pc, choice).0))
  }

  predicate SameButLocks(sh: Shared, sh': Shared) {
    sh == sh'.(poolLock := sh.poolLock, registryLock := sh.registryLock)
  }

  /** A step is the thread's own, or leaves it where it stands. */
  lemma OwnStepOrNot(s: Sys, s': Sys, tid: Tid) returns (choice: bool)
    requires Follows(s, s') && tid in s.threads
    ensures tid in s'.threads
    ensures s'.threads[tid] != s.threads[tid] ==> Steps(s.sh, s.threads[tid], choice, s'.sh, s'.threads[tid])
  {
    var step :| CanStep(s, step) && s' == Next(s, step);
    choice := step.Run? && step.choice;
  }

  lemma OwnStepOf(states: seq<Sys>, i: nat, tid: Tid) returns (choice: bool)
    requires IsRun(states) && 0 < i < |states| && tid in states[i - 1].threads
    ensures tid in states[i].threads
    ensures states[i].threads[tid] != states[i - 1].threads[tid] ==>
      Steps(states[i - 1].sh, states[i - 1].threads[tid], choice, states[i].sh, states[i].threads[tid])
  {
    assert FollowsAt(states, i);
    choice := OwnStepOrNot(states[i - 1], states[i], tid);
  }

  /** The same, with what holds before and after. */
  lemma OwnStepAt(states: seq<Sys>, i: nat, tid: Tid) returns (choice: bool)
    requires IsRun(states) && 0 < i < |states| && tid in states[i - 1].threads
    ensures SharedInv(states[i - 1].sh) && Facts(states[i - 1].sh, states[i - 1].threads[tid])
    ensures SharedInv(states[i].sh) && Moves(states[i - 1].sh, states[i].sh)
    ensures tid in states[i].threads
    ensures states[i].threads[tid] != states[i - 1].threads[tid] ==>
      Steps(states[i - 1].sh, states[i - 1].threads[tid], choice, states[i].sh, states[i].threads[tid])
  {
    ReachableInv(states, i - 1);
    assert FollowsAt(states, i);
    FollowsKeepsInv(states[i - 1], states[i]);
    choice := OwnStepOrNot(states[i - 1], states[i], tid);
  }

  lemma {:induction false} FinishedStays(states: seq<Sys>, j: nat, k: nat, tid: Tid)
    requires IsRun(states) && j <= k < |states| && IsOver(states[j], tid)
    ensures IsOver(states[k], tid)
    decreases k - j
  {
    if j < k {
      FinishedStays(states, j, k - 1, tid);
      var choice := OwnStepOf(states, k, tid);
    }
  }

  // ---------------------------------------------------------------------------------------
  // Force-kill
  // ---------------------------------------------------------------------------------------

  /** The engine has been told to go and its continuation can never be used again. */
  predicate Condemned(sh: Shared, e: Engine) {
    && e < |sh.workers|
    && sh.workers[e].fence == FenceRevoked && sh.workers[e].phase != WorkerRunning && !sh.workers[e].threadInSlot
  }

  /** Where a force-kill of `h` that found engine `e` may stand, and what holds there. */
  predicate Killing(sh: Shared, pc: Pc, h: Handle, e: Engine) {
    && Removed(sh, h)
    && match pc
       case KillPoolWait(x, found) => x == h && found == Some(e)
       case KillPoolIn(x, found) => x == h && found == Some(e)
       case KillRevoke(found, _) => found == Some(e) && h in sh.killed
       case KillAbandon(x) => x == e && h in sh.killed
       case Finished => Condemned(sh, e) && h in sh.killed
       case _ => false
  }

  lemma KillingStands(sh: Shared, sh': Shared, pc: Pc, h: Handle, e: Engine)
    requires Moves(sh, sh') && Killing(sh, pc, h, e)
    ensures Killing(sh', pc, h, e)
  {
    if pc.Finished? { assert WorkerMoves(sh.workers[e], sh'.workers[e]); }
  }

  lemma KillingSteps(sh: Shared, pc: Pc, choice: bool, sh': Shared, pc': Pc, h: Handle, e: Engine)
    requires SharedInv(sh) && Killing(sh, pc, h, e) && Steps(sh, pc, choice, sh', pc')
    ensures Killing(sh', pc', h, e)
  {
    if pc.KillAbandon? { assert WorkerInv(sh.workers[e]); }
  }

  lemma {:induction false} KillingGoesOn(states: seq<Sys>, i: nat, j: nat, tid: Tid, h: Handle, e: Engine)
    requires IsRun(states) && i <= j < |states| && tid in states[i].threads
    requires Killing(states[i].sh, states[i].threads[tid], h, e)
    ensures tid in states[j].threads && Killing(states[j].sh, states[j].threads[tid], h, e)
    decreases j - i
  {
    if i < j {
      KillingGoesOn(states, i, j - 1, tid, h, e);
      var choice := OwnStepAt(states, j, tid);
      var pc, pc' := states[j - 1].threads[tid], states[j].threads[tid];
      if pc == pc' { KillingStands(states[j - 1].sh, states[j].sh, pc, h, e); }
      else { KillingSteps(states[j - 1].sh, pc, choice, states[j].sh, pc', h, e); }
    }
  }

  lemma KillingEnds(states: seq<Sys>, i: nat, j: nat, k: nat, tid: Tid, h: Handle, e: Engine)
    requires IsRun(states) && i <= j <= k < |states| && tid in states[i].threads
    requires Killing(states[i].sh, states[i].threads[tid], h, e) && IsOver(states[j], tid)
    ensures Condemned(states[k].sh, e) && h !in states[k].sh.registry && !OwnedBy(states[k].sh.pool, h)
  {
    KillingGoesOn(states, i, k, tid, h, e);
    FinishedStays(states, j, k, tid);
    ReachableInv(states, k);
  }

  /**
   A force-kill that found engine `found` under handle `h` and is over: from then on the engine is not running and
   its thread is taken, its continuation is revoked, the handle does not resolve and no lease is owned by it.
   */
  lemma ForceKillEndsTheEngine(states: seq<Sys>, i: nat, j: nat, k: nat, tid: Tid, h: Handle, found: Engine)
    requires IsRun(states) && 0 < i <= j <= k < |states|
    requires At(states[i - 1], tid, KillIn(h)) && !At(states[i], tid, KillIn(h))
    requires h in states[i - 1].sh.registry && states[i - 1].sh.registry[h] == found
    requires IsOver(states[j], tid)
    ensures found < |states[k].sh.workers|
    ensures states[k].sh.workers[found].fence == FenceRevoked && states[k].sh.workers[found].phase != WorkerRunning
    ensures !states[k].sh.workers[found].threadInSlot
    ensures h !in states[k].sh.registry && !OwnedBy(states[k].sh.pool, h)
  {
    var choice := OwnStepAt(states, i, tid);
    KillingEnds(states, i, j, k, tid, h, found);
  }

  /** The same for a force-kill that has the handle out of the registry and holds the pool. */
  lemma ForceKillAfterRemoval(states: seq<Sys>, i: nat, j: nat, k: nat, tid: Tid, h: Handle, found: Engine)
    requires IsRun(states) && i <= j <= k < |states|
    requires At(states[i], tid, KillPoolIn(h, Some(found))) && IsOver(states[j], tid)
    ensures found < |states[k].sh.workers|
    ensures states[k].sh.workers[found].fence == FenceRevoked && states[k].sh.workers[found].phase != WorkerRunning
    ensures !states[k].sh.workers[found].threadInSlot
    ensures h !in states[k].sh.registry && !OwnedBy(states[k].sh.pool, h)
  {
    ReachableInv(states, i);
    assert Facts(states[i].sh, states[i].threads[tid]);
    KillingEnds(states, i, j, k, tid, h, found);
  }

  predicate Revoked(sh: Shared, c: Engine) {
    c < |sh.workers| && sh.workers[c].fence == FenceRevoked
  }

  /** Where a force-kill that took the lease on `c` out of the pool may stand. */
  predicate Revoking(sh: Shared, pc: Pc, c: Engine) {
    match pc
    case KillRevoke(_, revoked) => revoked == Some(c)
    case KillAbandon(_) => Revoked(sh, c)
    case Finished => Revoked(sh, c)
    case _ => false
  }

  lemma RevokingSteps(sh: Shared, pc: Pc, choice: bool, sh': Shared, pc': Pc, c: Engine)
    requires Revoking(sh, pc, c) && Steps(sh, pc, choice, sh', pc')
    ensures Revoking(sh', pc', c)
  {}

  lemma {:induction false} RevokingGoesOn(states: seq<Sys>, i: nat, j: nat, tid: Tid, c: Engine)
    requires IsRun(states) && i <= j < |states| && tid in states[i].threads
    requires Revoking(states[i].sh, states[i].threads[tid], c)
    ensures tid in states[j].threads && Revoking(states[j].sh, states[j].threads[tid], c)
    decreases j - i
  {
    if i < j {
      RevokingGoesOn(states, i, j - 1, tid, c);
      var choice := OwnStepAt(states, j, tid);
      var pc, pc' := states[j - 1].threads[tid], states[j].threads[tid];
      if pc != pc' { RevokingSteps(states[j - 1].sh, pc, choice, states[j].sh, pc', c); }
      else if Revoked(states[j - 1].sh, c) { RevocationIsFinal(states, j - 1, j, c); }
    }
  }

  /**
   A force-kill of a handle that owned a lease, found in the registry or not: once it is over, the continuation that
   was leased is revoked for ever.
   */
  lemma ForceKillRevokesTheLease(states: seq<Sys>, i: nat, j: nat, k: nat, tid: Tid, h: Handle, found: Option<Engine>)
    requires IsRun(states) && 0 < i <= j <= k < |states|
    requires At(states[i - 1], tid, KillPoolIn(h, found)) && !At(states[i], tid, KillPoolIn(h, found))
    requires states[i - 1].sh.pool.lease.Some? && states[i - 1].sh.pool.lease.value.owner == h
    requires IsOver(states[j], tid)
    ensures var c := states[i - 1].sh.pool.lease.value.continuation;
      c < |states[k].sh.workers| && states[k].sh.workers[c].fence == FenceRevoked
  {
    var choice := OwnStepAt(states, i, tid);
    var c := states[i - 1].sh.pool.lease.value.continuation;
    RevokingGoesOn(states, i, j, tid, c);
    RevocationIsFinal(states, j, k, c);
  }

  // ---------------------------------------------------------------------------------------
  // Stop
  // ---------------------------------------------------------------------------------------

  predicate Told(sh: Shared, e: Engine) {
    e < |sh.workers| && sh.workers[e].phase != WorkerRunning && sh.workers[e].fence != FenceRunning
  }

  lemma ToldStays(sh: Shared, sh': Shared, e: Engine)
    requires Moves(sh, sh') && SharedInv(sh') && Told(sh, e)
    ensures Told(sh', e)
  {
    assert WorkerMoves(sh.workers[e], sh'.workers[e]) && WorkerInv(sh'.workers[e]);
  }

  /** Where a stop of `h`, which is engine `e`, may stand. */
  predicate Ending(sh: Shared, pc: Pc, h: Handle, e: Engine) {
    && Hosted(sh, h, e) && e < |sh.workers|
    && match pc
       case StopBegin(x, y, _) => x == h && y == e
       case StopJoin(x, y, _) => x == h && y == e && Told(sh, e)
       case StopFence(x, y) => x == h && y == e && Told(sh, e)
       case StopRemoveWait(x) => x == h && Told(sh, e)
       case StopRemoveIn(x) => x == h && Told(sh, e)
       case Finished => Told(sh, e) && h !in sh.registry
       case _ => false
  }

  lemma EndingStands(sh: Shared, sh': Shared, pc: Pc, h: Handle, e: Engine)
    requires Moves(sh, sh') && SharedInv(sh') && Ending(sh, pc, h, e)
    ensures Ending(sh', pc, h, e)
  {
    if Told(sh, e) { ToldStays(sh, sh', e); }
  }

  lemma EndingSteps(sh: Shared, pc: Pc, choice: bool, sh': Shared, pc': Pc, h: Handle, e: Engine)
    requires Ending(sh, pc, h, e) && WorkerInv(sh.workers[e]) && Steps(sh, pc, choice, sh', pc')
    ensures Ending(sh', pc', h, e)
  {
    if IsStop(pc) {
      if pc.StopRemoveIn? {} else { EndingWorks(sh, pc, choice, h, e); }
    }
  }

  lemma EndingWorks(sh: Shared, pc: Pc, choice: bool, h: Handle, e: Engine)
    requires Ending(sh, pc, h, e) && WorkerInv(sh.workers[e]) && IsStop(pc) && !pc.StopRemoveIn? && KnowsEngines(sh, pc)
    requires WorksOnKnown(sh, DecideStop(sh, pc, choice).0)
    ensures var (effect, pc') := DecideStop(sh, pc, choice); Ending(Apply(sh, effect), pc', h, e)
  {}

  lemma {:induction false} EndingGoesOn(states: seq<Sys>, i: nat, j: nat, tid: Tid, h: Handle, e: Engine)
    requires IsRun(states) && i <= j < |states| && tid in states[i].threads
    requires Ending(states[i].sh, states[i].threads[tid], h, e)
    ensures tid in states[j].threads && Ending(states[j].sh, states[j].threads[tid], h, e)
    decreases j - i
  {
    if i < j {
      EndingGoesOn(states, i, j - 1, tid, h, e);
      var choice := OwnStepAt(states, j, tid);
      var pc, pc' := states[j - 1].threads[tid], states[j].threads[tid];
      if pc == pc' { EndingStands(states[j - 1].sh, states[j].sh, pc, h, e); }
      else { EndingSteps(states[j - 1].sh, pc, choice, states[j].sh, pc', h, e); }
    }
  }

  /** A stop that found engine `e` under `h` and is over, its reaper included: the engine was told to stop, and the handle is gone. */
  lemma StopEndsTheEngine(states: seq<Sys>, i: nat, j: nat, k: nat, tid: Tid, h: Handle, e: Engine)
    requires IsRun(states) && 0 < i <= j <= k < |states|
    requires At(states[i - 1], tid, StopIn(h)) && !At(states[i], tid, StopIn(h))
    requires h in states[i - 1].sh.registry && states[i - 1].sh.registry[h] == e
    requires IsOver(states[j], tid)
    ensures e < |states[k].sh.workers|
    ensures states[k].sh.workers[e].phase != WorkerRunning && states[k].sh.workers[e].fence != FenceRunning
    ensures h !in states[k].sh.registry
  {
    var choice := OwnStepAt(states, i, tid);
    EndingGoesOn(states, i, k, tid, h, e);
    FinishedStays(states, j, k, tid);
  }

  /** The worker is joined, and its continuation may be imported, unless it was revoked. */
  predicate Handed(sh: Shared, e: Engine) {
    && e < |sh.workers| && sh.workers[e].phase == WorkerStopped
    && (sh.workers[e].fence == FenceStopped || sh.workers[e].fence == FenceRevoked)
  }

  predicate Joining(sh: Shared, pc: Pc, e: Engine) {
    match pc
    case StopFence(_, x) => x == e && Told(sh, e) && sh.workers[e].phase == WorkerStopped
    case StopRemoveWait(_) => Handed(sh, e)
    case StopRemoveIn(_) => Handed(sh, e)
    case Finished => Handed(sh, e)
    case _ => false
  }

  lemma JoiningStands(sh: Shared, sh': Shared, pc: Pc, e: Engine)
    requires Moves(sh, sh') && SharedInv(sh') && Joining(sh, pc, e)
    ensures Joining(sh', pc, e)
  {
    assert WorkerMoves(sh.workers[e], sh'.workers[e]) && WorkerInv(sh'.workers[e]);
  }

  lemma JoiningSteps(sh: Shared, pc: Pc, choice: bool, sh': Shared, pc': Pc, e: Engine)
    requires Joining(sh, pc, e) && Steps(sh, pc, choice, sh', pc')
    ensures Joining(sh', pc', e)
  {}

  lemma {:induction false} JoiningGoesOn(states: seq<Sys>, i: nat, j: nat, tid: Tid, e: Engine)
    requires IsRun(states) && i <= j < |states| && tid in states[i].threads
    requires Joining(states[i].sh, states[i].threads[tid], e)
    ensures tid in states[j].threads && Joining(states[j].sh, states[j].threads[tid], e)
    decreases j - i
  {
    if i < j {
      JoiningGoesOn(states, i, j - 1, tid, e);
      var choice := OwnStepAt(states, j, tid);
      var pc, pc' := states[j - 1].threads[tid], states[j].threads[tid];
      if pc == pc' { JoiningStands(states[j - 1].sh, states[j].sh, pc, e); }
      else { JoiningSteps(states[j - 1].sh, pc, choice, states[j].sh, pc', e); }
    }
  }

  /**
   A stop that joined the worker, that is, took its thread: once it is over, the worker counts as stopped and a
   successor may import the continuation, unless a force-kill revoked it.
   */
  lemma JoinedStopHandsOver(states: seq<Sys>, i: nat, j: nat, tid: Tid, h: Handle, e: Engine, laps: nat)
    requires IsRun(states) && 0 < i <= j < |states|
    requires At(states[i - 1], tid, StopJoin(h, e, laps)) && !At(states[i], tid, StopJoin(h, e, laps))
    requires e < |states[i - 1].sh.workers| && states[i - 1].sh.workers[e].threadInSlot
    requires e < |states[i].sh.workers| && !states[i].sh.workers[e].threadInSlot
    requires IsOver(states[j], tid)
    ensures e < |states[j].sh.workers| && states[j].sh.workers[e].phase == WorkerStopped
    ensures states[j].sh.workers[e].fence == FenceStopped || states[j].sh.workers[e].fence == FenceRevoked
  {
    var choice := OwnStepAt(states, i, tid);
    assert WorkerInv(states[i].sh.workers[e]);
    JoiningGoesOn(states, i, j, tid, e);
  }

  /** A stop that has not got beyond its `lap`-th retry. */
  predicate Trying(pc: Pc, h: Handle, e: Engine, lap: nat) {
    (pc.StopBegin? || pc.StopJoin?) && pc.h == h && pc.e == e && pc.laps <= lap
  }

  lemma TryingSteps(sh: Shared, pc: Pc, choice: bool, sh': Shared, pc': Pc, h: Handle, e: Engine, lap: nat)
    requires Trying(pc, h, e, lap) && pc != StopJoin(h, e, lap) && lap <= 40 && Steps(sh, pc, choice, sh', pc')
    requires e < |sh.workers| && sh.workers[e].phase != WorkerStopped
    requires e < |sh'.workers| && sh'.workers[e].phase != WorkerStopped
    ensures Trying(pc', h, e, lap)
  {}

  predicate NotStopped(sh: Shared, e: Engine) {
    e < |sh.workers| && sh.workers[e].phase != WorkerStopped
  }

  /**
   A stop does not give up early: as long as the engine has not stopped, it goes on until it has waited for it a
   first time and forty times more.
   */
  lemma {:induction false} StopTriesFortyOneTimes(states: seq<Sys>, i: nat, j: nat, tid: Tid, h: Handle, e: Engine, lap: nat)
    requires IsRun(states) && 0 < i <= j < |states| && lap <= 40
    requires At(states[i - 1], tid, StopIn(h)) && !At(states[i], tid, StopIn(h))
    requires h in states[i - 1].sh.registry && states[i - 1].sh.registry[h] == e
    requires forall k :: i <= k <= j ==> NotStopped(states[k].sh, e)
    requires forall k :: i <= k < j ==> !At(states[k], tid, StopJoin(h, e, lap))
    ensures tid in states[j].threads && Trying(states[j].threads[tid], h, e, lap)
    decreases j - i
  {
    var choice := OwnStepOf(states, i, tid);
    if i < j {
      StopTriesFortyOneTimes(states, i, j - 1, tid, h, e, lap);
      choice := OwnStepOf(states, j, tid);
      var pc, pc' := states[j - 1].threads[tid], states[j].threads[tid];
      assert NotStopped(states[j - 1].sh, e) && NotStopped(states[j].sh, e);
      if pc != pc' { TryingSteps(states[j - 1].sh, pc, choice, states[j].sh, pc', h, e, lap); }
    }
  }

  /** A stop does not wait for an engine that has stopped before. */
  lemma StopOfStoppedDoesNotWait(s: Sys, tid: Tid, h: Handle, e: Engine, laps: nat, choice: bool)
    requires Inv(s) && At(s, tid, StopBegin(h, e, laps)) && e < |s.sh.workers| && s.sh.workers[e].phase == WorkerStopped
    ensures CanStep(s, Run(tid, choice))
    ensures At(Next(s, Run(tid, choice)), tid, StopRemoveWait(h)) && Next(s, Run(tid, choice)).sh.workers == s.sh.workers
  {
  }

  /** A stop that waits for a worker whose thread has ended can join it in its next step. */
  lemma StopCanJoin(s: Sys, tid: Tid, h: Handle, e: Engine, laps: nat)
    requires Inv(s) && At(s, tid, StopJoin(h, e, laps))
    requires e < |s.sh.workers| && s.sh.workers[e].exited && s.sh.workers[e].threadInSlot
    ensures CanStep(s, Run(tid, true)) && !Next(s, Run(tid, true)).sh.workers[e].threadInSlot
  {
  }

  // ---------------------------------------------------------------------------------------
  // Start
  // ---------------------------------------------------------------------------------------

  /** A handle was given to the engine. */
  ghost predicate IsPublished(sh: Shared, e: Engine) {
    exists h :: Hosted(sh, h, e)
  }

  /** Where the start of engine `e` may stand. */
  ghost predicate Starting(sh: Shared, pc: Pc, e: Engine) {
    match pc
    case StartVerify(_, _, x) => x == e
    case StartHandle(_, _, x) => x == e
    case CommitWait(_, _, x, _) => x == e
    case CommitIn(_, _, x, _) => x == e
    case CommitRegistry(_, _, x, _) => x == e
    case CommitBoth(_, _, x, _) => x == e
    case PlainHandle(x) => x == e
    case PlainWait(x, _) => x == e
    case PlainIn(x, _) => x == e
    case RetireStop(x) => x == e
    case RetireKill(x) => x == e && Told(sh, e)
    case Finished => IsPublished(sh, e) || Told(sh, e)
    case _ => false
  }

  lemma StartingStands(sh: Shared, sh': Shared, pc: Pc, e: Engine)
    requires Moves(sh, sh') && SharedInv(sh') && Starting(sh, pc, e)
    ensures Starting(sh', pc, e)
  {
    if Told(sh, e) { ToldStays(sh, sh', e); }
    if IsPublished(sh, e) {
      var h :| Hosted(sh, h, e);
      assert Hosted(sh', h, e);
    }
  }

  lemma StartingSteps(sh: Shared, pc: Pc, choice: bool, sh': Shared, pc': Pc, e: Engine)
    requires Starting(sh, pc, e) && Steps(sh, pc, choice, sh', pc')
    requires e < |sh.workers| && WorkerInv(sh.workers[e])
    ensures Starting(sh', pc', e)
  {
    if pc.RetireStop? || pc.RetireKill? {
      RetiringTells(sh, pc, choice, e);
    } else if pc.CommitBoth? || pc.PlainIn? {
      assert Hosted(sh', pc.h, e);
    }
  }

  lemma RetiringTells(sh: Shared, pc: Pc, choice: bool, e: Engine)
    requires (pc == RetireStop(e) || pc == RetireKill(e)) && e < |sh.workers| && WorkerInv(sh.workers[e])
    ensures var (effect, pc') := DecideCommit(sh, pc, choice);
      effect.Work? && effect.e == e && Told(Apply(sh, effect), e) && (pc' == RetireKill(e) || pc'.Finished?)
  {}

  lemma {:induction false} StartingGoesOn(states: seq<Sys>, i: nat, j: nat, tid: Tid, e: Engine)
    requires IsRun(states) && i <= j < |states| && tid in states[i].threads && e < |states[i].sh.workers|
    requires Starting(states[i].sh, states[i].threads[tid], e)
    ensures tid in states[j].threads && Starting(states[j].sh, states[j].threads[tid], e)
    ensures e < |states[j].sh.workers|
    decreases j - i
  {
    if i < j {
      StartingGoesOn(states, i, j - 1, tid, e);
      var choice := OwnStepAt(states, j, tid);
      var pc, pc' := states[j - 1].threads[tid], states[j].threads[tid];
      assert WorkerInv(states[j - 1].sh.workers[e]);
      if pc == pc' { StartingStands(states[j - 1].sh, states[j].sh, pc, e); }
      else { StartingSteps(states[j - 1].sh, pc, choice, states[j].sh, pc', e); }
    }
  }

  /** No start leaves an engine behind: once it is over, the engine has been given a handle or told to stop. */
  lemma StartsLeaveNoEngineBehind(states: seq<Sys>, i: nat, j: nat, tid: Tid, e: Engine)
    requires IsRun(states) && i <= j < |states| && tid in states[i].threads
    requires var pc := states[i].threads[tid]; (pc.StartVerify? || pc.PlainHandle?) && pc.e == e
    requires IsOver(states[j], tid)
    ensures e < |states[j].sh.workers|
    ensures (exists h :: h in states[j].sh.born && states[j].sh.born[h] == e)
            || (states[j].sh.workers[e].phase != WorkerRunning && states[j].sh.workers[e].fence != FenceRunning)
  {
    ReachableInv(states, i);
    assert Facts(states[i].sh, states[i].threads[tid]);
    StartingGoesOn(states, i, j, tid, e);
    if IsPublished(states[j].sh, e) {
      var h :| Hosted(states[j].sh, h, e);
    }
  }

  /** Where a start without a continuation may stand once its engine `e` runs. */
  ghost predicate Plainly(sh: Shared, pc: Pc, e: Engine) {
    match pc
    case PlainHandle(x) => x == e
    case PlainWait(x, _) => x == e
    case PlainIn(x, _) => x == e
    case Finished => IsPublished(sh, e)
    case _ => false
  }

  lemma PlainlySteps(sh: Shared, pc: Pc, choice: bool, sh': Shared, pc': Pc, e: Engine)
    requires Plainly(sh, pc, e) && Steps(sh, pc, choice, sh', pc')
    ensures Plainly(sh', pc', e)
  {
    if pc.PlainIn? { assert Hosted(sh', pc.h, e); }
  }

  lemma {:induction false} PlainlyGoesOn(states: seq<Sys>, i: nat, j: nat, tid: Tid, e: Engine)
    requires IsRun(states) && i <= j < |states| && At(states[i], tid, PlainHandle(e))
    ensures tid in states[j].threads && Plainly(states[j].sh, states[j].threads[tid], e)
    decreases j - i
  {
    if i < j {
      PlainlyGoesOn(states, i, j - 1, tid, e);
      var choice := OwnStepAt(states, j, tid);
      var pc, pc' := states[j - 1].threads[tid], states[j].threads[tid];
      if pc != pc' {
        PlainlySteps(states[j - 1].sh, pc, choice, states[j].sh, pc', e);
      } else if pc.Finished? {
        var h :| Hosted(states[j - 1].sh, h, e);
        assert Hosted(states[j].sh, h, e);
      }
    }
  }

  /** A start without a continuation gives its engine a handle. */
  lemma PlainStartIsPublished(states: seq<Sys>, i: nat, j: nat, tid: Tid, e: Engine)
    requires IsRun(states) && i <= j < |states| && At(states[i], tid, PlainHandle(e)) && IsOver(states[j], tid)
    ensures exists h :: h in states[j].sh.born && states[j].sh.born[h] == e
  {
    PlainlyGoesOn(states, i, j, tid, e);
    var h :| Hosted(states[j].sh, h, e);
  }

  /** The token is still in the pool and the predecessor's continuation may be imported. */
  predicate Open(sh: Shared, t: Token, c: Engine) {
    Contains(sh.pool, t) && sh.pool.lease.value.continuation == c && Ready(sh, c)
  }

  /** Some handle was given to engine `e`, as the successor that token `t` stands for. */
  ghost predicate Succeeds(sh: Shared, t: Token, e: Engine) {
    exists h :: Hosted(sh, h, e) && h in sh.published && sh.published[h] == t
  }

  /** Where a start of successor `e` may stand as long as nothing comes in its way. */
  ghost predicate Succeeding(sh: Shared, pc: Pc, t: Token, c: Engine, e: Engine) {
    match pc
    case StartVerify(x, y, z) => x == t && y == c && z == e
    case StartHandle(x, y, z) => x == t && y == c && z == e
    case CommitWait(x, y, z, _) => x == t && y == c && z == e
    case CommitIn(x, y, z, _) => x == t && y == c && z == e
    case CommitRegistry(x, y, z, _) => x == t && y == c && z == e
    case CommitBoth(x, y, z, _) => x == t && y == c && z == e
    case Finished => Succeeds(sh, t, e)
    case _ => false
  }

  lemma SucceedingStands(sh: Shared, sh': Shared, pc: Pc, t: Token, c: Engine, e: Engine)
    requires Moves(sh, sh') && Succeeding(sh, pc, t, c, e)
    ensures Succeeding(sh', pc, t, c, e)
  {
    if Succeeds(sh, t, e) {
      var h :| Hosted(sh, h, e) && h in sh.published && sh.published[h] == t;
      assert Hosted(sh', h, e) && h in sh'.published && sh'.published[h] == t;
    }
  }

  lemma SucceedingSteps(sh: Shared, pc: Pc, choice: bool, sh': Shared, pc': Pc, t: Token, c: Engine, e: Engine)
    requires Open(sh, t, c) && Succeeding(sh, pc, t, c, e) && Steps(sh, pc, choice, sh', pc')
    ensures Succeeding(sh', pc', t, c, e)
  {
    if pc.CommitBoth? { assert Hosted(sh', pc.h, e) && pc.h in sh'.published && sh'.published[pc.h] == t; }
  }

  /**
   The hand-over succeeds: an engine that was started on a continuation is published under its token, if the token
   stays in the pool and the continuation stays ready until the call is over.
   */
  lemma {:induction false} StartedSuccessorIsPublished(states: seq<Sys>, i: nat, j: nat, tid: Tid, t: Token, c: Engine, e: Engine)
    requires IsRun(states) && i <= j < |states| && At(states[i], tid, StartVerify(t, c, e))
    requires forall k :: i <= k < j ==> Open(states[k].sh, t, c)
    requires IsOver(states[j], tid)
    ensures Succeeds(states[j].sh, t, e)
  {
    SucceedingGoesOn(states, i, j, tid, t, c, e);
  }

  lemma {:induction false} SucceedingGoesOn(states: seq<Sys>, i: nat, j: nat, tid: Tid, t: Token, c: Engine, e: Engine)
    requires IsRun(states) && i <= j < |states| && tid in states[i].threads
    requires Succeeding(states[i].sh, states[i].threads[tid], t, c, e)
    requires forall k :: i <= k < j ==> Open(states[k].sh, t, c)
    ensures tid in states[j].threads && Succeeding(states[j].sh, states[j].threads[tid], t, c, e)
    decreases j - i
  {
    if i < j {
      SucceedingGoesOn(states, i, j - 1, tid, t, c, e);
      var choice := OwnStepAt(states, j, tid);
      var pc, pc' := states[j - 1].threads[tid], states[j].threads[tid];
      if pc == pc' { SucceedingStands(states[j - 1].sh, states[j].sh, pc, t, c, e); }
      else { SucceedingSteps(states[j - 1].sh, pc, choice, states[j].sh, pc', t, c, e); }
    }
  }

  predicate Borrowing(pc: Pc, t: Token, c: Engine) {
    pc == BorrowWait(t) || pc == BorrowIn(t) || pc == BorrowCheck(t, c) || pc == StartImport(t, c)
  }

  lemma BorrowingSteps(sh: Shared, pc: Pc, choice: bool, sh': Shared, pc': Pc, t: Token, c: Engine)
    requires Open(sh, t, c) && Borrowing(pc, t, c) && pc != StartImport(t, c) && Steps(sh, pc, choice, sh', pc')
    ensures Borrowing(pc', t, c)
  {}

  /** The token is good, and the thread has not got to the import yet. */
  predicate OnTheWay(s: Sys, tid: Tid, t: Token, c: Engine) {
    Open(s.sh, t, c) && !At(s, tid, StartImport(t, c))
  }

  lemma BorrowingGoesOn(states: seq<Sys>, j: nat, tid: Tid, t: Token, c: Engine)
    requires IsRun(states) && 0 < j < |states| && OnTheWay(states[j - 1], tid, t, c)
    requires tid in states[j - 1].threads && Borrowing(states[j - 1].threads[tid], t, c)
    ensures tid in states[j].threads && Borrowing(states[j].threads[tid], t, c)
  {
    var choice := OwnStepOf(states, j, tid);
    var pc, pc' := states[j - 1].threads[tid], states[j].threads[tid];
    if pc != pc' { BorrowingSteps(states[j - 1].sh, pc, choice, states[j].sh, pc', t, c); }
  }

  /** A start gets as far as the import of the continuation its token names, if that is ready all the while. */
  lemma {:induction false} StartReachesTheImport(states: seq<Sys>, i: nat, j: nat, tid: Tid, t: Token, c: Engine)
    requires IsRun(states) && i <= j < |states| && At(states[i], tid, BorrowWait(t))
    requires forall k :: i <= k < j ==> OnTheWay(states[k], tid, t, c)
    ensures tid in states[j].threads && Borrowing(states[j].threads[tid], t, c)
    decreases j - i
  {
    if i < j {
      StartReachesTheImport(states, i, j - 1, tid, t, c);
      BorrowingGoesOn(states, j, tid, t, c);
    }
  }

  /**
   There an engine starts exactly if the continuation is still ready and the environment lets it; otherwise the call
   is over and nothing has changed.
   */
  lemma ImportStartsIff(s: Sys, tid: Tid, t: Token, c: Engine, choice: bool)
    requires Inv(s) && At(s, tid, StartImport(t, c))
    ensures CanStep(s, Run(tid, choice))
    ensures var s' := Next(s, Run(tid, choice));
      if c < |s.sh.workers| && s.sh.workers[c].fence == FenceStopped && choice
      then At(s', tid, StartVerify(t, c, |s.sh.workers|)) && s'.sh.workers == s.sh.workers + [NewWorker]
      else IsOver(s', tid) && s'.sh.workers == s.sh.workers
  {
    EnabledCanStep(s, tid, choice);
    ImportDecides(s.sh, t, c, choice);
  }

  lemma ImportDecides(sh: Shared, t: Token, c: Engine, choice: bool)
    ensures DecideBorrow(sh, StartImport(t, c), choice) ==
      if c < |sh.workers| && sh.workers[c].fence == FenceStopped && choice
      then (Create, StartVerify(t, c, |sh.workers|)) else (Quiet, Finished)
  {}

  /** A successor that is not published after all, and whose worker has ended, is joined. */
  lemma RetiringJoins(s: Sys, tid: Tid, e: Engine)
    requires Inv(s) && At(s, tid, RetireStop(e)) && e < |s.sh.workers| && s.sh.workers[e].exited
    ensures CanStep(s, Run(tid, true))
    ensures var s' := Next(s, Run(tid, true));
      IsOver(s', tid) && s'.sh.workers[e].phase == WorkerStopped && !s'.sh.workers[e].threadInSlot
  {
    EnabledCanStep(s, tid, true);
    RetiringJoinsTheEnded(s.sh, e);
  }

  lemma RetiringJoinsTheEnded(sh: Shared, e: Engine)
    requires e < |sh.workers| && sh.workers[e].exited
    ensures var (effect, pc') := DecideCommit(sh, RetireStop(e), true);
      pc'.Finished? && effect.Work? && effect.e == e && effect.w.phase == WorkerStopped && !effect.w.threadInSlot
  {}

  // ---------------------------------------------------------------------------------------
  // Retain and release
  // ---------------------------------------------------------------------------------------

  /** The handle stands for this engine, the pool is empty and has tokens left. */
  predicate Retainable(sh: Shared, h: Handle, e: Engine) {
    h in sh.registry && sh.registry[h] == e && sh.pool.lease.None? && sh.pool.nextToken <= MAX_I64
  }

  predicate Retaining(pc: Pc, h: Handle, e: Engine) {
    pc == RetainLookup(h) || pc == RetainLookupIn(h) || pc == RetainWait(h, e) || pc == RetainPool(h, e)
    || pc == RetainBoth(h, e) || pc == RetainDecide(h, e, true)
  }

  predicate Leased(sh: Shared, t: Token, h: Handle, e: Engine) {
    sh.pool.lease == Some(Lease(t, h, e)) && t in sh.issued && sh.issued[t] == Grant(h, e)
  }

  lemma RetainingSteps(sh: Shared, pc: Pc, choice: bool, sh': Shared, pc': Pc, h: Handle, e: Engine)
    requires 0 < h && 0 < sh.pool.nextToken && Retainable(sh, h, e) && Retaining(pc, h, e) && Steps(sh, pc, choice, sh', pc')
    ensures if pc == RetainDecide(h, e, true) then pc'.Finished? && Leased(sh', sh.pool.nextToken, h, e)
            else Retaining(pc', h, e)
  {}

  lemma {:induction false} RetainingGoesOn(states: seq<Sys>, i: nat, j: nat, tid: Tid, h: Handle, e: Engine)
    requires IsRun(states) && i <= j < |states| && At(states[i], tid, RetainLookup(h)) && 0 < h
    requires forall k :: i <= k < j ==> Retainable(states[k].sh, h, e) && !IsOver(states[k], tid)
    requires !IsOver(states[j], tid)
    ensures tid in states[j].threads && Retaining(states[j].threads[tid], h, e)
    decreases j - i
  {
    if i < j {
      RetainingGoesOn(states, i, j - 1, tid, h, e);
      var choice := OwnStepAt(states, j, tid);
      var pc, pc' := states[j - 1].threads[tid], states[j].threads[tid];
      if pc != pc' { RetainingSteps(states[j - 1].sh, pc, choice, states[j].sh, pc', h, e); }
    }
  }

  /**
   A retain of a handle that stands for `e` until the call is over, with nobody else in the pool, ends with the next
   token in the pool, owned by `h` and naming `e`.
   */
  lemma RetainPutsALeaseInThePool(states: seq<Sys>, i: nat, j: nat, tid: Tid, h: Handle, e: Engine)
    requires IsRun(states) && i < j < |states| && At(states[i], tid, RetainLookup(h)) && 0 < h
    requires forall k :: i <= k < j ==> Retainable(states[k].sh, h, e) && !IsOver(states[k], tid)
    requires IsOver(states[j], tid)
    ensures states[j].sh.pool.lease == Some(Lease(states[j - 1].sh.pool.nextToken, h, e))
  {
    RetainingGoesOn(states, i, j - 1, tid, h, e);
    var choice := OwnStepAt(states, j, tid);
    RetainingSteps(states[j - 1].sh, states[j - 1].threads[tid], choice, states[j].sh, states[j].threads[tid], h, e);
  }

  /** A handle that was given to an engine stood for it in the registry. */
  lemma {:induction false} HostsWereRegistered(states: seq<Sys>, j: nat, h: Handle) returns (i: nat)
    requires IsRun(states) && j < |states| && h in states[j].sh.born
    ensures i <= j && h in states[i].sh.registry && states[i].sh.registry[h] == states[j].sh.born[h]
  {
    assert j > 0;
    StepMoves(states, j);
    if h in states[j - 1].sh.born {
      i := HostsWereRegistered(states, j - 1, h);
    } else {
      i := j;
      assert FollowsAt(states, j);
      BirthIsRegistered(states[j - 1], states[j], h);
    }
  }

  lemma BirthIsRegistered(s: Sys, s': Sys, h: Handle)
    requires Follows(s, s') && h !in s.sh.born && h in s'.sh.born
    ensures h in s'.sh.registry && s'.sh.registry[h] == s'.sh.born[h]
  {
    var step :| CanStep(s, step) && s' == Next(s, step);
    if step.Run? {
      BirthIsAPublication(s.sh, Decide(s.sh, s.threads[step.tid], step.choice).0, h);
    }
  }

  lemma BirthIsAPublication(sh: Shared, effect: Effect, h: Handle)
    requires WorksOnKnown(sh, effect) && h !in sh.born && h in Apply(sh, effect).born
    ensures h in Apply(sh, effect).registry && Apply(sh, effect).registry[h] == Apply(sh, effect).born[h]
  {}

  /** Every lease in the pool names the engine its owner stood for, never another handle's. */
  lemma LeasesNameTheirOwnersEngine(states: seq<Sys>, j: nat) returns (i: nat)
    requires IsRun(states) && j < |states| && states[j].sh.pool.lease.Some?
    ensures var l := states[j].sh.pool.lease.value;
      i <= j && l.owner in states[i].sh.registry && states[i].sh.registry[l.owner] == l.continuation
  {
    ReachableInv(states, j);
    var l := states[j].sh.pool.lease.value;
    assert Hosted(states[j].sh, l.owner, l.continuation);
    i := HostsWereRegistered(states, j, l.owner);
  }

  /** A release that got hold of the pool: its token, once issued, never names a lease again. */
  lemma ReleaseIsFinal(states: seq<Sys>, i: nat, j: nat, tid: Tid, t: Token)
    requires IsRun(states) && 0 < i <= j < |states| && t < states[i - 1].sh.pool.nextToken
    requires At(states[i - 1], tid, ReleaseIn(t)) && !At(states[i], tid, ReleaseIn(t))
    ensures !Contains(states[j].sh.pool, t)
  {
    var choice := OwnStepAt(states, i, tid);
    SpentTokensStaySpent(states, i, j, t);
  }

  // ---------------------------------------------------------------------------------------
  // Every call ends
  // ---------------------------------------------------------------------------------------

  /** Laps a stop still has before it gives up. */
  function LapsLeft(laps: nat): nat {
    if laps <= STOP_REAP_ATTEMPTS then STOP_REAP_ATTEMPTS - laps else 0
  }

  /** An upper bound of the steps a call still takes. */
  function StepsLeft(pc: Pc): nat {
    match pc
    case RetainLookup(_) => 6
    case RetainLookupIn(_) => 5
    case RetainWait(_, _) => 4
    case RetainPool(_, _) => 3
    case RetainBoth(_, _) => 2
    case RetainDecide(_, _, _) => 1
    case ReleaseWait(_) => 2
    case ReleaseIn(_) => 1
    case BorrowWait(_) => 12
    case BorrowIn(_) => 11
    case BorrowCheck(_, _) => 10
    case StartImport(_, _) => 9
    case StartVerify(_, _, _) => 8
    case StartHandle(_, _, _) => 7
    case CommitWait(_, _, _, _) => 6
    case CommitIn(_, _, _, _) => 5
    case CommitRegistry(_, _, _, _) => 4
    case CommitBoth(_, _, _, _) => 3
    case RetireStop(_) => 2
    case RetireKill(_) => 1
    case PlainCreate => 4
    case PlainHandle(_) => 3
    case PlainWait(_, _) => 2
    case PlainIn(_, _) => 1
    case KillWait(_) => 6
    case KillIn(_) => 5
    case KillPoolWait(_, _) => 4
    case KillPoolIn(_, _) => 3
    case KillRevoke(_, _) => 2
    case KillAbandon(_) => 1
    case StopWait(_) => 2 * STOP_REAP_ATTEMPTS + 7
    case StopIn(_) => 2 * STOP_REAP_ATTEMPTS + 6
    case StopBegin(_, _, laps) => 2 * LapsLeft(laps) + 5
    case StopJoin(_, _, laps) => 2 * LapsLeft(laps) + 4
    case StopFence(_, _) => 3
    case StopRemoveWait(_) => 2
    case StopRemoveIn(_) => 1
    case Finished => 0
  }

  predicate Nearer(sh: Shared, pc: Pc, pc': Pc) {
    StepsLeft(pc') < StepsLeft(pc) || (pc' == pc && (pc.StartHandle? || pc.PlainHandle?) && NoHandleLeft(sh))
  }

  /** The number that would be drawn next does not fit a `jlong`. */
  predicate NoHandleLeft(sh: Shared) {
    sh.nextHandle == 0 || sh.nextHandle > 0x7FFF_FFFF_FFFF_FFFF
  }

  lemma AcquiringIsNearer(sh: Shared, pc: Pc)
    requires WantsPool(pc) || WantsRegistry(pc)
    ensures Nearer(sh, pc, Acquired(pc))
  {}

  lemma StartsAreNearer(sh: Shared, pc: Pc, choice: bool)
    requires KnowsEngines(sh, pc) && (IsBorrow(pc) || IsCommit(pc))
    ensures Nearer(sh, pc, if IsBorrow(pc) then DecideBorrow(sh, pc, choice).1 else DecideCommit(sh, pc, choice).1)
  {}

  lemma EndsAreNearer(sh: Shared, pc: Pc, choice: bool)
    requires KnowsEngines(sh, pc) && (IsKill(pc) || IsStop(pc))
    ensures Nearer(sh, pc, if IsKill(pc) then DecideKill(sh, pc).1 else DecideStop(sh, pc, choice).1)
  {}

  lemma RetainsAreNearer(sh: Shared, pc: Pc)
    requires IsRetain(pc)
    ensures Nearer(sh, pc, DecideRetain(sh, pc).1)
  {}

  /**
   Every step a call takes brings it nearer to its end, so a stop takes at most 87 and every other call at most 12;
   only a start for which no handle number is left goes round and round.
   */
  lemma StepsRunOut(s: Sys, tid: Tid, choice: bool)
    requires CanStep(s, Run(tid, choice))
    ensures var pc, pc' := s.threads[tid], Next(s, Run(tid, choice)).threads[tid];
      StepsLeft(pc') < StepsLeft(pc) || (pc' == pc && (pc.StartHandle? || pc.PlainHandle?) && NoHandleLeft(s.sh))
  {
    var pc := s.threads[tid];
    if WantsPool(pc) || WantsRegistry(pc) { AcquiringIsNearer(s.sh, pc);
    } else if IsRetain(pc) { RetainsAreNearer(s.sh, pc);
    } else if IsBorrow(pc) || IsCommit(pc) { StartsAreNearer(s.sh, pc, choice);
    } else { EndsAreNearer(s.sh, pc, choice); }
    assert Nearer(s.sh, pc, Next(s, Run(tid, choice)).threads[tid]);
  }
}
