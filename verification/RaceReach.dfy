/**
 Which calls reach every candidate: a condition on the number of candidates, the time that is left and the
 stagger, exact over all runs of the race, whatever the attempts do.
 */
module RaceReach {
  import opened CandidateOrder
  import opened CandidateRace
  import opened RaceFairness

  /** A run of the race that ended without a connection. */
  ghost predicate EndedRun(trace: seq<Race>, all: seq<Address>, start: nat, deadline: nat, stagger: nat) {
    && IsRun(trace) && trace[0] == Begin(all, start, deadline, stagger)
    && trace[|trace| - 1].now <= deadline && trace[|trace| - 1].deadline == deadline
    && Terminal(trace[|trace| - 1])
  }

  lemma {:induction false} RunInv(trace: seq<Race>, all: seq<Address>, start: nat, deadline: nat, stagger: nat, j: nat)
    requires IsRun(trace) && trace[0] == Begin(all, start, deadline, stagger) && start <= deadline && j < |trace|
    ensures RaceInv(trace[j], all) && trace[j].deadline == deadline && trace[j].stagger == stagger
  {
    if j > 0 {
      RunInv(trace, all, start, deadline, stagger, j - 1);
      assert LapAt(trace, j);
      var e, at :| Lap(trace[j - 1], e, at, trace[j]);
      PreparedKeepsInv(trace[j - 1], all);
      HappenKeepsInv(Prepared(trace[j - 1]), e, at, all);
    }
  }

  // ---------------------------------------------------------------------------------------
  // Enough time
  // ---------------------------------------------------------------------------------------

  /** `n` staggers. */
  function Staggers(n: nat, stagger: nat): nat {
    if n == 0 then 0 else stagger + Staggers(n - 1, stagger)
  }

  lemma {:induction false} StaggersIsProduct(n: nat, stagger: nat)
    ensures Staggers(n, stagger) == n * stagger
  {
    if n > 0 {
      StaggersIsProduct(n - 1, stagger);
      assert n * stagger == (n - 1) * stagger + stagger;
    }
  }

  /** The latest time at which the next launch is due. */
  function NextChance(r: Race): nat {
    if r.attempts == [] then r.now else Max(r.now, r.nextLaunch)
  }

  /** An attempt that can outlast the next stagger leaves a stagger for all that will be waiting then but one. */
  predicate LeavesTime(r: Race, a: Attempt) {
    |r.queue| >= 2 && a.deadline > r.nextLaunch + r.stagger ==>
      a.deadline + Staggers(|r.queue| - 2, r.stagger) < r.deadline
  }

  /** While something waits, at most one attempt flies, and a stagger apart there is time for all that wait. */
  predicate Timely(r: Race) {
    r.queue != [] ==>
      && |r.attempts| <= 1
      && NextChance(r) + Staggers(|r.queue| - 1, r.stagger) < r.deadline
      && (forall k :: 0 <= k < |r.attempts| ==> LeavesTime(r, r.attempts[k]))
  }

  /** A budget of more than two staggers, taken from a fair share, leaves the others theirs. */
  lemma LongBudgetLeavesTime(left: nat, batches: nat, waiting: nat, stagger: nat)
    requires waiting >= 2 && batches >= (waiting + 2) / 2 && left / batches > 2 * stagger
    ensures left / batches + Staggers(waiting - 2, stagger) < left
  {
    var budget, half := left / batches, waiting / 2;
    ShareLeavesOthers(left, batches, half);
    TimesMonotone(2 * stagger + 1, budget, half);
    HalvesAreEnough(waiting, half, stagger);
    StaggersIsProduct(waiting - 2, stagger);
  }

  lemma ShareLeavesOthers(left: nat, batches: nat, others: nat)
    requires batches >= others + 1
    ensures left / batches + others * (left / batches) <= left
  {
    var budget := left / batches;
    assert budget * batches <= left;
    TimesMonotone(others + 1, batches, budget);
    assert (others + 1) * budget == others * budget + budget;
  }

  lemma HalvesAreEnough(waiting: nat, half: nat, stagger: nat)
    requires waiting >= 2 && half == waiting / 2
    ensures (waiting - 2) * stagger < half * (2 * stagger + 1)
  {
    assert half * (2 * stagger + 1) == (2 * half) * stagger + half;
    TimesMonotone(waiting - 2, 2 * half, stagger);
  }

  /** With two batches or more an attempt's deadline lies before the overall one. */
  lemma SharedBudgetIsShort(left: nat, batches: nat)
    requires left > 0 && batches >= 2
    ensures left / batches < left
  {
    var budget := left / batches;
    assert budget * batches <= left;
    TimesMonotone(2, batches, budget);
  }

  lemma LaunchLeavesTime(r: Race)
    requires r.queue != [] && r.now < r.deadline && |r.queue| + |r.attempts| <= 2 * MAX_U32
    ensures var p := LaunchNext(r); LeavesTime(p, p.attempts[|r.attempts|])
  {
    var p, left, candidates := LaunchNext(r), r.deadline - r.now, |r.queue| + |r.attempts|;
    if |p.queue| >= 2 && LaunchOf(r).deadline > p.nextLaunch + r.stagger {
      LongBudgetLeavesTime(left, Batches(candidates), |p.queue|, r.stagger);
    }
  }

  /** After a launch out of idleness the next one is a stagger away at most. */
  lemma SoloLaunchIsTimely(r: Race, e: Event, at: nat)
    requires Timely(r) && r.now < r.deadline && r.attempts == [] && |r.queue| >= 2 && |r.queue| <= 2 * MAX_U32
    requires CanHappen(LaunchNext(r), e, at)
    ensures Timely(Happen(LaunchNext(r), e, at))
  {
    LaunchLeavesTime(r);
  }

  /** A wait for the next launch or for the one attempt in flight loses nothing. */
  lemma WaitingIsTimely(r: Race, e: Event, at: nat)
    requires Timely(r) && r.now < r.deadline && |r.attempts| == 1 && r.now < r.nextLaunch && r.queue != []
    requires CanHappen(r, e, at)
    ensures Timely(Happen(r, e, at))
  {
  }

  /** With two in flight and somebody waiting, the wait ends with one of the two, early enough. */
  lemma SecondLaunchIsTimely(r: Race, e: Event, at: nat)
    requires Timely(r) && r.now < r.deadline && |r.attempts| == 1 && r.now >= r.nextLaunch
    requires |r.queue| >= 2 && |r.queue| + 1 <= 2 * MAX_U32
    requires CanHappen(LaunchNext(r), e, at)
    ensures Timely(Happen(LaunchNext(r), e, at))
  {
    var p, left, batches := LaunchNext(r), r.deadline - r.now, Batches(|r.queue| + 1);
    LaunchLeavesTime(r);
    SharedBudgetIsShort(left, batches);
    assert p.attempts[0] == r.attempts[0] && p.attempts[1].deadline == r.now + left / batches;
    TwoInFlightEndInTime(p, e, at);
  }

  lemma TwoInFlightEndInTime(p: Race, e: Event, at: nat)
    requires |p.attempts| == 2 && p.queue != [] && p.now < p.deadline && p.attempts[1].deadline < p.deadline
    requires p.nextLaunch == p.now + p.stagger && p.nextLaunch + Staggers(|p.queue| - 1, p.stagger) < p.deadline
    requires p.attempts[0].deadline > p.nextLaunch ==> p.attempts[0].deadline + Staggers(|p.queue| - 1, p.stagger) < p.deadline
    requires LeavesTime(p, p.attempts[0]) && LeavesTime(p, p.attempts[1])
    requires CanHappen(p, e, at)
    ensures Timely(Happen(p, e, at))
  {
    assert at <= Max(p.now, p.attempts[0].deadline) && at <= Max(p.now, p.attempts[1].deadline);
    var q := Happen(p, e, at);
    assert |q.attempts| == 1 && (q.attempts[0] == p.attempts[0] || q.attempts[0] == p.attempts[1]);
  }

  lemma LapIsTimely(r: Race, e: Event, at: nat, r': Race, all: seq<Address>)
    requires RaceInv(r, all) && |all| <= 2 * MAX_U32 && Timely(r) && Lap(r, e, at, r')
    ensures Timely(r')
  {
    FlyingPlusWaiting(r, all);
    if |r.queue| >= 2 {
      if r.attempts == [] {
        SoloLaunchIsTimely(r, e, at);
      } else if r.now >= r.nextLaunch {
        SecondLaunchIsTimely(r, e, at);
      } else {
        WaitingIsTimely(r, e, at);
      }
    } else if |r.queue| == 1 && !LaunchDue(r) {
      WaitingIsTimely(r, e, at);
    }
  }

  lemma {:induction false} RunIsTimely(trace: seq<Race>, all: seq<Address>, start: nat, deadline: nat, stagger: nat, j: nat)
    requires IsRun(trace) && trace[0] == Begin(all, start, deadline, stagger) && j < |trace|
    requires 0 < |all| <= 2 * MAX_U32 && start + Staggers(|all| - 1, stagger) < deadline
    ensures Timely(trace[j])
  {
    if j > 0 {
      RunIsTimely(trace, all, start, deadline, stagger, j - 1);
      RunInv(trace, all, start, deadline, stagger, j - 1);
      assert LapAt(trace, j);
      var e, at :| Lap(trace[j - 1], e, at, trace[j]);
      LapIsTimely(trace[j - 1], e, at, trace[j], all);
    }
  }

  /** Enough time: every run that ends without a connection has launched every candidate. */
  lemma EnoughTimeReachesAll(trace: seq<Race>, all: seq<Address>, start: nat, deadline: nat, stagger: nat)
    requires EndedRun(trace, all, start, deadline, stagger) && start <= deadline
    requires 0 < |all| <= 2 * MAX_U32 && deadline - start > (|all| - 1) * stagger
    ensures |trace[|trace| - 1].launches| == |all|
  {
    var end := trace[|trace| - 1];
    StaggersIsProduct(|all| - 1, stagger);
    RunIsTimely(trace, all, start, deadline, stagger, |trace| - 1);
    RunInv(trace, all, start, deadline, stagger, |trace| - 1);
    assert end.queue == [];
  }

  // ---------------------------------------------------------------------------------------
  // Too little time
  // ---------------------------------------------------------------------------------------

  lemma QuotientLeaves(left: nat, d: nat, stagger: nat)
    requires d > 0 && left / d < stagger
    ensures left - left / d <= (d - 1) * stagger
  {
    var b := left / d;
    assert left < (b + 1) * d;
    assert (b + 1) * d == (b + 1) * (d - 1) + (b + 1);
    TimesMonotone(b + 1, stagger, d - 1);
    assert (d - 1) * stagger == stagger * (d - 1);
  }

  /** An attempt that flies alone can take a stagger or its whole budget, and then less is left than the others need. */
  lemma SoloTakesItsShare(left: nat, candidates: nat, stagger: nat)
    requires candidates >= 3 && left <= Staggers(candidates - 1, stagger)
    ensures left - Min(stagger, Budget(left, candidates)) <= Staggers(candidates - 2, stagger)
  {
    var d := Min(Batches(candidates), MAX_U32);
    if left / d < stagger {
      QuotientLeaves(left, d, stagger);
      TimesMonotone(d - 1, candidates - 2, stagger);
      StaggersIsProduct(candidates - 2, stagger);
    }
  }

  /** A race that is idle, with too little time for those that wait. */
  predicate TooLateForAll(r: Race) {
    && r.attempts == [] && r.queue != [] && r.now <= r.deadline
    && r.deadline - r.now <= Staggers(|r.queue| - 1, r.stagger)
  }

  lemma ExtendFront(r: Race, rest: seq<Race>)
    requires IsRun(rest) && Laps(r, rest[0])
    ensures IsRun([r] + rest)
  {
    var trace := [r] + rest;
    forall i | 0 < i < |trace| ensures LapAt(trace, i) {
      if i > 1 { assert LapAt(rest, i - 1); }
    }
  }

  /** The last but one gets everything, and the last one's turn comes with the deadline. */
  lemma LastTwoLap(r: Race) returns (r': Race)
    requires TooLateForAll(r) && |r.queue| == 2 && r.now < r.deadline
    ensures Laps(r, r') && r'.now == r'.deadline == r.deadline && r'.queue != []
  {
    var p := LaunchNext(r);
    LonerGetsEverything(r.deadline - r.now);
    assert Staggers(1, r.stagger) == r.stagger;
    assert p.attempts[0].deadline == r.deadline;
    r' := Happen(p, OverallDeadline, r.deadline);
    assert Lap(r, OverallDeadline, r.deadline, r');
  }

  /** One attempt alone, which fails after a stagger or with its budget. */
  lemma SoloLap(r: Race) returns (r': Race)
    requires TooLateForAll(r) && |r.queue| >= 3 && r.now < r.deadline
    ensures Laps(r, r') && TooLateForAll(r')
    ensures |r'.queue| == |r.queue| - 1 && r'.deadline == r.deadline
  {
    var p, left := LaunchNext(r), r.deadline - r.now;
    SoloTakesItsShare(left, |r.queue|, r.stagger);
    BudgetIsFair(left, |r.queue|, |r.queue|);
    var at := r.now + Min(r.stagger, Budget(left, |r.queue|));
    r' := Happen(p, Done(0, false), at);
    assert Lap(r, Done(0, false), at, r');
  }

  lemma {:induction false} SomeRunMisses(r: Race) returns (trace: seq<Race>)
    requires TooLateForAll(r)
    ensures IsRun(trace) && trace[0] == r
    ensures var end := trace[|trace| - 1];
      end.now <= end.deadline == r.deadline && Terminal(end) && end.queue != []
    decreases |r.queue|
  {
    if r.now == r.deadline {
      trace := [r];
    } else if |r.queue| == 2 {
      var r' := LastTwoLap(r);
      ExtendFront(r, [r']);
      trace := [r] + [r'];
    } else {
      var r' := SoloLap(r);
      var rest := SomeRunMisses(r');
      ExtendFront(r, rest);
      trace := [r] + rest;
    }
  }

  /** Too little time: some run ends without having launched the last candidate. */
  lemma TooLittleTimeCanMiss(all: seq<Address>, start: nat, deadline: nat, stagger: nat) returns (trace: seq<Race>)
    requires start <= deadline && 0 < |all| && deadline - start <= (|all| - 1) * stagger
    ensures EndedRun(trace, all, start, deadline, stagger)
    ensures |trace[|trace| - 1].launches| < |all|
  {
    StaggersIsProduct(|all| - 1, stagger);
    trace := SomeRunMisses(Begin(all, start, deadline, stagger));
    RunInv(trace, all, start, deadline, stagger, |trace| - 1);
  }

  /** Every run that ends without a connection has launched every candidate. */
  ghost predicate AlwaysReachesAll(all: seq<Address>, start: nat, deadline: nat, stagger: nat) {
    forall trace: seq<Race> :: EndedRun(trace, all, start, deadline, stagger) ==> |trace[|trace| - 1].launches| == |all|
  }

  /**
   Exact, on the arguments of the race: no run misses a candidate if and only if the time left exceeds one
   stagger for each candidate but the first.
   */
  lemma ReachesAllIff(all: seq<Address>, start: nat, deadline: nat, stagger: nat)
    requires start <= deadline && 0 < |all| <= 2 * MAX_U32
    ensures AlwaysReachesAll(all, start, deadline, stagger) <==> deadline - start > (|all| - 1) * stagger
  {
    if deadline - start > (|all| - 1) * stagger {
      forall trace: seq<Race> | EndedRun(trace, all, start, deadline, stagger) ensures |trace[|trace| - 1].launches| == |all| {
        EnoughTimeReachesAll(trace, all, start, deadline, stagger);
      }
    } else {
      var trace := TooLittleTimeCanMiss(all, start, deadline, stagger);
    }
  }

  /**
   The same for a call with its own stagger: `called` is when the call began, `start` when the addresses were
   there.  A quarter of a second for each further candidate is enough.
   */
  lemma CallReachesAllIff(all: seq<Address>, called: nat, start: nat, totalBudget: nat)
    requires called <= start <= called + totalBudget && 0 < |all| <= 2 * MAX_U32
    ensures AlwaysReachesAll(all, start, called + totalBudget, StaggerFor(totalBudget)) <==>
            called + totalBudget - start > (|all| - 1) * StaggerFor(totalBudget)
    ensures called + totalBudget - start > (|all| - 1) * CANDIDATE_STAGGER ==>
            AlwaysReachesAll(all, start, called + totalBudget, StaggerFor(totalBudget))
  {
    ReachesAllIff(all, start, called + totalBudget, StaggerFor(totalBudget));
    TimesMonotone(StaggerFor(totalBudget), CANDIDATE_STAGGER, |all| - 1);
  }

  // ---------------------------------------------------------------------------------------
  // Silent attempts and hardly any time
  // ---------------------------------------------------------------------------------------

  /** With no more than a stagger left, candidates go one by one until the last two. */
  predicate OneByOne(r: Race) {
    && r.now <= r.deadline && r.deadline - r.now <= r.stagger
    && if |r.queue| >= 2 then r.attempts == [] else Doomed(r)
  }

  lemma SilentLapIsOneByOne(r: Race, e: Event, at: nat, r': Race)
    requires SilentInv(r) && OneByOne(r) && SilentLap(r, e, at, r')
    ensures OneByOne(r')
  {
    if |r.queue| >= 3 {
      SoloSilenceEnds(r, e, at);
    } else if |r.queue| == 2 {
      LonerGetsEverything(r.deadline - r.now);
    } else {
      DoomStays(r, e, at, r');
    }
  }

  lemma SoloSilenceEnds(r: Race, e: Event, at: nat)
    requires r.attempts == [] && |r.queue| >= 3 && r.now < r.deadline <= r.now + r.stagger
    requires CanHappen(LaunchNext(r), e, at)
    ensures Happen(LaunchNext(r), e, at).attempts == [] && at < r.deadline
  {
    var p := LaunchNext(r);
    SharedBudgetIsShort(r.deadline - r.now, Min(Batches(|r.queue|), MAX_U32));
    assert p.attempts[0].deadline < r.deadline && at <= Max(p.now, p.attempts[0].deadline);
    assert e.Done? && Without(p.attempts, e.index) == [];
  }

  lemma {:induction false} SilentRunIsOneByOne(trace: seq<Race>, all: seq<Address>, start: nat, deadline: nat, stagger: nat, j: nat)
    requires SilentRun(trace, all, start, deadline, stagger) && j < |trace|
    requires |all| >= 2 && deadline - start <= stagger
    ensures OneByOne(trace[j])
  {
    if j > 0 {
      SilentRunIsOneByOne(trace, all, start, deadline, stagger, j - 1);
      SilentRunInv(trace, all, start, deadline, stagger, j - 1);
      assert SilentAt(trace, j);
      var e, at :| SilentLap(trace[j - 1], e, at, trace[j]);
      SilentLapIsOneByOne(trace[j - 1], e, at, trace[j]);
    }
  }

  /** Silent runs are runs, so `EnoughTimeReachesAll` speaks about them as well. */
  lemma SilentRunEnds(trace: seq<Race>, all: seq<Address>, start: nat, deadline: nat, stagger: nat)
    requires SilentRun(trace, all, start, deadline, stagger) && Terminal(trace[|trace| - 1])
    ensures EndedRun(trace, all, start, deadline, stagger)
  {
    SilentRunInv(trace, all, start, deadline, stagger, |trace| - 1);
    forall i | 0 < i < |trace| ensures LapAt(trace, i) {
      assert SilentAt(trace, i);
    }
  }

  /** Then every silent run misses the last candidate, and only that one. */
  lemma SilentRunsMissTheLast(trace: seq<Race>, all: seq<Address>, start: nat, deadline: nat, stagger: nat)
    requires SilentRun(trace, all, start, deadline, stagger) && Terminal(trace[|trace| - 1])
    requires |all| >= 2 && deadline - start <= stagger
    ensures |trace[|trace| - 1].launches| == |all| - 1
  {
    var end := trace[|trace| - 1];
    SilentRunIsOneByOne(trace, all, start, deadline, stagger, |trace| - 1);
    SilentRunInv(trace, all, start, deadline, stagger, |trace| - 1);
    NoCandidateStarves(trace, all, start, deadline, stagger);
    assert Doomed(end);
  }
}
