/**
 The candidate race: at most two connection attempts in flight, a stagger between launches, and for each
 attempt a share of the time that is left.

 Time is in nanoseconds.  Timers fire on time; what an attempt does, and which of several ready branches is
 taken, is up to the environment.  `launches` and `failed` record what happened.
 */
module CandidateRace {
  import opened Common
  import opened CandidateOrder

  const MAX_CONCURRENT_CANDIDATES: nat := 2
  const CANDIDATE_STAGGER: nat := 250_000_000
  const MAX_U32: nat := 0xFFFF_FFFF

  /** `inFlight` attempts were running and `waiting` candidates were left behind when this one was launched. */
  datatype Launch = Launch(candidate: Address, at: nat, deadline: nat, inFlight: nat, waiting: nat)

  /** `id` is the position of the attempt in `launches`. */
  datatype Attempt = Attempt(id: nat, deadline: nat)

  datatype Race = Race(
    now: nat,
    deadline: nat,
    stagger: nat,
    queue: seq<Address>,
    attempts: seq<Attempt>,
    nextLaunch: nat,
    launches: seq<Launch>,
    failed: set<nat>)

  function Min(a: nat, b: nat): nat { if a < b then a else b }

  function Max(a: nat, b: nat): nat { if a < b then b else a }

  function StaggerFor(totalBudget: nat): nat {
    Min(CANDIDATE_STAGGER, totalBudget / 2)
  }

  /** The stagger is a quarter of a second, or half of the time there is if that is less. */
  lemma StaggerIsBounded(totalBudget: nat)
    ensures var s := StaggerFor(totalBudget);
      s <= 250_000_000 && 2 * s <= totalBudget && (s == 250_000_000 || totalBudget <= 2 * s + 1)
  {}

  function Begin(all: seq<Address>, start: nat, deadline: nat, stagger: nat): Race {
    Race(start, deadline, stagger, all, [], start, [], {})
  }

  /** Batches of two that `candidates` candidates need. */
  function Batches(candidates: nat): nat {
    (candidates + 1) / MAX_CONCURRENT_CANDIDATES
  }

  /** The share of `left` an attempt gets when `candidates` candidates, itself included, still need time. */
  function Budget(left: nat, candidates: nat): nat
    requires candidates > 0
  {
    left / Min(Batches(candidates), MAX_U32)
  }

  predicate LaunchDue(r: Race) {
    && r.queue != []
    && |r.attempts| < MAX_CONCURRENT_CANDIDATES
    && (r.attempts == [] || r.now >= r.nextLaunch)
  }

  function LaunchOf(r: Race): Launch
    requires r.queue != [] && r.now <= r.deadline
  {
    var candidates := |r.queue| + |r.attempts|;
    Launch(r.queue[0], r.now, r.now + Budget(r.deadline - r.now, candidates), |r.attempts|, |r.queue| - 1)
  }

  function LaunchNext(r: Race): Race
    requires r.queue != [] && r.now <= r.deadline
  {
    r.(queue := r.queue[1..],
       attempts := r.attempts + [Attempt(|r.launches|, LaunchOf(r).deadline)],
       nextLaunch := r.now + r.stagger,
       launches := r.launches + [LaunchOf(r)])
  }

  /** The first half of a lap: launch if one is due. */
  function Prepared(r: Race): Race
    requires r.now <= r.deadline
  {
    if LaunchDue(r) then LaunchNext(r) else r
  }

  datatype Event =
    | OverallDeadline
    | LaunchTimer
    | Done(index: nat, ok: bool)

  predicate TimerArmed(r: Race) {
    r.queue != [] && |r.attempts| < MAX_CONCURRENT_CANDIDATES
  }

  /** No timer of the race lies before `at`, so the wait may last until then. */
  predicate MayWaitUntil(r: Race, at: nat) {
    && r.now <= at <= r.deadline
    && (TimerArmed(r) ==> at <= Max(r.now, r.nextLaunch))
    && (forall k :: 0 <= k < |r.attempts| ==> at <= Max(r.now, r.attempts[k].deadline))
  }

  predicate CanHappen(r: Race, e: Event, at: nat) {
    && MayWaitUntil(r, at)
    && match e
       case OverallDeadline => at == r.deadline
       case LaunchTimer => TimerArmed(r) && at == Max(r.now, r.nextLaunch)
       case Done(index, _) => index < |r.attempts|
  }

  function Without(s: seq<Attempt>, k: nat): seq<Attempt>
    requires k < |s|
  {
    s[..k] + s[k + 1..]
  }

  /** The second half of a lap: what the wait ended with. */
  function Happen(r: Race, e: Event, at: nat): Race
    requires CanHappen(r, e, at)
  {
    match e
    case OverallDeadline => r.(now := at)
    case LaunchTimer => r.(now := at)
    case Done(index, _) =>
      r.(now := at, attempts := Without(r.attempts, index), failed := r.failed + {r.attempts[index].id})
  }

  /** A lap that does not end the race. */
  predicate Lap(r: Race, e: Event, at: nat, r': Race) {
    && r.now < r.deadline
    && Prepared(r).attempts != []
    && CanHappen(Prepared(r), e, at)
    && !(e.Done? && e.ok)
    && r' == Happen(Prepared(r), e, at)
  }

  // ---------------------------------------------------------------------------------------
  // What every lap keeps
  // ---------------------------------------------------------------------------------------

  predicate LaunchOk(l: Launch, deadline: nat, total: nat) {
    && l.at < deadline
    && l.at <= l.deadline <= deadline
    && l.inFlight < MAX_CONCURRENT_CANDIDATES
    && total > 0
    && l.deadline - l.at >= (deadline - l.at) / Batches(total)
  }

  /** Launched in queue order, each at most once; the rest is still waiting. */
  predicate QueueInv(r: Race, all: seq<Address>) {
    && |r.launches| <= |all|
    && r.queue == all[|r.launches|..]
    && forall i :: 0 <= i < |r.launches| ==>
         && r.launches[i].candidate == all[i] && r.launches[i].waiting == |all| - i - 1
         && LaunchOk(r.launches[i], r.deadline, |all|)
  }

  predicate Flying(r: Race, id: nat) {
    exists k :: 0 <= k < |r.attempts| && r.attempts[k].id == id
  }

  /** At most two in flight, and every launched attempt is in flight or has failed, not both. */
  predicate AttemptsInv(r: Race) {
    && |r.attempts| <= MAX_CONCURRENT_CANDIDATES
    && (forall k :: 0 <= k < |r.attempts| ==>
          && r.attempts[k].id < |r.launches|
          && r.attempts[k].deadline == r.launches[r.attempts[k].id].deadline
          && r.attempts[k].id !in r.failed)
    && (|r.attempts| == 2 ==> r.attempts[0].id != r.attempts[1].id)
    && (forall id :: id in r.failed ==> id < |r.launches|)
    && (forall id: nat :: id < |r.launches| ==> id in r.failed || Flying(r, id))
  }

  /** Launches that do not find the race idle keep the stagger. */
  predicate StaggerInv(r: Race) {
    && (r.launches != [] ==> r.nextLaunch == r.launches[|r.launches| - 1].at + r.stagger)
    && (forall i :: 0 < i < |r.launches| ==> Staggered(r, i))
  }

  predicate Staggered(r: Race, i: nat)
    requires 0 < i < |r.launches|
  {
    r.launches[i].inFlight == 0 || r.launches[i - 1].at + r.stagger <= r.launches[i].at
  }

  predicate RaceInv(r: Race, all: seq<Address>) {
    r.now <= r.deadline && QueueInv(r, all) && AttemptsInv(r) && StaggerInv(r)
  }

  lemma TimesMonotone(a: nat, b: nat, c: nat)
    requires a <= b
    ensures a * c <= b * c && c * a <= c * b
  {}

  lemma QuotientAtLeast(left: nat, d: nat, q: nat)
    requires d > 0 && q * d <= left
    ensures q <= left / d
  {
    var p := left / d;
    if p < q {
      TimesMonotone(p + 1, q, d);
    }
  }

  lemma SmallerShareIsSmaller(left: nat, a: nat, b: nat)
    requires 0 < a <= b
    ensures left / b <= left / a <= left
  {
    var q := left / b;
    assert q * b <= left;
    TimesMonotone(a, b, q);
    QuotientAtLeast(left, a, q);
    var p := left / a;
    assert p * a <= left;
    TimesMonotone(1, a, p);
  }

  lemma BudgetIsFair(left: nat, candidates: nat, total: nat)
    requires 0 < candidates <= total
    ensures left / Batches(total) <= Budget(left, candidates) <= left
  {
    SmallerShareIsSmaller(left, Min(Batches(candidates), MAX_U32), Batches(total));
  }

  lemma LaunchKeepsInv(r: Race, all: seq<Address>)
    requires RaceInv(r, all) && r.now < r.deadline && LaunchDue(r)
    requires |r.queue| + |r.attempts| <= |all|
    ensures RaceInv(LaunchNext(r), all)
  {
    var r' := LaunchNext(r);
    BudgetIsFair(r.deadline - r.now, |r.queue| + |r.attempts|, |all|);
    assert QueueInv(r', all);
    forall id: nat | id < |r'.launches| ensures id in r'.failed || Flying(r', id) {
      if id == |r.launches| {
        assert r'.attempts[|r.attempts|].id == id;
      } else if id !in r.failed {
        assert Flying(r, id);
        var k :| 0 <= k < |r.attempts| && r.attempts[k].id == id;
        assert r'.attempts[k].id == id;
      }
    }
    assert AttemptsInv(r');
    forall i | 0 < i < |r'.launches| ensures Staggered(r', i) {
      if i < |r.launches| {
        assert Staggered(r, i);
      }
    }
  }

  /** What is waiting and what is in flight are different candidates, so together they are at most all of them. */
  lemma FlyingPlusWaiting(r: Race, all: seq<Address>)
    requires QueueInv(r, all) && AttemptsInv(r)
    ensures |r.queue| + |r.attempts| <= |all|
  {
    if |r.attempts| == 2 {
      assert r.attempts[0].id < |r.launches| && r.attempts[1].id < |r.launches|;
    } else if |r.attempts| == 1 {
      assert r.attempts[0].id < |r.launches|;
    }
  }

  lemma FailureKeepsAttempts(r: Race, index: nat, at: nat)
    requires AttemptsInv(r) && index < |r.attempts|
    ensures AttemptsInv(r.(now := at, attempts := Without(r.attempts, index), failed := r.failed + {r.attempts[index].id}))
  {
    var r' := r.(now := at, attempts := Without(r.attempts, index), failed := r.failed + {r.attempts[index].id});
    forall id: nat | id < |r'.launches| ensures id in r'.failed || Flying(r', id) {
      if id !in r.failed && id != r.attempts[index].id {
        assert Flying(r, id);
        var k :| 0 <= k < |r.attempts| && r.attempts[k].id == id;
        assert r'.attempts[if k < index then k else k - 1].id == id;
      }
    }
  }

  lemma HappenKeepsInv(r: Race, e: Event, at: nat, all: seq<Address>)
    requires RaceInv(r, all) && CanHappen(r, e, at)
    ensures RaceInv(Happen(r, e, at), all)
  {
    var r' := Happen(r, e, at);
    if e.Done? {
      FailureKeepsAttempts(r, e.index, at);
    } else {
      forall id: nat | id < |r'.launches| ensures id in r'.failed || Flying(r', id) {
        assert id in r.failed || Flying(r, id);
      }
    }
    forall i | 0 < i < |r'.launches| ensures Staggered(r', i) {
      assert Staggered(r, i);
    }
  }

  lemma PreparedKeepsInv(r: Race, all: seq<Address>)
    requires RaceInv(r, all) && r.now < r.deadline
    ensures RaceInv(Prepared(r), all)
  {
    if LaunchDue(r) {
      FlyingPlusWaiting(r, all);
      LaunchKeepsInv(r, all);
    }
  }

  // ---------------------------------------------------------------------------------------
  // The race itself
  // ---------------------------------------------------------------------------------------

  datatype Outcome = Connected(id: nat) | TimedOut | NothingLeft(tried: bool)

  ghost predicate IsRun(trace: seq<Race>) {
    && |trace| > 0
    && forall i :: 0 < i < |trace| ==> LapAt(trace, i)
  }

  ghost predicate LapAt(trace: seq<Race>, i: nat)
    requires 0 < i < |trace|
  {
    Laps(trace[i - 1], trace[i])
  }

  ghost predicate Laps(r: Race, r': Race) {
    exists e, at :: Lap(r, e, at, r')
  }

  /** How much work is left: every lap launches, fails an attempt, or makes a launch due. */
  function Remaining(r: Race): nat {
    3 * |r.queue| + |r.attempts| + if LaunchDue(r) then 0 else 1
  }

  /**
   How the race ends, from the last lap that did not end it.  Time is up; or nothing is in flight any more, and then
   every candidate was launched and failed; or the attempt that the wait ended with has connected, and then that
   attempt, which was launched and had not failed, is the answer.
   */
  ghost predicate IsRight(outcome: Outcome, last: Race, end: Race, env: Race -> (Event, nat), all: seq<Address>)
    requires end.now <= end.deadline
  {
    if end.now == end.deadline then outcome.TimedOut? && last == end
    else if Prepared(end).attempts == [] then
      && last == Prepared(end) && last.queue == []
      && outcome == NothingLeft(all != [])
      && forall i: nat :: i < |all| ==> i in last.failed
    else
      && last == Prepared(end)
      && Connects(env(last).0, last, outcome)
      && outcome.id < |last.launches| <= |all| && outcome.id !in last.failed
      && last.launches[outcome.id].candidate == all[outcome.id]
  }

  /** The event is the success of the attempt in the outcome. */
  predicate Connects(e: Event, r: Race, outcome: Outcome) {
    e.Done? && e.ok && e.index < |r.attempts| && outcome == Connected(r.attempts[e.index].id)
  }

  /** Each lap of the run is what the environment made of it; none of them ended the race. */
  ghost predicate PlaysOut(trace: seq<Race>, env: Race -> (Event, nat)) {
    forall i :: 0 < i < |trace| ==> PlaysAt(trace, i, env)
  }

  ghost predicate PlaysAt(trace: seq<Race>, i: nat, env: Race -> (Event, nat))
    requires 0 < i < |trace|
  {
    var r := trace[i - 1];
    r.now < r.deadline && Lap(r, env(Prepared(r)).0, env(Prepared(r)).1, trace[i])
  }

  ghost predicate RespectsTimers(env: Race -> (Event, nat)) {
    forall r: Race :: r.attempts != [] && r.now < r.deadline ==> CanHappen(r, env(r).0, env(r).1)
  }

  /**
   The loop.  `env` decides how each wait ends; it must respect the timers.  The race always ends, and its
   answer is right.
   */
  method RaceCandidates(all: seq<Address>, start: nat, deadline: nat, stagger: nat, env: Race -> (Event, nat))
    returns (outcome: Outcome, last: Race, ghost trace: seq<Race>)
    requires start <= deadline
    requires RespectsTimers(env)
    ensures RaceInv(last, all)
    ensures IsRun(trace) && trace[0] == Begin(all, start, deadline, stagger)
    ensures PlaysOut(trace, env)
    ensures var end := trace[|trace| - 1]; end.deadline == deadline && end.now <= deadline && IsRight(outcome, last, end, env, all)
  {
    last := Begin(all, start, deadline, stagger);
    var tried := false;
    trace := [last];
    while true
      invariant last.deadline == deadline && RaceInv(last, all)
      invariant IsRun(trace) && trace[0] == Begin(all, start, deadline, stagger) && last == trace[|trace| - 1]
      invariant PlaysOut(trace, env)
      invariant tried <==> last.failed != {}
      decreases Remaining(last)
    {
      if last.now >= deadline {
        return TimedOut, last, trace;
      }
      var over: Option<Outcome>;
      over, last, tried, trace := RunLap(last, tried, env, trace, all);
      if over.Some? {
        return over.value, last, trace;
      }
    }
  }

  /** One pass of the loop: what it ends with, or the race after it. */
  method RunLap(r: Race, triedBefore: bool, env: Race -> (Event, nat), ghost trace: seq<Race>, ghost all: seq<Address>)
    returns (over: Option<Outcome>, last: Race, tried: bool, ghost longer: seq<Race>)
    requires RespectsTimers(env) && r.now < r.deadline && RaceInv(r, all)
    requires IsRun(trace) && PlaysOut(trace, env) && r == trace[|trace| - 1] && (triedBefore <==> r.failed != {})
    ensures RaceInv(last, all) && last.deadline == r.deadline
    ensures IsRun(longer) && PlaysOut(longer, env) && longer[0] == trace[0]
    ensures over.None? ==>
      last == longer[|longer| - 1] && Remaining(last) < Remaining(r) && (tried <==> last.failed != {})
    ensures over.Some? ==>
      var end := longer[|longer| - 1];
      end.deadline == r.deadline && end.now <= end.deadline && IsRight(over.value, last, end, env, all)
  {
    PreparedKeepsInv(r, all);
    PreparingFailsNobody(r);
    var p := LaunchIfDue(r);
    if p.attempts == [] {
      NothingLeftEnds(r, env, all);
      return Some(NothingLeft(triedBefore)), p, triedBefore, trace;
    }
    over, last, tried, longer := WaitForEvent(r, p, triedBefore, env, trace, all);
  }

  lemma PreparingFailsNobody(r: Race)
    requires r.now <= r.deadline
    ensures Prepared(r).failed == r.failed && Prepared(r).deadline == r.deadline
  {}

  lemma NothingLeftEnds(r: Race, env: Race -> (Event, nat), all: seq<Address>)
    requires r.now < r.deadline && RaceInv(Prepared(r), all) && Prepared(r).attempts == []
    ensures r.failed != {} <==> all != []
    ensures IsRight(NothingLeft(all != []), Prepared(r), r, env, all)
  {
    NothingLeftIsRight(r, all);
    PreparingFailsNobody(r);
  }

  /** The second half of the pass, with something in flight: the wait, and what it ends with. */
  method WaitForEvent(ghost r: Race, p: Race, triedBefore: bool, env: Race -> (Event, nat), ghost trace: seq<Race>,
                      ghost all: seq<Address>)
    returns (over: Option<Outcome>, last: Race, tried: bool, ghost longer: seq<Race>)
    requires RespectsTimers(env) && r.now < r.deadline && p == Prepared(r) && RaceInv(p, all) && p.attempts != []
    requires IsRun(trace) && PlaysOut(trace, env) && r == trace[|trace| - 1] && (triedBefore <==> p.failed != {})
    ensures RaceInv(last, all) && last.deadline == r.deadline
    ensures IsRun(longer) && PlaysOut(longer, env) && longer[0] == trace[0]
    ensures over.None? ==>
      last == longer[|longer| - 1] && Remaining(last) < Remaining(r) && (tried <==> last.failed != {})
    ensures over.Some? ==>
      var end := longer[|longer| - 1];
      end.deadline == r.deadline && end.now <= end.deadline && IsRight(over.value, last, end, env, all)
  {
    var (event, at) := env(p);
    tried, longer := triedBefore, trace;
    if event.Done? && event.ok {
      ConnectedIsRight(r, env, all);
      return Some(Connected(p.attempts[event.index].id)), p, tried, longer;
    }
    tried := tried || event.Done?;
    longer := LapGoesOn(trace, event, at, all);
    PlayingGoesOn(trace, env, longer);
    last := Settle(p, event, at);
    over := if event.OverallDeadline? then Some(TimedOut) else None;
  }

  lemma ConnectedIsRight(r: Race, env: Race -> (Event, nat), all: seq<Address>)
    requires r.now < r.deadline && RaceInv(Prepared(r), all) && Prepared(r).attempts != []
    requires var e := env(Prepared(r)).0; e.Done? && e.ok && e.index < |Prepared(r).attempts|
    ensures var last := Prepared(r);
      IsRight(Connected(last.attempts[env(last).0.index].id), last, r, env, all)
  {
    var last := Prepared(r);
    assert last.attempts[env(last).0.index].id !in last.failed;
  }

  /** One more lap: the invariant holds, the run is longer, and unless time is up the end is nearer. */
  lemma LapGoesOn(trace: seq<Race>, e: Event, at: nat, all: seq<Address>) returns (longer: seq<Race>)
    requires IsRun(trace)
    requires var r := trace[|trace| - 1];
      && r.now < r.deadline && RaceInv(Prepared(r), all) && Prepared(r).attempts != []
      && CanHappen(Prepared(r), e, at) && !(e.Done? && e.ok)
    ensures var r := trace[|trace| - 1];
      && longer == trace + [Happen(Prepared(r), e, at)] && IsRun(longer)
      && RaceInv(Happen(Prepared(r), e, at), all)
      && (!e.OverallDeadline? ==> Remaining(Happen(Prepared(r), e, at)) < Remaining(r))
  {
    var r := trace[|trace| - 1];
    HappenKeepsInv(Prepared(r), e, at, all);
    assert Lap(r, e, at, Happen(Prepared(r), e, at));
    longer := ExtendRun(trace, Happen(Prepared(r), e, at));
    if !e.OverallDeadline? { LapMakesProgress(r, e, at); }
  }

  lemma PlayingGoesOn(trace: seq<Race>, env: Race -> (Event, nat), longer: seq<Race>)
    requires trace != [] && PlaysOut(trace, env) && |longer| == |trace| + 1 && longer[..|trace|] == trace
    requires PlaysAt(longer, |trace|, env)
    ensures PlaysOut(longer, env)
  {
    forall i | 0 < i < |longer| ensures PlaysAt(longer, i, env) {
      if i < |trace| {
        assert longer[i - 1] == trace[i - 1] && longer[i] == trace[i];
        assert PlaysAt(trace, i, env);
      }
    }
  }

  method LaunchIfDue(r: Race) returns (r': Race)
    requires r.now <= r.deadline
    ensures r' == Prepared(r)
  {
    r' := r;
    if r'.queue != [] && |r'.attempts| < MAX_CONCURRENT_CANDIDATES && (r'.attempts == [] || r'.now >= r'.nextLaunch) {
      var address := r'.queue[0];
      r' := r'.(queue := r'.queue[1..]);
      var budget := Budget(r'.deadline - r'.now, |r'.queue| + |r'.attempts| + 1);
      var launch := Launch(address, r'.now, r'.now + budget, |r'.attempts|, |r'.queue|);
      r' := r'.(attempts := r'.attempts + [Attempt(|r'.launches|, launch.deadline)]);
      r' := r'.(launches := r'.launches + [launch], nextLaunch := r'.now + r'.stagger);
    }
  }

  /** The wait is over; an attempt that failed leaves the set. */
  method Settle(r: Race, event: Event, at: nat) returns (r': Race)
    requires CanHappen(r, event, at)
    ensures r' == Happen(r, event, at)
    ensures r'.failed != {} <==> r.failed != {} || event.Done?
  {
    r' := r.(now := at);
    if event.Done? {
      r' := r'.(failed := r'.failed + {r'.attempts[event.index].id});
      r' := r'.(attempts := r'.attempts[..event.index] + r'.attempts[event.index + 1..]);
      assert r.attempts[event.index].id in r'.failed;
    }
  }

  lemma ExtendRun(trace: seq<Race>, r: Race) returns (longer: seq<Race>)
    requires IsRun(trace) && Laps(trace[|trace| - 1], r)
    ensures longer == trace + [r] && IsRun(longer)
  {
    longer := trace + [r];
    forall i | 0 < i < |longer| ensures LapAt(longer, i) {
      if i < |trace| {
        assert LapAt(trace, i);
      }
    }
  }

  lemma LapMakesProgress(r: Race, e: Event, at: nat)
    requires r.now < r.deadline && Prepared(r).attempts != [] && CanHappen(Prepared(r), e, at)
    requires !e.OverallDeadline?
    ensures Remaining(Happen(Prepared(r), e, at)) < Remaining(r)
  {}

  lemma NothingLeftIsRight(r: Race, all: seq<Address>)
    requires r.now < r.deadline && RaceInv(Prepared(r), all) && Prepared(r).attempts == []
    ensures Prepared(r).queue == [] && forall i: nat :: i < |all| ==> i in Prepared(r).failed
    ensures Prepared(r).failed != {} <==> all != []
  {
    var p := Prepared(r);
    forall i: nat | i < |all| ensures i in p.failed {
      assert !Flying(p, i);
    }
    if all != [] {
      assert 0 in p.failed;
    }
  }
}
