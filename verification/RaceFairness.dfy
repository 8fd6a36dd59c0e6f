/** No candidate starves: what happens when every attempt stays silent until its own deadline. */
module RaceFairness {
  import opened CandidateOrder
  import opened CandidateRace

  /** Nothing succeeds, and nothing fails before its time. */
  predicate SilentLap(r: Race, e: Event, at: nat, r': Race) {
    && Lap(r, e, at, r')
    && (e.Done? ==> at == Max(r.now, Prepared(r).attempts[e.index].deadline))
  }

  ghost predicate SilentLaps(r: Race, r': Race) {
    exists e, at :: SilentLap(r, e, at, r')
  }

  ghost predicate SilentAt(trace: seq<Race>, i: nat)
    requires 0 < i < |trace|
  {
    SilentLaps(trace[i - 1], trace[i])
  }

  ghost predicate SilentRun(trace: seq<Race>, all: seq<Address>, start: nat, deadline: nat, stagger: nat) {
    && |trace| > 0
    && start < deadline
    && trace[0] == Begin(all, start, deadline, stagger)
    && forall i :: 0 < i < |trace| ==> SilentAt(trace, i)
  }

  /** The loop would end here: out of time, or nothing in flight and nothing to launch. */
  predicate Terminal(r: Race) {
    r.now >= r.deadline || Prepared(r).attempts == []
  }

  function LastLaunch(r: Race): Launch
    requires r.launches != []
  {
    r.launches[|r.launches| - 1]
  }

  /** One candidate is left, and the one before it was launched while nothing was in flight. */
  predicate OneLeftBehindLoner(r: Race) {
    |r.queue| == 1 && r.launches != [] && LastLaunch(r).inFlight == 0
  }

  /** ... with at most a stagger of time left when it was launched. */
  predicate Doomed(r: Race) {
    OneLeftBehindLoner(r) && r.deadline <= LastLaunch(r).at + r.stagger
  }

  ghost predicate LonerInv(r: Race) {
    && r.nextLaunch == LastLaunchAt(r) + r.stagger
    && |r.attempts| <= 1
    && (forall k :: 0 <= k < |r.attempts| ==> r.attempts[k].deadline == r.deadline)
    && (r.attempts == [] ==> r.now == r.deadline)
    && (r.now == r.deadline ==> Doomed(r))
  }

  function LastLaunchAt(r: Race): nat {
    if r.launches == [] then 0 else LastLaunch(r).at
  }

  ghost predicate SilentInv(r: Race) {
    && r.now <= r.deadline
    && |r.attempts| <= MAX_CONCURRENT_CANDIDATES
    && (r.queue != [] && !OneLeftBehindLoner(r) ==>
          r.now < r.deadline && forall k :: 0 <= k < |r.attempts| ==> r.attempts[k].deadline < r.deadline)
    && (OneLeftBehindLoner(r) ==> LonerInv(r))
  }

  /** With three or more candidates to serve, nobody gets all the time that is left. */
  lemma ShareLeavesTime(left: nat, candidates: nat)
    requires left > 0 && candidates >= 3
    ensures Budget(left, candidates) < left
  {
    var d := Min(Batches(candidates), MAX_U32);
    assert d >= 2;
    var b := left / d;
    assert b * d <= left;
    TimesMonotone(2, d, b);
  }

  lemma LonerGetsEverything(left: nat)
    ensures Budget(left, 2) == left
  {}

  lemma PreparedKeepsSilentInv(r: Race)
    requires SilentInv(r) && r.now < r.deadline
    ensures SilentInv(Prepared(r)) && Prepared(r).now == r.now
  {
    if LaunchDue(r) && |r.queue| >= 2 {
      var candidates := |r.queue| + |r.attempts|;
      if candidates >= 3 {
        ShareLeavesTime(r.deadline - r.now, candidates);
      } else {
        LonerGetsEverything(r.deadline - r.now);
      }
    }
  }

  lemma SilentEventKeepsInv(p: Race, e: Event, at: nat)
    requires SilentInv(p) && p.now < p.deadline && p.attempts != [] && CanHappen(p, e, at)
    requires e.Done? ==> at == Max(p.now, p.attempts[e.index].deadline)
    ensures SilentInv(Happen(p, e, at))
  {
    if p.queue != [] {
      assert at <= Max(p.now, p.attempts[0].deadline);
    }
  }

  lemma SilentLapKeepsInv(r: Race, e: Event, at: nat, r': Race)
    requires SilentInv(r) && SilentLap(r, e, at, r')
    ensures SilentInv(r')
  {
    PreparedKeepsSilentInv(r);
    SilentEventKeepsInv(Prepared(r), e, at);
  }

  /** Once doomed, the last candidate is never launched: no lap changes what was launched or what waits. */
  lemma DoomStays(r: Race, e: Event, at: nat, r': Race)
    requires SilentInv(r) && Doomed(r) && SilentLap(r, e, at, r')
    ensures Doomed(r') && r'.queue == r.queue && r'.launches == r.launches
  {
    assert !LaunchDue(r);
  }

  lemma {:induction false} SilentRunInv(trace: seq<Race>, all: seq<Address>, start: nat, deadline: nat, stagger: nat, j: nat)
    requires SilentRun(trace, all, start, deadline, stagger) && j < |trace|
    ensures SilentInv(trace[j]) && RaceInv(trace[j], all)
    ensures trace[j].deadline == deadline && trace[j].stagger == stagger
  {
    if j > 0 {
      SilentRunInv(trace, all, start, deadline, stagger, j - 1);
      assert SilentAt(trace, j);
      var e, at :| SilentLap(trace[j - 1], e, at, trace[j]);
      SilentLapKeepsInv(trace[j - 1], e, at, trace[j]);
      PreparedKeepsInv(trace[j - 1], all);
      HappenKeepsInv(Prepared(trace[j - 1]), e, at, all);
    }
  }

  lemma {:induction false} SilentRunDoomStays(trace: seq<Race>, all: seq<Address>, start: nat, deadline: nat, stagger: nat,
                                              i: nat, j: nat)
    requires SilentRun(trace, all, start, deadline, stagger) && i <= j < |trace| && Doomed(trace[i])
    ensures Doomed(trace[j])
    decreases j - i
  {
    if i < j {
      SilentRunDoomStays(trace, all, start, deadline, stagger, i, j - 1);
      SilentRunInv(trace, all, start, deadline, stagger, j - 1);
      assert SilentAt(trace, j);
      var e, at :| SilentLap(trace[j - 1], e, at, trace[j]);
      DoomStays(trace[j - 1], e, at, trace[j]);
    }
  }

  /**
   No candidate starves.  When every attempt is silent until its own deadline, every candidate has been
   launched by the end of the race, strictly before the overall deadline, with one exception: the last one is
   missed if and only if the one before it was launched with nothing in flight and at most a stagger of time left.
   */
  lemma NoCandidateStarves(trace: seq<Race>, all: seq<Address>, start: nat, deadline: nat, stagger: nat)
    requires SilentRun(trace, all, start, deadline, stagger) && Terminal(trace[|trace| - 1])
    ensures var end := trace[|trace| - 1];
      && |all| - 1 <= |end.launches| <= |all|
      && (forall i :: 0 <= i < |end.launches| ==> end.launches[i].at < deadline && end.launches[i].candidate == all[i])
      && (|end.launches| < |all| <==> Doomed(end))
      && (Doomed(end) <==> exists i :: 0 <= i < |trace| && Doomed(trace[i]))
  {
    var end := trace[|trace| - 1];
    SilentRunInv(trace, all, start, deadline, stagger, |trace| - 1);
    if i :| 0 <= i < |trace| && Doomed(trace[i]) {
      SilentRunDoomStays(trace, all, start, deadline, stagger, i, |trace| - 1);
    }
  }
}
