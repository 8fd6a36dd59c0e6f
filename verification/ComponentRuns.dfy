/** What every run of the component manager keeps, for every interleaving of its critical sections. */
module ComponentRuns {
  import opened Common
  import opened ComponentJournal
  import opened ComponentRegistry

  lemma FreshInv()
    ensures Inv(Fresh) && Agreement(Fresh.reg) && SnapshotIntact(Fresh)
  {}

  lemma {:induction false} ReachableInv(states: seq<System>, calls: seq<Call>, j: nat)
    requires IsRun(states, calls) && j < |states|
    ensures Inv(states[j])
  {
    if j == 0 {
      FreshInv();
    } else {
      ReachableInv(states, calls, j - 1);
      assert StepAt(states, calls, j - 1);
      CallKeepsInv(states[j - 1], calls[j - 1]);
    }
  }

  lemma StepEvolves(states: seq<System>, calls: seq<Call>, j: nat)
    requires IsRun(states, calls) && j < |calls|
    ensures Evolves(states[j].reg, states[j + 1].reg)
  {
    ReachableInv(states, calls, j);
    assert StepAt(states, calls, j);
    CallKeepsInv(states[j], calls[j]);
  }

  lemma EvolvesReflexive(r: Registry)
    ensures Evolves(r, r)
  {}

  lemma {:induction false} RunEvolves(states: seq<System>, calls: seq<Call>, i: nat, j: nat)
    requires IsRun(states, calls) && i <= j < |states|
    ensures Evolves(states[i].reg, states[j].reg)
    decreases j - i
  {
    if i == j {
      EvolvesReflexive(states[i].reg);
    } else {
      RunEvolves(states, calls, i, j - 1);
      StepEvolves(states, calls, j - 1);
      EvolvesTransitive(states[i].reg, states[j - 1].reg, states[j].reg);
    }
  }

  // ---------------------------------------------------------------------------------------
  // Leases
  // ---------------------------------------------------------------------------------------

  /**
   A lease that was dropped, or whose component was removed, never authorizes anything again: not after any
   later calls, and not after the same component id is registered again as either kind.
   */
  lemma StaleLeasesNeverAuthorize(states: seq<System>, calls: seq<Call>, i: nat, j: nat, l: nat,
                                  operation: Operation, origin: Option<Origin>, up: bool)
    requires IsRun(states, calls) && i <= j < |states|
    requires l < states[i].reg.nextLease && l !in states[i].reg.leases
    ensures l !in states[j].reg.leases
    ensures Authorize(states[j].reg, l, operation, up).answer == Err(InvalidLease)
    ensures AuthorizeNotification(states[j].reg, l, origin, operation, up).answer.Err?
  {
    RunEvolves(states, calls, i, j);
  }

  /**
   `authorize_credential` checks the digest, gives up the lock and takes it again.  Whatever ran in between,
   the second half answers for the very holder whose credential was checked, or refuses.
   */
  lemma CredentialAnswersForItsHolder(states: seq<System>, calls: seq<Call>, i: nat, j: nat, l: nat, digest: nat,
                                      operation: Operation, up: bool)
    requires IsRun(states, calls) && i <= j < |states| && CredentialMatches(states[i].reg, l, digest)
    ensures l in states[j].reg.leases ==>
              SameHolder(states[i].reg.leases[l], states[j].reg.leases[l]) && CredentialMatches(states[j].reg, l, digest)
    ensures l !in states[j].reg.leases ==> Authorize(states[j].reg, l, operation, up).answer == Err(InvalidLease)
  {
    ReachableInv(states, calls, i);
    RunEvolves(states, calls, i, j);
  }

  // ---------------------------------------------------------------------------------------
  // Policies
  // ---------------------------------------------------------------------------------------

  /**
   Across every run a generation names one policy of one component, except the largest value of the counter, and
   the generations of a component never go back.
   */
  lemma GenerationsNamePolicies(states: seq<System>, calls: seq<Call>, i: nat, j: nat, a: ComponentId, b: ComponentId)
    requires IsRun(states, calls) && i <= j < |states|
    requires PolicyOf(states[i].reg, a).Some? && PolicyOf(states[j].reg, b).Some?
    ensures var p, q := PolicyOf(states[i].reg, a).value, PolicyOf(states[j].reg, b).value;
      && (p.generation == q.generation < MAX_U64 ==> a == b && p == q)
      && (a == b ==> p.generation <= q.generation)
  {
    var r, r' := states[i].reg, states[j].reg;
    ReachableInv(states, calls, i);
    RunEvolves(states, calls, i, j);
    assert PolicyKept(r, r', b) || r.nextGeneration <= PolicyOf(r', b).value.generation;
  }

  /** The two calls that hand out decisions; `authorize_credential` ends in the first. */
  datatype Question =
    | Ask(l: nat, operation: Operation, up: bool)
    | AskToNotify(l: nat, origin: Option<Origin>, operation: Operation, up: bool)

  function Answer(r: Registry, q: Question): Result<Decision, Error> {
    match q
    case Ask(l, operation, up) => Authorize(r, l, operation, up).answer
    case AskToNotify(l, origin, operation, up) => AuthorizeNotification(r, l, origin, operation, up).answer
  }

  /** A decision of either call is the policy in force for the lease's component. */
  lemma DecisionsAreThePolicy(r: Registry, q: Question)
    requires KindsDisjoint(r) && Answer(r, q).Ok?
    ensures var d := Answer(r, q).value;
      && q.l in r.leases
      && PolicyOf(r, r.leases[q.l].component) == Some(Policy(r.leases[q.l].purpose == FileSharing, d.route, d.generation))
  {}

  /**
   Two decisions of one run, by either call, that carry the same policy generation below the largest concern the
   same component and the same route, and decisions about one component never go back to a smaller generation.
   */
  lemma GenerationsDetermineDecisions(states: seq<System>, calls: seq<Call>, i: nat, j: nat, q: Question, q': Question)
    requires IsRun(states, calls) && i <= j < |states|
    requires Answer(states[i].reg, q).Ok? && Answer(states[j].reg, q').Ok?
    ensures var d, d' := Answer(states[i].reg, q).value, Answer(states[j].reg, q').value;
      && q.l in states[i].reg.leases && q'.l in states[j].reg.leases
      && var c, c' := states[i].reg.leases[q.l].component, states[j].reg.leases[q'.l].component;
         && (d.generation == d'.generation < MAX_U64 ==> c == c' && d.route == d'.route)
         && (c == c' ==> d.generation <= d'.generation)
  {
    ReachableInv(states, calls, i);
    ReachableInv(states, calls, j);
    DecisionsAreThePolicy(states[i].reg, q);
    DecisionsAreThePolicy(states[j].reg, q');
    GenerationsNamePolicies(states, calls, i, j, states[i].reg.leases[q.l].component, states[j].reg.leases[q'.l].component);
  }

  /**
   Exactly when two policies issued one after the other, to whichever components, carry different generations:
   when the counter has not reached its largest value before the first.
   */
  lemma NextGenerationsDifferIff(r: Registry, first: Change, second: Change)
    requires KindsDisjoint(r) && r.nextGeneration <= MAX_U64 && Allowed(r, first) && Allowed(Apply(r, first), second)
    requires Targets(first).Some? && Targets(second).Some?
    ensures var r1 := Apply(r, first); var r2 := Apply(r1, second);
      var p, q := PolicyOf(r1, Targets(first).value), PolicyOf(r2, Targets(second).value);
      && p.Some? && q.Some?
      && (p.value.generation != q.value.generation <==> r.nextGeneration < MAX_U64)
  {
    IssuesNext(r, first);
    ChangeKeepsKinds(r, first);
    IssuesNext(Apply(r, first), second);
  }

  lemma IssuesNext(r: Registry, change: Change)
    requires KindsDisjoint(r) && Allowed(r, change) && Targets(change).Some?
    ensures var r' := Apply(r, change); var p := PolicyOf(r', Targets(change).value);
      p.Some? && p.value.generation == r.nextGeneration && r'.nextGeneration == SaturatingNext(r.nextGeneration)
  {
  }

  lemma ChangeKeepsKinds(r: Registry, change: Change)
    requires KindsDisjoint(r) && Allowed(r, change)
    ensures KindsDisjoint(Apply(r, change))
  {
  }

  /** At the largest value: any two components registered from then on share one generation. */
  lemma SaturatedGenerationsCollide(r: Registry, a: ComponentId, b: ComponentId)
    requires r.nextGeneration == MAX_U64 && Unregistered(r, a) && Unregistered(r, b) && a != b
    ensures var r' := Apply(Apply(r, AddFileShare(a)), AddFileShare(b));
      PolicyOf(r', a).Some? && PolicyOf(r', b).Some?
      && PolicyOf(r', a).value.generation == PolicyOf(r', b).value.generation
  {}

  // ---------------------------------------------------------------------------------------
  // Routes and runtimes
  // ---------------------------------------------------------------------------------------

  /** No lease is dropped in the middle of a route change that has already listed it. */
  ghost predicate Undisturbed(states: seq<System>, calls: seq<Call>) {
    |calls| <= |states| && forall i :: 0 <= i < |calls| ==> !Disturbs(states[i], calls[i])
  }

  /** In every undisturbed run each lease is backed by exactly the runtime kind its current route needs. */
  lemma {:induction false} UndisturbedRunsAgree(states: seq<System>, calls: seq<Call>, j: nat)
    requires IsRun(states, calls) && Undisturbed(states, calls) && j < |states|
    ensures Agreement(states[j].reg) && SnapshotIntact(states[j])
  {
    if j == 0 {
      FreshInv();
    } else {
      UndisturbedRunsAgree(states, calls, j - 1);
      ReachableInv(states, calls, j - 1);
      assert StepAt(states, calls, j - 1);
      UndisturbedCallKeepsAgreement(states[j - 1], calls[j - 1]);
    }
  }

  /** Fail-closed: a decision for Vpn or Tor is backed by an available runtime of that very kind. */
  lemma DecisionsAreBacked(r: Registry, l: nat, operation: Operation, up: bool)
    requires Agreement(r) && Authorize(r, l, operation, up).answer.Ok?
    ensures var d := Authorize(r, l, operation, up).answer.value;
      && l in r.leases
      && (d.route == Vpn ==> KindOf(r.leases[l].runtime) == Some(VpnRuntime) && up)
      && (d.route == Tor ==> KindOf(r.leases[l].runtime) == Some(TorRuntime) && up)
      && d.route != Block
      && (r.leases[l].purpose == FileSharing ==> d.route == Tor)
  {
    assert LeaseAgrees(r, l);
  }

  lemma NotificationsAreBacked(r: Registry, l: nat, origin: Option<Origin>, operation: Operation, up: bool)
    requires Agreement(r) && AuthorizeNotification(r, l, origin, operation, up).answer.Ok?
    ensures var d := AuthorizeNotification(r, l, origin, operation, up).answer.value;
      && l in r.leases && r.leases[l].purpose == WebNotification
      && r.leases[l].component in r.webApps && origin == Some(r.webApps[r.leases[l].component].origin)
      && (d.route == Vpn ==> KindOf(r.leases[l].runtime) == Some(VpnRuntime) && up)
      && (d.route == Tor ==> KindOf(r.leases[l].runtime) == Some(TorRuntime) && up)
      && d.route != Block
  {
    assert LeaseAgrees(r, l);
  }

  // ---------------------------------------------------------------------------------------
  // The disturbed route change
  // ---------------------------------------------------------------------------------------

  const App := ComponentId("app")

  function DisturbedCalls(): seq<Call> {
    [CallRegisterWebApp(App, Some(Origin("https://app.example")), Vpn, false),
     BeginAcquire(App, WebNavigation), EndAcquire(0, 0),
     BeginAcquire(App, WebNavigation), EndAcquire(1, 1),
     BeginRoute(App, Tor), CallDrop(1), EndRoute([(1, 2), (2, 3)])]
  }

  /** The registry after the first `n` of those calls, and the call in flight then. */
  function DisturbedRegistry(n: nat): Registry {
    var app := WebApp(Origin("https://app.example"), if n < 8 then Vpn else Tor, false, if n < 8 then 1 else 2);
    var first := Lease(App, WebNavigation, 0, Some(Runtime(VpnRuntime, 0)));
    var second := Lease(App, WebNavigation, 1, Some(Runtime(VpnRuntime, 1)));
    Registry(
      if n < 3 then 1 else if n < 5 then 2 else 3,
      if n == 0 then 1 else if n < 8 then 2 else 3,
      if n == 0 then map[] else map[App := app],
      map[],
      if n < 3 then map[] else if n < 5 then map[1 := first] else if n < 7 then map[1 := first, 2 := second]
      else map[2 := second])
  }

  function DisturbedFlight(n: nat): Flight {
    if n == 2 || n == 4 then Acquiring(App, WebNavigation, Vpn)
    else if n == 6 || n == 7 then Routing(App, Tor, {1, 2})
    else Idle
  }

  /** Agreement can fail: after this run lease 2 authorizes Tor while it still holds a VPN runtime. */
  lemma DisturbedRouteChangeDisagrees() returns (states: seq<System>)
    ensures IsRun(states, DisturbedCalls())
    ensures var r := states[8].reg;
      && !Agreement(r)
      && Authorize(r, 2, Navigation, true).answer == Ok(Decision(Tor, Navigation, 2))
      && KindOf(r.leases[2].runtime) == Some(VpnRuntime)
  {
    var calls := DisturbedCalls();
    states := [Fresh];
    while |states| < 9
      invariant 1 <= |states| <= 9 && states[0] == Fresh
      invariant forall n :: 0 <= n < |states| ==>
        states[n].reg == DisturbedRegistry(n) && states[n].flight == DisturbedFlight(n)
      invariant forall i :: 0 <= i < |states| - 1 ==> Leads(states[i], calls[i], states[i + 1])
    {
      var n := |states| - 1;
      var s := states[n];
      if n < 4 { EarlyStep(s, n); }
      if n == 4 { SecondLeaseStep(s); }
      if n == 5 { BeginRouteStep(s); }
      if n == 6 { DropStep(s); }
      if n == 7 { LastStep(s); }
      states := states + [Do(s, calls[n])];
    }
    forall i | 0 <= i < |calls| ensures StepAt(states, calls, i) {
      assert Leads(states[i], calls[i], states[i + 1]);
    }
    assert !LeaseAgrees(states[8].reg, 2);
  }

  predicate Leads(s: System, call: Call, s': System) {
    Can(s, call) && s' == Do(s, call)
  }

  lemma EarlyStep(s: System, n: nat)
    requires n < 4 && s.reg == DisturbedRegistry(n) && s.flight == DisturbedFlight(n) && (n == 0 ==> s == Fresh)
    ensures var call := DisturbedCalls()[n];
      && Can(s, call)
      && Do(s, call).reg == DisturbedRegistry(n + 1) && Do(s, call).flight == DisturbedFlight(n + 1)
  {}

  lemma SecondLeaseStep(s: System)
    requires s.reg == DisturbedRegistry(4) && s.flight == DisturbedFlight(4)
    ensures var call := DisturbedCalls()[4];
      && Can(s, call)
      && Do(s, call).reg == DisturbedRegistry(5) && Do(s, call).flight == DisturbedFlight(5)
  {
    assert |s.reg.leases| == 1;
  }

  lemma BeginRouteStep(s: System)
    requires s.reg == DisturbedRegistry(5) && s.flight == DisturbedFlight(5)
    ensures var call := DisturbedCalls()[5];
      && Can(s, call)
      && Do(s, call).reg == DisturbedRegistry(6) && Do(s, call).flight == DisturbedFlight(6)
  {
    assert LeasesOf(s.reg, App) == {1, 2};
  }

  lemma DropStep(s: System)
    requires s.reg == DisturbedRegistry(6) && s.flight == DisturbedFlight(6)
    ensures var call := DisturbedCalls()[6];
      && Can(s, call)
      && Do(s, call).reg == DisturbedRegistry(7) && Do(s, call).flight == DisturbedFlight(7)
  {
    assert s.reg.leases - {1} == DisturbedRegistry(7).leases;
  }

  lemma LastStep(s: System)
    requires s.reg == DisturbedRegistry(7) && s.flight == DisturbedFlight(7)
    ensures var call := DisturbedCalls()[7];
      && Can(s, call)
      && Do(s, call).reg == DisturbedRegistry(8) && Do(s, call).flight == DisturbedFlight(8)
  {
    var grants: Grants := [(1, 2), (2, 3)];
    assert grants[0].0 == 1 && grants[1].0 == 2;
    assert GrantsCover(grants, {1, 2});
    assert !InstallsAll(s.reg.leases, grants);
  }

  // ---------------------------------------------------------------------------------------
  // Events
  // ---------------------------------------------------------------------------------------

  /** Operations one call after the other. */
  function Flattened(ops: seq<seq<Op>>, j: nat): seq<Op>
    requires j <= |ops|
  {
    if j == 0 then [] else Flattened(ops, j - 1) + ops[j - 1]
  }

  lemma AfterAppend(j: Journal, ops: seq<Op>, more: seq<Op>)
    requires |more| <= 1
    ensures After(After(j, ops), more) == After(j, ops + more)
  {
    if more == [] {
      assert ops + more == ops;
    } else {
      assert (ops + more)[..|ops + more| - 1] == ops;
      assert more[..|more| - 1] == [];
    }
  }

  /** `after` is `before` with at most one operation done. */
  predicate DoesAtMostOne(before: Journal, ops: seq<Op>, after: Journal) {
    |ops| <= 1 && after == After(before, ops)
  }

  lemma {:induction false} JournalsChain(journals: seq<Journal>, ops: seq<seq<Op>>, j: nat)
    requires |journals| == |ops| + 1 && journals[0] == EmptyJournal && j <= |ops|
    requires forall i :: 0 <= i < |ops| ==> DoesAtMostOne(journals[i], ops[i], journals[i + 1])
    ensures journals[j] == After(EmptyJournal, Flattened(ops, j))
  {
    if j > 0 {
      JournalsChain(journals, ops, j - 1);
      assert DoesAtMostOne(journals[j - 1], ops[j - 1], journals[j]);
      AfterAppend(EmptyJournal, Flattened(ops, j - 1), ops[j - 1]);
    }
  }

  lemma JournalOfCall(s: System, call: Call)
    requires Can(s, call)
    ensures DoesAtMostOne(s.journal, JournalOp(s, call), Do(s, call).journal)
  {
  }

  predicate CanAll(states: seq<System>, calls: seq<Call>) {
    |states| == |calls| + 1 && forall i :: 0 <= i < |calls| ==> Can(states[i], calls[i])
  }

  lemma RunCanAll(states: seq<System>, calls: seq<Call>)
    requires IsRun(states, calls)
    ensures CanAll(states, calls)
  {
    forall i | 0 <= i < |calls| ensures Can(states[i], calls[i]) {
      assert StepAt(states, calls, i);
    }
  }

  function OpsOf(states: seq<System>, calls: seq<Call>): seq<seq<Op>>
    requires CanAll(states, calls)
  {
    seq(|calls|, i requires 0 <= i < |calls| => JournalOp(states[i], calls[i]))
  }

  /** The journal operations of the first `j` calls of a run. */
  ghost function Operations(states: seq<System>, calls: seq<Call>, j: nat): seq<Op>
    requires IsRun(states, calls) && j <= |calls|
  {
    RunCanAll(states, calls);
    Flattened(OpsOf(states, calls), j)
  }

  lemma JournalIsItsOperations(states: seq<System>, calls: seq<Call>, j: nat)
    requires IsRun(states, calls) && j <= |calls|
    ensures states[j].journal == After(EmptyJournal, Operations(states, calls, j))
  {
    RunCanAll(states, calls);
    var journals := seq(|states|, i requires 0 <= i < |states| => states[i].journal);
    var ops := OpsOf(states, calls);
    forall i | 0 <= i < |ops| ensures DoesAtMostOne(journals[i], ops[i], journals[i + 1]) {
      JournalOfRun(states, calls, i);
    }
    JournalsChain(journals, ops, j);
  }

  lemma JournalOfRun(states: seq<System>, calls: seq<Call>, i: nat)
    requires IsRun(states, calls) && CanAll(states, calls) && i < |calls|
    ensures DoesAtMostOne(states[i].journal, OpsOf(states, calls)[i], states[i + 1].journal)
  {
    assert StepAt(states, calls, i);
    JournalOfCall(states[i], calls[i]);
  }

  /** Event conservation for the manager: nothing its calls logged is lost without being counted. */
  lemma ManagerEventsAreConserved(states: seq<System>, calls: seq<Call>, j: nat, c: ComponentId)
    requires IsRun(states, calls) && j <= |calls|
    requires Pushed(Operations(states, calls, j), c) < MAX_U64
    ensures var ops := Operations(states, calls, j); var journal := states[j].journal;
      && Pushed(ops, c) == Drained(ops, c) + Reported(ops, c) + Pending(journal, c) + |Queue(journal, c)|
      && Consecutive(journal, c)
  {
    JournalIsItsOperations(states, calls, j);
    EventsAreConserved(Operations(states, calls, j), c);
  }
}
