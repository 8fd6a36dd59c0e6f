/**
 What the public calls of the component manager answer and change, said on the records alone: who is entitled to
 which operation, what an acquired lease is good for, whose records a call touches and what the journal tells.
 */
module ComponentAnswers {
  import opened Common
  import opened ComponentJournal
  import opened ComponentRegistry
  import opened ComponentRuns

  // ---------------------------------------------------------------------------------------
  // Who is entitled to what
  // ---------------------------------------------------------------------------------------

  predicate UnblockedApp(r: Registry, id: ComponentId) {
    id in r.webApps && !r.webApps[id].route.Block?
  }

  /** Each operation belongs to leases of one purpose, and to components of one kind. */
  predicate Entitled(r: Registry, lease: Lease, operation: Operation) {
    match operation
    case Navigation => lease.purpose.WebNavigation? && UnblockedApp(r, lease.component)
    case Subresource => lease.purpose.WebNavigation? && UnblockedApp(r, lease.component)
    case NotificationDelivery => lease.purpose.WebNotification? && UnblockedApp(r, lease.component)
    case NotificationAction => lease.purpose.WebNotification? && UnblockedApp(r, lease.component)
    case FileSharePublish => lease.purpose.FileSharing? && lease.component in r.fileShares
    case FileShareDownload => lease.purpose.FileSharing? && lease.component in r.fileShares
  }

  /** The decision carries the operation asked for, and the route and generation the component has now. */
  predicate Decides(r: Registry, lease: Lease, operation: Operation, d: Decision) {
    && d.operation == operation
    && (if lease.purpose.FileSharing?
        then lease.component in r.fileShares && d.route.Tor? && d.generation == r.fileShares[lease.component]
        else lease.component in r.webApps && d.route == r.webApps[lease.component].route
             && d.generation == r.webApps[lease.component].generation)
  }

  /**
   Exactly when `authorize` says yes, for every registry and question: the lease is live, its runtime, if it has one,
   is up, and the operation belongs to the lease's purpose and to an unblocked component of the right kind.
   */
  lemma AuthorizationIsExact(r: Registry, l: nat, operation: Operation, up: bool)
    ensures var answer := Authorize(r, l, operation, up).answer;
      && (answer.Ok? <==> l in r.leases && (r.leases[l].runtime.None? || up) && Entitled(r, r.leases[l], operation))
      && (answer.Ok? ==> Decides(r, r.leases[l], operation, answer.value))
  {}

  /** And what it answers otherwise: the first thing that is wrong, in this order. */
  lemma RefusalsAreExact(r: Registry, l: nat, operation: Operation, up: bool)
    requires Authorize(r, l, operation, up).answer.Err?
    ensures var error := Authorize(r, l, operation, up).answer.error;
      if l !in r.leases then error.InvalidLease?
      else
        var lease := r.leases[l];
        if operation.Navigation? || operation.Subresource? then
          if !lease.purpose.WebNavigation? then error.WrongPurpose? else AppRefusal(r, lease, up, error)
        else if operation.NotificationDelivery? || operation.NotificationAction? then
          if !lease.purpose.WebNotification? then error.WrongPurpose? else AppRefusal(r, lease, up, error)
        else if !lease.purpose.FileSharing? then error.WrongPurpose?
        else if lease.runtime.Some? && !up then error.RuntimeUnavailable?
        else error.InvalidLease? && lease.component !in r.fileShares
  {}

  predicate AppRefusal(r: Registry, lease: Lease, up: bool, error: Error) {
    if lease.runtime.Some? && !up then error.RuntimeUnavailable?
    else if lease.component !in r.webApps then error.InvalidLease?
    else error.Blocked? && r.webApps[lease.component].route.Block?
  }

  /** `authorize_notification` says yes to the same leases, for the app's own origin only. */
  lemma NotificationIsExact(r: Registry, l: nat, origin: Option<Origin>, operation: Operation, up: bool)
    ensures var answer := AuthorizeNotification(r, l, origin, operation, up).answer;
      && (answer.Ok? <==>
          && (operation.NotificationDelivery? || operation.NotificationAction?)
          && l in r.leases && (r.leases[l].runtime.None? || up) && Entitled(r, r.leases[l], operation)
          && origin == Some(r.webApps[r.leases[l].component].origin))
      && (answer.Ok? ==> Decides(r, r.leases[l], operation, answer.value))
  {}

  // ---------------------------------------------------------------------------------------
  // Leases for notifications
  // ---------------------------------------------------------------------------------------

  predicate MayNotify(r: Registry, id: ComponentId) {
    id in r.webApps && r.webApps[id].notifications
  }

  /** Leases for notifications, and the one being acquired, belong to apps registered with notifications on. */
  predicate ConsentInv(s: System) {
    && (forall l :: l in s.reg.leases && s.reg.leases[l].purpose.WebNotification? ==> MayNotify(s.reg, s.reg.leases[l].component))
    && (s.flight.Acquiring? && s.flight.purpose.WebNotification? ==> MayNotify(s.reg, s.flight.id))
  }

  /** A change keeps an app's switch, unless it removes the app and its leases. */
  lemma ChangeKeepsConsent(r: Registry, change: Change, l: nat)
    requires LeasesInv(r) && Allowed(r, change)
    requires l in r.leases && r.leases[l].purpose.WebNotification? && MayNotify(r, r.leases[l].component)
    requires l in Apply(r, change).leases && l < r.nextLease
    ensures SameHolder(r.leases[l], Apply(r, change).leases[l]) && MayNotify(Apply(r, change), r.leases[l].component)
  {
    if change.Reroute? {
      InstallKeepsLeases(r.leases, change.route, change.grants);
      assert Apply(r, change).leases[l].(runtime := None) == r.leases[l].(runtime := None);
    }
  }

  lemma CallKeepsConsent(s: System, call: Call)
    requires Inv(s) && Can(s, call) && ConsentInv(s)
    ensures ConsentInv(Do(s, call))
  {
    var r' := Do(s, call).reg;
    forall l | l in r'.leases && r'.leases[l].purpose.WebNotification? ensures MayNotify(r', r'.leases[l].component) {
      LeaseKeepsConsent(s, call, l);
    }
    FlightKeepsConsent(s, call);
  }

  lemma LeaseKeepsConsent(s: System, call: Call, l: nat)
    requires Inv(s) && Can(s, call) && ConsentInv(s)
    requires l in Do(s, call).reg.leases && Do(s, call).reg.leases[l].purpose.WebNotification?
    ensures MayNotify(Do(s, call).reg, Do(s, call).reg.leases[l].component)
  {
    var r, change := s.reg, ChangeOf(s, call);
    CallIsAllowed(s, call);
    ChangeKeepsLeases(r, change);
    if l < r.nextLease {
      assert SameHolder(r.leases[l], Do(s, call).reg.leases[l]);
      ChangeKeepsConsent(r, change, l);
    } else {
      NewLeaseIsTheFlights(s, call, l);
    }
  }

  lemma NewLeaseIsTheFlights(s: System, call: Call, l: nat)
    requires Inv(s) && Can(s, call) && l in Do(s, call).reg.leases && s.reg.nextLease <= l
    ensures s.flight.Acquiring? && Do(s, call).reg.leases[l].component == s.flight.id
    ensures Do(s, call).reg.leases[l].purpose == s.flight.purpose && Do(s, call).reg.webApps == s.reg.webApps
  {
    NewIdIsALease(s.reg, ChangeOf(s, call), l);
    AddingIsAcquiring(s, call);
  }

  lemma NewIdIsALease(r: Registry, change: Change, l: nat)
    requires LeasesInv(r) && l in Apply(r, change).leases && r.nextLease <= l
    ensures change.AddLease? && l == r.nextLease
  {
    if change.Reroute? { InstallKeepsLeases(r.leases, change.route, change.grants); }
  }

  lemma AddingIsAcquiring(s: System, call: Call)
    requires Can(s, call) && ChangeOf(s, call).AddLease?
    ensures s.flight.Acquiring?
    ensures ChangeOf(s, call).lease.component == s.flight.id && ChangeOf(s, call).lease.purpose == s.flight.purpose
  {}

  lemma FlightKeepsConsent(s: System, call: Call)
    requires Inv(s) && Can(s, call) && ConsentInv(s)
    ensures var s' := Do(s, call);
      s'.flight.Acquiring? && s'.flight.purpose.WebNotification? ==> MayNotify(s'.reg, s'.flight.id)
  {}

  lemma {:induction false} ConsentHolds(states: seq<System>, calls: seq<Call>, j: nat)
    requires IsRun(states, calls) && j < |states|
    ensures ConsentInv(states[j])
  {
    if j > 0 {
      ConsentHolds(states, calls, j - 1);
      ReachableInv(states, calls, j - 1);
      assert StepAt(states, calls, j - 1);
      CallKeepsConsent(states[j - 1], calls[j - 1]);
    }
  }

  /** In every run, whichever call is asked: a notification is authorized only for an app registered with notifications on. */
  lemma NotificationsNeedConsent(states: seq<System>, calls: seq<Call>, j: nat, q: Question)
    requires IsRun(states, calls) && j < |states| && Answer(states[j].reg, q).Ok?
    requires q.operation.NotificationDelivery? || q.operation.NotificationAction?
    ensures q.l in states[j].reg.leases
    ensures var id := states[j].reg.leases[q.l].component;
      id in states[j].reg.webApps && states[j].reg.webApps[id].notifications
  {
    ConsentHolds(states, calls, j);
    match q
    case Ask(l, operation, up) => AuthorizationIsExact(states[j].reg, l, operation, up);
    case AskToNotify(l, origin, operation, up) => NotificationIsExact(states[j].reg, l, origin, operation, up);
  }

  // ---------------------------------------------------------------------------------------
  // Acquiring
  // ---------------------------------------------------------------------------------------

  /** Exactly when `acquire` gets past its first look: there is room and the component fits the purpose. */
  lemma AcquireBeginsIff(s: System, id: ComponentId, purpose: Purpose)
    requires Can(s, BeginAcquire(id, purpose))
    ensures Do(s, BeginAcquire(id, purpose)).reg == s.reg
    ensures Do(s, BeginAcquire(id, purpose)).flight.Acquiring? <==>
      && |s.reg.leases| < 4096
      && match purpose
         case WebNavigation => id in s.reg.webApps
         case WebNotification => id in s.reg.webApps && s.reg.webApps[id].notifications
         case FileSharing => id in s.reg.fileShares
         case LanProxy => false
  {}

  lemma {:induction false} AcquiringGoesOn(states: seq<System>, calls: seq<Call>, i: nat, j: nat, id: ComponentId, purpose: Purpose)
    requires IsRun(states, calls) && i < j < |states| && calls[i] == BeginAcquire(id, purpose) && states[i + 1].flight.Acquiring?
    requires forall k :: i < k < j ==> !calls[k].EndAcquire? && !calls[k].Abandon?
    ensures states[j].flight.Acquiring? && states[j].flight.id == id && states[j].flight.purpose == purpose
    decreases j - i
  {
    assert StepAt(states, calls, j - 1);
    if i + 1 < j { AcquiringGoesOn(states, calls, i, j - 1, id, purpose); }
  }

  /** The runtime a route runs on. */
  predicate RunsOn(route: Route, runtime: Option<Runtime>) {
    match route
    case Vpn => runtime.Some? && runtime.value.kind.VpnRuntime?
    case Tor => runtime.Some? && runtime.value.kind.TorRuntime?
    case Direct => runtime.None?
    case Block => runtime.None?
  }

  predicate RouteNow(r: Registry, id: ComponentId, purpose: Purpose, route: Route) {
    if purpose.FileSharing? then route.Tor? else id in r.webApps && r.webApps[id].route == route
  }

  /** The lease is for what was asked, and on the runtime that what was asked runs on now. */
  predicate AsAsked(r: Registry, lease: Lease, id: ComponentId, purpose: Purpose, digest: nat) {
    && lease.component == id && lease.purpose == purpose && lease.digest == digest
    && exists route :: RouteNow(r, id, purpose, route) && RunsOn(route, lease.runtime)
  }

  /**
   In every run: the end of an `acquire`, whatever other threads did since its beginning, adds one lease under an id
   never used before, for the component, purpose and credential it was called with, on the runtime its route needs
   now; or it changes nothing, and then the table is full or the ids have run out.
   */
  lemma AcquireGivesWhatWasAsked(states: seq<System>, calls: seq<Call>, i: nat, j: nat)
    requires IsRun(states, calls) && i < j < |calls| && calls[i].BeginAcquire? && states[i + 1].flight.Acquiring?
    requires forall k :: i < k < j ==> !calls[k].EndAcquire? && !calls[k].Abandon?
    requires calls[j].EndAcquire?
    ensures var r, r', l := states[j].reg, states[j + 1].reg, states[j].reg.nextLease;
      if |r.leases| < 4096 && l < MAX_U64 then
        && l !in r.leases && l in r'.leases && r' == r.(leases := r.leases[l := r'.leases[l]], nextLease := l + 1)
        && AsAsked(r, r'.leases[l], calls[i].id, calls[i].purpose, calls[j].digest)
      else r' == r
  {
    AcquiringGoesOn(states, calls, i, j, calls[i].id, calls[i].purpose);
    ReachableInv(states, calls, j);
    assert StepAt(states, calls, j);
    AcquireEnds(states[j], calls[j]);
  }

  lemma AcquireEnds(s: System, call: Call)
    requires Inv(s) && call.EndAcquire? && Can(s, call)
    ensures var r, r', l := s.reg, Do(s, call).reg, s.reg.nextLease;
      if |r.leases| < 4096 && l < MAX_U64 then
        && l !in r.leases && l in r'.leases && r' == r.(leases := r.leases[l := r'.leases[l]], nextLease := l + 1)
        && AsAsked(r, r'.leases[l], s.flight.id, s.flight.purpose, call.digest)
      else r' == r
  {
    assert RouteNow(s.reg, s.flight.id, s.flight.purpose, s.flight.route);
    assert RunsOn(s.flight.route, GrantFor(s.flight.route, call.serial));
  }

  /**
   In every run, from the acquisition of a lease on and as long as it lives: the credential handed out with it is the
   one that matches, and no other.
   */
  lemma CredentialIsTheOneHandedOut(states: seq<System>, calls: seq<Call>, j: nat, k: nat, digest: nat)
    requires IsRun(states, calls) && j < |calls| && j < k < |states| && calls[j].EndAcquire?
    requires var l := states[j].reg.nextLease; l in states[j + 1].reg.leases && l in states[k].reg.leases
    ensures CredentialMatches(states[k].reg, states[j].reg.nextLease, digest) <==> digest == calls[j].digest
  {
    assert StepAt(states, calls, j);
    ReachableInv(states, calls, j);
    ReachableInv(states, calls, j + 1);
    AcquireEnds(states[j], calls[j]);
    RunEvolves(states, calls, j + 1, k);
  }

  /** Whatever holds the control mutex gives it back at its end, and only beginnings take it. */
  lemma ControlIsGivenBack(s: System, call: Call)
    requires Can(s, call)
    ensures call.EndRoute? || call.EndAcquire? || call.Abandon? ==> Do(s, call).flight.Idle?
    ensures Do(s, call).flight == s.flight || s.flight.Idle? || Do(s, call).flight.Idle?
    ensures s.flight.Idle? && !Do(s, call).flight.Idle? ==> call.BeginRoute? || call.BeginAcquire?
  {}

  // ---------------------------------------------------------------------------------------
  // Whose records a call touches
  // ---------------------------------------------------------------------------------------

  predicate Known(r: Registry, id: ComponentId) {
    id in r.webApps || id in r.fileShares
  }

  /** There is room for one more component, and for one more identity in the journal. */
  predicate Room(s: System, id: ComponentId) {
    |s.reg.webApps| + |s.reg.fileShares| < 1024 && (id in s.journal.next || |s.journal.next| < 1024)
  }

  /** A registration succeeds exactly for a new component with a good origin and room, and records what was given. */
  lemma AppRegistrationIsExact(s: System, id: ComponentId, origin: Option<Origin>, route: Route, notifications: bool)
    requires Can(s, CallRegisterWebApp(id, origin, route, notifications))
    ensures var r, r' := s.reg, Do(s, CallRegisterWebApp(id, origin, route, notifications)).reg;
      if origin.Some? && !Known(r, id) && Room(s, id) then
        && r'.webApps == r.webApps[id := WebApp(origin.value, route, notifications, r.nextGeneration)]
        && r'.fileShares == r.fileShares && r'.leases == r.leases && r'.nextLease == r.nextLease
      else r' == r
    ensures RegisterWebApp(s.reg, s.journal, id, origin, route, notifications).answer ==
      (if origin.None? then Err(InvalidOrigin) else if !Room(s, id) then Err(Capacity)
       else if Known(s.reg, id) then Err(AlreadyExists) else Ok(()))
  {}

  lemma ShareRegistrationIsExact(s: System, id: ComponentId)
    requires Can(s, CallRegisterFileShare(id))
    ensures var r, r' := s.reg, Do(s, CallRegisterFileShare(id)).reg;
      if !Known(r, id) && Room(s, id) then
        && r'.fileShares == r.fileShares[id := r.nextGeneration]
        && r'.webApps == r.webApps && r'.leases == r.leases && r'.nextLease == r.nextLease
      else r' == r
    ensures RegisterFileShare(s.reg, s.journal, id).answer ==
      (if !Room(s, id) then Err(Capacity) else if Known(s.reg, id) then Err(AlreadyExists) else Ok(()))
  {}

  /** After a removal the component is gone with its leases, and nothing else is. */
  lemma RemovalIsExact(s: System, call: Call)
    requires Inv(s) && Can(s, call) && (call.CallRemoveWebApp? || call.CallRemoveFileShare?)
    ensures var r, r' := s.reg, Do(s, call).reg;
      if call.id in (if call.CallRemoveWebApp? then r.webApps.Keys else r.fileShares.Keys) then
        && !Known(r', call.id)
        && (forall l :: l in r'.leases <==> l in r.leases && r.leases[l].component != call.id)
        && (forall l :: l in r'.leases ==> r'.leases[l] == r.leases[l])
        && (forall c :: c != call.id ==> SameRecords(r, r', c))
        && r'.nextLease == r.nextLease && r'.nextGeneration == r.nextGeneration
      else r' == r
  {}

  predicate SameRecords(r: Registry, r': Registry, c: ComponentId) {
    && (c in r'.webApps <==> c in r.webApps) && (c in r.webApps && c in r'.webApps ==> r'.webApps[c] == r.webApps[c])
    && (c in r'.fileShares <==> c in r.fileShares)
    && (c in r.fileShares && c in r'.fileShares ==> r'.fileShares[c] == r.fileShares[c])
  }

  /** The second half of a route change moves the app to the new route under a new generation, and nothing else about it. */
  lemma RouteChangeIsExact(s: System, grants: Grants)
    requires Inv(s) && Can(s, EndRoute(grants))
    ensures var r, r', id := s.reg, Do(s, EndRoute(grants)).reg, s.flight.id;
      && id in r.webApps
      && r'.webApps == r.webApps[id := WebApp(r.webApps[id].origin, s.flight.route, r.webApps[id].notifications, r.nextGeneration)]
      && r'.fileShares == r.fileShares && r'.nextLease == r.nextLease && r'.leases.Keys == r.leases.Keys
      && (forall l :: l in r.leases ==> SameHolder(r.leases[l], r'.leases[l]))
  {
    InstallKeepsLeases(s.reg.leases, s.flight.route, grants);
    var leases' := Do(s, EndRoute(grants)).reg.leases;
    forall l | l in s.reg.leases ensures SameHolder(s.reg.leases[l], leases'[l]) {
      assert leases'[l].(runtime := None) == s.reg.leases[l].(runtime := None);
    }
  }

  /** A route change begins exactly for an app that is on another route, and lists the app's leases. */
  lemma RouteChangeBeginsIff(s: System, id: ComponentId, route: Route)
    requires Can(s, BeginRoute(id, route))
    ensures var s' := Do(s, BeginRoute(id, route));
      && s'.reg == s.reg
      && (s'.flight.Routing? <==> id in s.reg.webApps && s.reg.webApps[id].route != route)
      && (s'.flight.Routing? ==> s'.flight.id == id && s'.flight.route == route)
      && (s'.flight.Routing? ==> forall l :: l in s'.flight.snapshot <==> l in s.reg.leases && s.reg.leases[l].component == id)
  {}

  /** Dropping a lease takes away that lease; asking takes away nothing. */
  lemma DropIsExact(s: System, l: nat)
    ensures Do(s, CallDrop(l)).reg == s.reg.(leases := s.reg.leases - {l})
    ensures Do(s, CallDrop(l)).flight == s.flight
  {
    if l !in s.reg.leases { assert s.reg.leases - {l} == s.reg.leases; }
  }

  // ---------------------------------------------------------------------------------------
  // What the journal tells
  // ---------------------------------------------------------------------------------------

  predicate Appears(r: Registry, r': Registry, id: ComponentId) {
    !Known(r, id) && Known(r', id)
  }

  /** The calls that ask for a decision. */
  predicate Asks(call: Call) {
    call.CallAuthorize? || call.CallAuthorizeNotification?
  }

  function Asked(call: Call): Question
    requires Asks(call)
  {
    if call.CallAuthorize? then Ask(call.l, call.operation, call.up)
    else AskToNotify(call.l, call.origin, call.operation, call.up)
  }

  /** What is logged about a change of the registry. */
  predicate Tells(r: Registry, change: Change, note: Option<Note>) {
    match change
    case Same => note.None? || Answers(note.value.kind)
    case AddWebApp(id, _, _, _) => note == Some(Note(id, WebNavigation, Registered))
    case AddFileShare(id) => note == Some(Note(id, FileSharing, Registered))
    case DeleteWebApp(id) => note == Some(Note(id, WebNavigation, Removed))
    case DeleteFileShare(id) => note == Some(Note(id, FileSharing, Removed))
    case Reroute(id, _, _) => note.None? || note == Some(Note(id, WebNavigation, RouteChanged))
    case AddLease(lease) => note == Some(Note(lease.component, lease.purpose, LeaseAcquired))
    case DeleteLease(l) => l in r.leases && note == Some(Note(r.leases[l].component, r.leases[l].purpose, LeaseReleased))
  }

  /** What is logged about an answer. */
  predicate Answers(kind: EventKind) {
    kind.OperationBlocked? || kind.NotificationAllowed? || kind.NotificationDenied?
  }

  lemma NotesTellOfChanges(s: System, call: Call)
    requires Can(s, call)
    ensures Tells(s.reg, ChangeOf(s, call), NoteOf(s, call))
    ensures ChangeOf(s, call).DeleteLease? <==> call.CallDrop? && call.l in s.reg.leases
    ensures ChangeOf(s, call).DeleteLease? ==> ChangeOf(s, call).l == call.l
  {}

  /** Which components a change brings and takes away. */
  lemma ComponentsComeAndGo(r: Registry, change: Change, id: ComponentId)
    requires KindsDisjoint(r) && Allowed(r, change)
    ensures var r' := Apply(r, change);
      && (Appears(r, r', id) && id in r'.webApps <==> change.AddWebApp? && change.id == id)
      && (Appears(r, r', id) && id in r'.fileShares <==> change.AddFileShare? && change.id == id)
      && (Appears(r', r, id) && id in r.webApps <==> change.DeleteWebApp? && change.id == id)
      && (Appears(r', r, id) && id in r.fileShares <==> change.DeleteFileShare? && change.id == id)
  {}

  lemma NotesTellWhoComesAndGoes(r: Registry, change: Change, note: Option<Note>, id: ComponentId)
    requires Tells(r, change, note)
    ensures note == Some(Note(id, WebNavigation, Registered)) <==> change.AddWebApp? && change.id == id
    ensures note == Some(Note(id, FileSharing, Registered)) <==> change.AddFileShare? && change.id == id
    ensures note == Some(Note(id, WebNavigation, Removed)) <==> change.DeleteWebApp? && change.id == id
    ensures note == Some(Note(id, FileSharing, Removed)) <==> change.DeleteFileShare? && change.id == id
  {}

  lemma LeasesCome(r: Registry, change: Change, note: Option<Note>, id: ComponentId, purpose: Purpose)
    requires LeasesInv(r) && Tells(r, change, note)
    ensures var r', l := Apply(r, change), r.nextLease;
      note == Some(Note(id, purpose, LeaseAcquired)) <==>
      l in r'.leases && r'.leases[l].component == id && r'.leases[l].purpose == purpose
  {
    if change.Reroute? { InstallKeepsLeases(r.leases, change.route, change.grants); }
  }

  /**
   The registry's changes are in the journal: a component is logged as registered or removed exactly when it comes or
   goes, in the channel of its kind.
   */
  lemma EventsTellWhatChanged(s: System, call: Call, id: ComponentId)
    requires Inv(s) && Can(s, call)
    ensures var r, r', note := s.reg, Do(s, call).reg, NoteOf(s, call);
      && (note == Some(Note(id, WebNavigation, Registered)) <==> Appears(r, r', id) && id in r'.webApps)
      && (note == Some(Note(id, FileSharing, Registered)) <==> Appears(r, r', id) && id in r'.fileShares)
      && (note == Some(Note(id, WebNavigation, Removed)) <==> Appears(r', r, id) && id in r.webApps)
      && (note == Some(Note(id, FileSharing, Removed)) <==> Appears(r', r, id) && id in r.fileShares)
  {
    CallIsAllowed(s, call);
    NotesTellOfChanges(s, call);
    NotesTellWhoComesAndGoes(s.reg, ChangeOf(s, call), NoteOf(s, call), id);
    ComponentsComeAndGo(s.reg, ChangeOf(s, call), id);
  }

  /** And a lease is logged as acquired or released exactly when it comes or is dropped. */
  lemma EventsTellOfLeases(s: System, call: Call, id: ComponentId, purpose: Purpose)
    requires Inv(s) && Can(s, call)
    ensures var r, r', note, l := s.reg, Do(s, call).reg, NoteOf(s, call), s.reg.nextLease;
      && (note == Some(Note(id, purpose, LeaseAcquired)) <==>
          l in r'.leases && r'.leases[l].component == id && r'.leases[l].purpose == purpose)
      && (note == Some(Note(id, purpose, LeaseReleased)) <==>
          call.CallDrop? && call.l in r.leases && r.leases[call.l].component == id && r.leases[call.l].purpose == purpose)
  {
    NotesTellOfChanges(s, call);
    LeasesCome(s.reg, ChangeOf(s, call), NoteOf(s, call), id, purpose);
  }

  /** A route change is logged exactly when it found every lease it had listed. */
  lemma EventsTellOfRoutes(s: System, call: Call, id: ComponentId)
    requires Inv(s) && Can(s, call)
    ensures NoteOf(s, call) == Some(Note(id, WebNavigation, RouteChanged)) <==>
      call.EndRoute? && s.flight.id == id && s.flight.snapshot <= s.reg.leases.Keys
  {}

  /** Refusals of an app's own doing are logged: a blocked route always, a wrong origin for notifications. */
  lemma EventsTellOfRefusals(s: System, call: Call, id: ComponentId, purpose: Purpose)
    requires Inv(s) && Asks(call)
    ensures var note, answer := NoteOf(s, call), Answer(s.reg, Asked(call));
      && (note == Some(Note(id, purpose, OperationBlocked)) <==>
          call.CallAuthorize? && answer == Err(Blocked) && s.reg.leases[call.l].component == id && s.reg.leases[call.l].purpose == purpose)
      && (note == Some(Note(id, purpose, NotificationAllowed)) <==>
          call.CallAuthorizeNotification? && answer.Ok? && purpose.WebNotification? && s.reg.leases[call.l].component == id)
      && (note == Some(Note(id, purpose, NotificationDenied)) <==>
          call.CallAuthorizeNotification? && (answer == Err(Blocked) || answer == Err(OriginMismatch))
          && purpose.WebNotification? && s.reg.leases[call.l].component == id)
  {}
}
