/**
 The component manager's control plane as values: web applications, file shares, the leases on them, and
 the public calls that change or consult them.

 A public call is modelled as its critical sections.  `set_web_app_route` and `acquire` each have two, with
 the runtime acquisition in between; both hold the `control` mutex throughout, which `Flight` records.
 Dropping a lease, authorizing and draining take only the `state` mutex and may happen at any moment.
 */
module ComponentRegistry {
  import opened Common
  import opened ComponentJournal

  datatype Route = Vpn | Tor | Direct | Block

  datatype RuntimeKind = RootRuntime | VpnRuntime | TorRuntime

  /** A lease on a shared runtime, as the provider issued it for a kind. */
  datatype Runtime = Runtime(kind: RuntimeKind, serial: nat)

  datatype Operation =
    | Navigation | Subresource | NotificationDelivery | NotificationAction | FileSharePublish | FileShareDownload

  datatype Decision = Decision(route: Route, operation: Operation, generation: nat)

  datatype Error =
    | InvalidOrigin | AlreadyExists | NotFound | Capacity | InvalidLease | WrongPurpose
    | NotificationsDisabled | OriginMismatch | Blocked | RuntimeUnavailable | RandomUnavailable

  /** A canonical HTTPS origin.  Canonicalisation itself is a partial function of the URL library. */
  datatype Origin = Origin(text: string)

  datatype WebApp = WebApp(origin: Origin, route: Route, notifications: bool, generation: nat)

  datatype Lease = Lease(component: ComponentId, purpose: Purpose, digest: nat, runtime: Option<Runtime>)

  datatype Registry = Registry(
    nextLease: nat,
    nextGeneration: nat,
    webApps: map<ComponentId, WebApp>,
    fileShares: map<ComponentId, nat>,        // component -> policy generation
    leases: map<nat, Lease>)

  const EmptyRegistry := Registry(1, 1, map[], map[], map[])

  const MAX_COMPONENTS: nat := 1024
  const MAX_LEASES: nat := 4096

  /** A file share has no route of its own. */
  const FILE_SHARE_ROUTE := Tor

  // ---------------------------------------------------------------------------------------
  // Lookups
  // ---------------------------------------------------------------------------------------

  /** The runtime kind a route must be backed by. */
  function Needs(route: Route): Option<RuntimeKind> {
    match route
    case Vpn => Some(VpnRuntime)
    case Tor => Some(TorRuntime)
    case Direct => None
    case Block => None
  }

  /** `acquire_runtime`, when the provider grants. */
  function GrantFor(route: Route, serial: nat): Option<Runtime> {
    if Needs(route).Some? then Some(Runtime(Needs(route).value, serial)) else None
  }

  function KindOf(runtime: Option<Runtime>): Option<RuntimeKind> {
    if runtime.Some? then Some(runtime.value.kind) else None
  }

  /** `resolve_component`: the purpose selects the registry. */
  function Resolve(r: Registry, id: ComponentId, purpose: Purpose): Option<(Route, nat)> {
    match purpose
    case WebNavigation => if id in r.webApps then Some((r.webApps[id].route, r.webApps[id].generation)) else None
    case WebNotification => if id in r.webApps then Some((r.webApps[id].route, r.webApps[id].generation)) else None
    case FileSharing => if id in r.fileShares then Some((FILE_SHARE_ROUTE, r.fileShares[id])) else None
    case LanProxy => None
  }

  /** `ensure_operation`. */
  predicate OperationAllowed(purpose: Purpose, operation: Operation) {
    match purpose
    case WebNavigation => operation.Navigation? || operation.Subresource?
    case WebNotification => operation.NotificationDelivery? || operation.NotificationAction?
    case FileSharing => operation.FileSharePublish? || operation.FileShareDownload?
    case LanProxy => false
  }

  /** `ensure_runtime_available`; `up` is what the runtime lease answers about itself right now. */
  predicate RuntimeUp(lease: Lease, up: bool) {
    lease.runtime.Some? ==> up
  }

  function LeasesOf(r: Registry, id: ComponentId): set<nat> {
    set l | l in r.leases && r.leases[l].component == id
  }

  // ---------------------------------------------------------------------------------------
  // Changes of the registry
  // ---------------------------------------------------------------------------------------

  /** The provider's answers in the order the replacements are installed: lease id and runtime serial. */
  type Grants = seq<(nat, nat)>

  datatype Change =
    | Same
    | AddWebApp(id: ComponentId, origin: Origin, route: Route, notifications: bool)
    | AddFileShare(id: ComponentId)
    | DeleteWebApp(id: ComponentId)
    | DeleteFileShare(id: ComponentId)
    | Reroute(id: ComponentId, route: Route, grants: Grants)
    | AddLease(lease: Lease)
    | DeleteLease(l: nat)

  function WithoutComponent(leases: map<nat, Lease>, id: ComponentId): map<nat, Lease> {
    map l | l in leases && leases[l].component != id :: leases[l]
  }

  /** The loop that installs the replacements: it stops at the first lease that is gone. */
  function Install(leases: map<nat, Lease>, route: Route, grants: Grants): map<nat, Lease> {
    if grants == [] || grants[0].0 !in leases then leases
    else
      var l := grants[0].0;
      Install(leases[l := leases[l].(runtime := GrantFor(route, grants[0].1))], route, grants[1..])
  }

  predicate InstallsAll(leases: map<nat, Lease>, grants: Grants) {
    forall k :: 0 <= k < |grants| ==> grants[k].0 in leases
  }

  function Apply(r: Registry, change: Change): Registry {
    match change
    case Same => r
    case AddWebApp(id, origin, route, notifications) =>
      r.(webApps := r.webApps[id := WebApp(origin, route, notifications, r.nextGeneration)],
         nextGeneration := SaturatingNext(r.nextGeneration))
    case AddFileShare(id) =>
      r.(fileShares := r.fileShares[id := r.nextGeneration], nextGeneration := SaturatingNext(r.nextGeneration))
    case DeleteWebApp(id) => r.(webApps := r.webApps - {id}, leases := WithoutComponent(r.leases, id))
    case DeleteFileShare(id) => r.(fileShares := r.fileShares - {id}, leases := WithoutComponent(r.leases, id))
    case Reroute(id, route, grants) =>
      if id !in r.webApps then r.(nextGeneration := SaturatingNext(r.nextGeneration))
      else
        r.(webApps := r.webApps[id := r.webApps[id].(route := route, generation := r.nextGeneration)],
           nextGeneration := SaturatingNext(r.nextGeneration),
           leases := Install(r.leases, route, grants))
    case AddLease(lease) => r.(leases := r.leases[r.nextLease := lease], nextLease := r.nextLease + 1)
    case DeleteLease(l) => r.(leases := r.leases - {l})
  }

  // ---------------------------------------------------------------------------------------
  // The public calls: what changes, what is logged, what is answered
  // ---------------------------------------------------------------------------------------

  datatype Note = Note(component: ComponentId, channel: Purpose, kind: EventKind)

  datatype Outcome<T> = Outcome(change: Change, note: Option<Note>, answer: Result<T, Error>)

  function Refused<T>(error: Error): Outcome<T> {
    Outcome(Same, None, Err(error))
  }

  predicate AtCapacity(r: Registry, j: Journal, id: ComponentId) {
    || |r.webApps| + |r.fileShares| >= MAX_COMPONENTS
    || (id !in j.next && |j.next| >= MAX_COMPONENTS)
  }

  function RegisterWebApp(r: Registry, j: Journal, id: ComponentId, origin: Option<Origin>, route: Route,
                          notifications: bool): Outcome<()> {
    if origin.None? then Refused(InvalidOrigin)
    else if AtCapacity(r, j, id) then Refused(Capacity)
    else if id in r.webApps || id in r.fileShares then Refused(AlreadyExists)
    else Outcome(AddWebApp(id, origin.value, route, notifications), Some(Note(id, WebNavigation, Registered)), Ok(()))
  }

  function RegisterFileShare(r: Registry, j: Journal, id: ComponentId): Outcome<()> {
    if AtCapacity(r, j, id) then Refused(Capacity)
    else if id in r.webApps || id in r.fileShares then Refused(AlreadyExists)
    else Outcome(AddFileShare(id), Some(Note(id, FileSharing, Registered)), Ok(()))
  }

  function RemoveWebApp(r: Registry, id: ComponentId): Outcome<()> {
    if id !in r.webApps then Refused(NotFound)
    else Outcome(DeleteWebApp(id), Some(Note(id, WebNavigation, Removed)), Ok(()))
  }

  function RemoveFileShare(r: Registry, id: ComponentId): Outcome<()> {
    if id !in r.fileShares then Refused(NotFound)
    else Outcome(DeleteFileShare(id), Some(Note(id, FileSharing, Removed)), Ok(()))
  }

  /** Second critical section of `set_web_app_route`. */
  function CommitRoute(r: Registry, id: ComponentId, route: Route, grants: Grants): Outcome<nat> {
    if id !in r.webApps then Outcome(Reroute(id, route, []), None, Err(NotFound))
    else if InstallsAll(r.leases, grants)
    then Outcome(Reroute(id, route, grants), Some(Note(id, WebNavigation, RouteChanged)), Ok(r.nextGeneration))
    else Outcome(Reroute(id, route, grants), None, Err(InvalidLease))
  }

  /** First critical section of `acquire`: the route to acquire a runtime for. */
  function AcquireRoute(r: Registry, id: ComponentId, purpose: Purpose): Result<Route, Error> {
    if |r.leases| >= MAX_LEASES then Err(Capacity)
    else if purpose == WebNotification && id !in r.webApps then Err(NotFound)
    else if purpose == WebNotification && !r.webApps[id].notifications then Err(NotificationsDisabled)
    else if Resolve(r, id, purpose).None? then Err(NotFound)
    else Ok(Resolve(r, id, purpose).value.0)
  }

  /** Second critical section of `acquire`. */
  function CommitLease(r: Registry, id: ComponentId, purpose: Purpose, route: Route, serial: nat, digest: nat): Outcome<nat> {
    if |r.leases| >= MAX_LEASES || r.nextLease >= MAX_U64 then Refused(Capacity)
    else Outcome(AddLease(Lease(id, purpose, digest, GrantFor(route, serial))),
                 Some(Note(id, purpose, LeaseAcquired)), Ok(r.nextLease))
  }

  /** `ComponentLease::drop`. */
  function ReleaseLease(r: Registry, l: nat): Outcome<()> {
    if l !in r.leases then Outcome(Same, None, Ok(()))
    else Outcome(DeleteLease(l), Some(Note(r.leases[l].component, r.leases[l].purpose, LeaseReleased)), Ok(()))
  }

  /** `authorize` and `authorize_reference`, given the lease's id. */
  function Authorize(r: Registry, l: nat, operation: Operation, up: bool): Outcome<Decision> {
    if l !in r.leases then Refused(InvalidLease)
    else
      var lease := r.leases[l];
      var target := Resolve(r, lease.component, lease.purpose);
      if !OperationAllowed(lease.purpose, operation) then Refused(WrongPurpose)
      else if !RuntimeUp(lease, up) then Refused(RuntimeUnavailable)
      else if target.None? then Refused(InvalidLease)
      else if target.value.0 == Block
      then Outcome(Same, Some(Note(lease.component, lease.purpose, OperationBlocked)), Err(Blocked))
      else Outcome(Same, None, Ok(Decision(target.value.0, operation, target.value.1)))
  }

  function AuthorizeNotification(r: Registry, l: nat, origin: Option<Origin>, operation: Operation, up: bool)
    : Outcome<Decision>
  {
    if !(operation.NotificationDelivery? || operation.NotificationAction?) then Refused(WrongPurpose)
    else if origin.None? then Refused(InvalidOrigin)
    else if l !in r.leases then Refused(InvalidLease)
    else
      var lease := r.leases[l];
      if lease.purpose != WebNotification then Refused(WrongPurpose)
      else if !RuntimeUp(lease, up) then Refused(RuntimeUnavailable)
      else if lease.component !in r.webApps then Refused(InvalidLease)
      else
        var app := r.webApps[lease.component];
        if app.origin != origin.value
        then Outcome(Same, Some(Note(lease.component, WebNotification, NotificationDenied)), Err(OriginMismatch))
        else if app.route == Block
        then Outcome(Same, Some(Note(lease.component, WebNotification, NotificationDenied)), Err(Blocked))
        else Outcome(Same, Some(Note(lease.component, WebNotification, NotificationAllowed)),
                     Ok(Decision(app.route, operation, app.generation)))
  }

  /** First critical section of `authorize_credential`: the digest must match; the lock is then given up. */
  predicate CredentialMatches(r: Registry, l: nat, digest: nat) {
    l in r.leases && r.leases[l].digest == digest
  }

  // ---------------------------------------------------------------------------------------
  // The system: critical sections in any order the two mutexes allow
  // ---------------------------------------------------------------------------------------

  /** The call that holds the `control` mutex, if it is between its two critical sections. */
  datatype Flight =
    | Idle
    | Routing(id: ComponentId, route: Route, snapshot: set<nat>)
    | Acquiring(id: ComponentId, purpose: Purpose, route: Route)

  datatype System = System(reg: Registry, journal: Journal, flight: Flight)

  const Fresh := System(EmptyRegistry, EmptyJournal, Idle)

  datatype Call =
    | CallRegisterWebApp(id: ComponentId, origin: Option<Origin>, route: Route, notifications: bool)
    | CallRegisterFileShare(id: ComponentId)
    | CallRemoveWebApp(id: ComponentId)
    | CallRemoveFileShare(id: ComponentId)
    | BeginRoute(id: ComponentId, route: Route)
    | EndRoute(grants: Grants)
    | BeginAcquire(id: ComponentId, purpose: Purpose)
    | EndAcquire(serial: nat, digest: nat)
    | Abandon                                  // the provider or the random source refused
    | CallDrop(l: nat)
    | CallAuthorize(l: nat, operation: Operation, up: bool)
    | CallAuthorizeNotification(l: nat, origin: Option<Origin>, operation: Operation, up: bool)
    | CallJournal(op: Op)                      // drain, attach, detach

  predicate GrantsCover(grants: Grants, snapshot: set<nat>) {
    && (forall k :: 0 <= k < |grants| ==> grants[k].0 in snapshot)
    && (forall l :: l in snapshot ==> exists k :: 0 <= k < |grants| && grants[k].0 == l)
    && (forall a, b :: 0 <= a < b < |grants| ==> grants[a].0 != grants[b].0)
  }

  predicate Can(s: System, call: Call) {
    match call
    case CallRegisterWebApp(_, _, _, _) => s.flight.Idle?
    case CallRegisterFileShare(_) => s.flight.Idle?
    case CallRemoveWebApp(_) => s.flight.Idle?
    case CallRemoveFileShare(_) => s.flight.Idle?
    case BeginRoute(_, _) => s.flight.Idle?
    case EndRoute(grants) => s.flight.Routing? && GrantsCover(grants, s.flight.snapshot)
    case BeginAcquire(_, _) => s.flight.Idle?
    case EndAcquire(_, _) => s.flight.Acquiring?
    case Abandon => !s.flight.Idle?
    case CallDrop(_) => true
    case CallAuthorize(_, _, _) => true
    case CallAuthorizeNotification(_, _, _, _) => true
    case CallJournal(op) => !op.DoPush?
  }

  /** What a call does to the registry. */
  function ChangeOf(s: System, call: Call): Change
    requires Can(s, call)
  {
    match call
    case CallRegisterWebApp(id, origin, route, n) => RegisterWebApp(s.reg, s.journal, id, origin, route, n).change
    case CallRegisterFileShare(id) => RegisterFileShare(s.reg, s.journal, id).change
    case CallRemoveWebApp(id) => RemoveWebApp(s.reg, id).change
    case CallRemoveFileShare(id) => RemoveFileShare(s.reg, id).change
    case EndRoute(grants) => CommitRoute(s.reg, s.flight.id, s.flight.route, grants).change
    case EndAcquire(serial, digest) =>
      CommitLease(s.reg, s.flight.id, s.flight.purpose, s.flight.route, serial, digest).change
    case CallDrop(l) => ReleaseLease(s.reg, l).change
    case _ => Same
  }

  /** What a call writes to the journal. */
  function NoteOf(s: System, call: Call): Option<Note>
    requires Can(s, call)
  {
    match call
    case CallRegisterWebApp(id, origin, route, n) => RegisterWebApp(s.reg, s.journal, id, origin, route, n).note
    case CallRegisterFileShare(id) => RegisterFileShare(s.reg, s.journal, id).note
    case CallRemoveWebApp(id) => RemoveWebApp(s.reg, id).note
    case CallRemoveFileShare(id) => RemoveFileShare(s.reg, id).note
    case EndRoute(grants) => CommitRoute(s.reg, s.flight.id, s.flight.route, grants).note
    case EndAcquire(serial, digest) =>
      CommitLease(s.reg, s.flight.id, s.flight.purpose, s.flight.route, serial, digest).note
    case CallDrop(l) => ReleaseLease(s.reg, l).note
    case CallAuthorize(l, operation, up) => Authorize(s.reg, l, operation, up).note
    case CallAuthorizeNotification(l, origin, operation, up) =>
      AuthorizeNotification(s.reg, l, origin, operation, up).note
    case _ => None
  }

  /** The journal operation a call amounts to, if any: every call logs at most one event. */
  function JournalOp(s: System, call: Call): seq<Op>
    requires Can(s, call)
  {
    var note := NoteOf(s, call);
    if call.CallJournal? then [call.op]
    else if note.Some? then [DoPush(note.value.component, note.value.channel, note.value.kind)]
    else []
  }

  function FlightOf(s: System, call: Call): Flight
    requires Can(s, call)
  {
    match call
    case BeginRoute(id, route) =>
      if id in s.reg.webApps && s.reg.webApps[id].route != route then Routing(id, route, LeasesOf(s.reg, id)) else Idle
    case BeginAcquire(id, purpose) =>
      var route := AcquireRoute(s.reg, id, purpose);
      if route.Ok? then Acquiring(id, purpose, route.value) else Idle
    case EndRoute(_) => Idle
    case EndAcquire(_, _) => Idle
    case Abandon => Idle
    case _ => s.flight
  }

  function Do(s: System, call: Call): System
    requires Can(s, call)
  {
    System(Apply(s.reg, ChangeOf(s, call)), After(s.journal, JournalOp(s, call)), FlightOf(s, call))
  }

  /** A run: `calls[i]` leads from `states[i]` to `states[i + 1]`. */
  ghost predicate IsRun(states: seq<System>, calls: seq<Call>) {
    && |states| == |calls| + 1
    && states[0] == Fresh
    && forall i :: 0 <= i < |calls| ==> StepAt(states, calls, i)
  }

  ghost predicate StepAt(states: seq<System>, calls: seq<Call>, i: nat)
    requires i < |calls| < |states|
  {
    Can(states[i], calls[i]) && states[i + 1] == Do(states[i], calls[i])
  }

  // ---------------------------------------------------------------------------------------
  // Invariants that hold in every interleaving
  // ---------------------------------------------------------------------------------------

  /** Each lease's component is in the registry its purpose selects, and lease ids are never reused. */
  predicate LeasesInv(r: Registry) {
    forall l :: l in r.leases ==> l < r.nextLease && Resolve(r, r.leases[l].component, r.leases[l].purpose).Some?
  }

  predicate KindsDisjoint(r: Registry) {
    forall id :: id in r.webApps ==> id !in r.fileShares
  }

  predicate BoundsInv(r: Registry) {
    |r.webApps| + |r.fileShares| <= MAX_COMPONENTS && |r.leases| <= MAX_LEASES
  }

  /** The policy in force for a component, whichever kind it is. */
  datatype Policy = Policy(share: bool, route: Route, generation: nat)

  function PolicyOf(r: Registry, id: ComponentId): Option<Policy> {
    if id in r.webApps then Some(Policy(false, r.webApps[id].route, r.webApps[id].generation))
    else if id in r.fileShares then Some(Policy(true, FILE_SHARE_ROUTE, r.fileShares[id]))
    else None
  }

  /** Every generation in use was issued, and only the largest value of the counter can be in use twice. */
  ghost predicate GenerationsInv(r: Registry) {
    && r.nextGeneration <= MAX_U64
    && (forall id :: PolicyOf(r, id).Some? ==> Issued(r, PolicyOf(r, id).value.generation))
    && (forall a, b :: PolicyOf(r, a).Some? && PolicyOf(r, b).Some? && a != b ==>
          PolicyOf(r, a).value.generation != PolicyOf(r, b).value.generation || PolicyOf(r, a).value.generation == MAX_U64)
  }

  predicate Issued(r: Registry, generation: nat) {
    generation < r.nextGeneration || generation == r.nextGeneration == MAX_U64
  }

  ghost predicate RegistryInv(r: Registry) {
    LeasesInv(r) && KindsDisjoint(r) && BoundsInv(r) && GenerationsInv(r)
  }

  /** While a route change is under way what is left of its snapshot is exactly the component's leases. */
  predicate FlightInv(s: System) {
    match s.flight
    case Idle => true
    case Routing(id, route, snapshot) =>
      && id in s.reg.webApps && s.reg.webApps[id].route != route
      && (forall l :: l in snapshot ==> l < s.reg.nextLease)
      && LeasesOf(s.reg, id) == snapshot * s.reg.leases.Keys
    case Acquiring(id, purpose, route) =>
      var target := Resolve(s.reg, id, purpose);
      target.Some? && target.value.0 == route
  }

  ghost predicate Inv(s: System) {
    RegistryInv(s.reg) && FlightInv(s)
  }

  /** Every lease is backed by exactly the runtime kind its component's current route needs. */
  predicate LeaseAgrees(r: Registry, l: nat)
    requires l in r.leases
  {
    var target := Resolve(r, r.leases[l].component, r.leases[l].purpose);
    target.Some? && KindOf(r.leases[l].runtime) == Needs(target.value.0)
  }

  predicate Agreement(r: Registry) {
    forall l :: l in r.leases ==> LeaseAgrees(r, l)
  }

  // Every change keeps them

  predicate Unregistered(r: Registry, id: ComponentId) {
    id !in r.webApps && id !in r.fileShares && |r.webApps| + |r.fileShares| < MAX_COMPONENTS
  }

  predicate Allowed(r: Registry, change: Change) {
    match change
    case Same => true
    case AddWebApp(id, _, _, _) => Unregistered(r, id)
    case AddFileShare(id) => Unregistered(r, id)
    case DeleteWebApp(id) => id in r.webApps
    case DeleteFileShare(id) => id in r.fileShares
    case Reroute(id, _, _) => id in r.webApps
    case AddLease(lease) => |r.leases| < MAX_LEASES && Resolve(r, lease.component, lease.purpose).Some?
    case DeleteLease(_) => true
  }

  /** Installing runtimes changes runtimes and nothing else. */
  lemma {:induction false} InstallKeepsLeases(leases: map<nat, Lease>, route: Route, grants: Grants)
    ensures Install(leases, route, grants).Keys == leases.Keys
    ensures forall l :: l in leases ==> Install(leases, route, grants)[l].(runtime := None) == leases[l].(runtime := None)
    decreases |grants|
  {
    if grants != [] && grants[0].0 in leases {
      var l := grants[0].0;
      InstallKeepsLeases(leases[l := leases[l].(runtime := GrantFor(route, grants[0].1))], route, grants[1..]);
    }
  }

  /** A lease survives a change only as itself: same component, same purpose, same credential. */
  predicate SameHolder(a: Lease, b: Lease) {
    a.component == b.component && a.purpose == b.purpose && a.digest == b.digest
  }

  lemma RerouteKeepsLeases(r: Registry, id: ComponentId, route: Route, grants: Grants)
    requires LeasesInv(r) && KindsDisjoint(r) && id in r.webApps
    ensures var r' := Apply(r, Reroute(id, route, grants)); LeasesInv(r') && KindsDisjoint(r') && LeasesEvolve(r, r')
  {
    InstallKeepsLeases(r.leases, route, grants);
    var r' := Apply(r, Reroute(id, route, grants));
    forall l | l in r'.leases
      ensures l < r'.nextLease && Resolve(r', r'.leases[l].component, r'.leases[l].purpose).Some?
      ensures SameHolder(r.leases[l], r'.leases[l])
    {
      assert r'.leases[l].(runtime := None) == r.leases[l].(runtime := None);
    }
  }

  lemma AppDeletionKeepsLeases(r: Registry, id: ComponentId)
    requires LeasesInv(r) && KindsDisjoint(r)
    ensures var r' := Apply(r, DeleteWebApp(id)); LeasesInv(r') && KindsDisjoint(r') && LeasesEvolve(r, r')
  {
    var r' := Apply(r, DeleteWebApp(id));
    forall l | l in r'.leases
      ensures l < r'.nextLease && Resolve(r', r'.leases[l].component, r'.leases[l].purpose).Some?
    {
      assert l in r.leases && r.leases[l].component != id;
    }
  }

  lemma ShareDeletionKeepsLeases(r: Registry, id: ComponentId)
    requires LeasesInv(r) && KindsDisjoint(r)
    ensures var r' := Apply(r, DeleteFileShare(id)); LeasesInv(r') && KindsDisjoint(r') && LeasesEvolve(r, r')
  {
    var r' := Apply(r, DeleteFileShare(id));
    forall l | l in r'.leases
      ensures l < r'.nextLease && Resolve(r', r'.leases[l].component, r'.leases[l].purpose).Some?
    {
      assert l in r.leases && r.leases[l].component != id;
    }
  }

  lemma RegistrationKeepsLeases(r: Registry, change: Change)
    requires LeasesInv(r) && KindsDisjoint(r) && Allowed(r, change) && (change.AddWebApp? || change.AddFileShare?)
    ensures var r' := Apply(r, change); LeasesInv(r') && KindsDisjoint(r') && LeasesEvolve(r, r')
  {
    var r' := Apply(r, change);
    forall l | l in r'.leases
      ensures l < r'.nextLease && Resolve(r', r'.leases[l].component, r'.leases[l].purpose).Some?
    {
      assert Resolve(r, r.leases[l].component, r.leases[l].purpose).Some?;
    }
  }

  lemma NewLeaseKeepsLeases(r: Registry, lease: Lease)
    requires LeasesInv(r) && KindsDisjoint(r) && Allowed(r, AddLease(lease))
    ensures var r' := Apply(r, AddLease(lease)); LeasesInv(r') && KindsDisjoint(r') && LeasesEvolve(r, r')
  {
    var r' := Apply(r, AddLease(lease));
    forall l | l in r'.leases
      ensures l < r'.nextLease && Resolve(r', r'.leases[l].component, r'.leases[l].purpose).Some?
    {
      if l != r.nextLease { assert r'.leases[l] == r.leases[l]; }
    }
  }

  lemma DropKeepsLeases(r: Registry, l: nat)
    requires LeasesInv(r) && KindsDisjoint(r)
    ensures var r' := Apply(r, DeleteLease(l)); LeasesInv(r') && KindsDisjoint(r') && LeasesEvolve(r, r')
  {
  }

  lemma ChangeKeepsLeases(r: Registry, change: Change)
    requires LeasesInv(r) && KindsDisjoint(r) && Allowed(r, change)
    ensures var r' := Apply(r, change); LeasesInv(r') && KindsDisjoint(r') && LeasesEvolve(r, r')
  {
    match change
    case Same =>
    case AddWebApp(_, _, _, _) => RegistrationKeepsLeases(r, change);
    case AddFileShare(_) => RegistrationKeepsLeases(r, change);
    case Reroute(id, route, grants) => RerouteKeepsLeases(r, id, route, grants);
    case DeleteWebApp(id) => AppDeletionKeepsLeases(r, id);
    case DeleteFileShare(id) => ShareDeletionKeepsLeases(r, id);
    case AddLease(lease) => NewLeaseKeepsLeases(r, lease);
    case DeleteLease(l) => DropKeepsLeases(r, l);
  }

  lemma ChangeKeepsComponentBound(r: Registry, change: Change)
    requires BoundsInv(r) && Allowed(r, change)
    ensures var r' := Apply(r, change); |r'.webApps| + |r'.fileShares| <= MAX_COMPONENTS
  {
    var r' := Apply(r, change);
    match change
    case AddWebApp(id, _, _, _) => PuttingKey(r.webApps, id, r'.webApps[id]);
    case AddFileShare(id) => PuttingKey(r.fileShares, id, r'.fileShares[id]);
    case DeleteWebApp(id) => ShrinkingKeys(r.webApps, r'.webApps);
    case DeleteFileShare(id) => ShrinkingKeys(r.fileShares, r'.fileShares);
    case Reroute(id, _, _) => PuttingKey(r.webApps, id, r'.webApps[id]);
    case _ =>
  }

  lemma ChangeKeepsLeaseBound(r: Registry, change: Change)
    requires BoundsInv(r) && Allowed(r, change)
    ensures |Apply(r, change).leases| <= MAX_LEASES
  {
    var r' := Apply(r, change);
    match change
    case AddLease(_) => PuttingKey(r.leases, r.nextLease, change.lease);
    case Reroute(id, route, grants) =>
      InstallKeepsLeases(r.leases, route, grants);
      ShrinkingKeys(r.leases, r'.leases);
    case DeleteWebApp(_) => ShrinkingKeys(r.leases, r'.leases);
    case DeleteFileShare(_) => ShrinkingKeys(r.leases, r'.leases);
    case DeleteLease(_) => ShrinkingKeys(r.leases, r'.leases);
    case _ =>
  }

  /** A change leaves every policy alone, removes it, or replaces one policy by one of the next generation. */
  lemma PolicyAfter(r: Registry, change: Change, id: ComponentId)
    requires KindsDisjoint(r) && Allowed(r, change)
    ensures var p := PolicyOf(Apply(r, change), id);
      || p.None?
      || p == PolicyOf(r, id)
      || (Targets(change) == Some(id) && p.value.generation == r.nextGeneration
          && Apply(r, change).nextGeneration == SaturatingNext(r.nextGeneration))
  {}

  function Targets(change: Change): Option<ComponentId> {
    match change
    case AddWebApp(id, _, _, _) => Some(id)
    case AddFileShare(id) => Some(id)
    case Reroute(id, _, _) => Some(id)
    case _ => None
  }

  /** What one component's policy has to do with the one before the change. */
  lemma PolicyEvolves(r: Registry, change: Change, id: ComponentId)
    requires KindsDisjoint(r) && GenerationsInv(r) && Allowed(r, change)
    ensures var r' := Apply(r, change);
      && (PolicyKept(r, r', id) || (Targets(change) == Some(id) && PolicyOf(r', id).value.generation == r.nextGeneration))
      && (PolicyOf(r', id).Some? ==> Issued(r', PolicyOf(r', id).value.generation))
  {
    PolicyAfter(r, change, id);
    GenerationGrows(r, change);
  }

  lemma GenerationsStayDistinct(r: Registry, change: Change, a: ComponentId, b: ComponentId)
    requires KindsDisjoint(r) && GenerationsInv(r) && Allowed(r, change) && a != b
    requires PolicyOf(Apply(r, change), a).Some? && PolicyOf(Apply(r, change), b).Some?
    ensures var p, q := PolicyOf(Apply(r, change), a).value, PolicyOf(Apply(r, change), b).value;
      p.generation != q.generation || p.generation == MAX_U64
  {
    PolicyEvolves(r, change, a);
    PolicyEvolves(r, change, b);
  }

  lemma ChangeKeepsGenerations(r: Registry, change: Change)
    requires KindsDisjoint(r) && GenerationsInv(r) && Allowed(r, change)
    ensures GenerationsInv(Apply(r, change)) && PoliciesEvolve(r, Apply(r, change))
  {
    var r' := Apply(r, change);
    GenerationGrows(r, change);
    assert PoliciesEvolve(r, r') by {
      forall id ensures PolicyKept(r, r', id) || r.nextGeneration <= PolicyOf(r', id).value.generation {
        PolicyEvolves(r, change, id);
      }
    }
    forall id | PolicyOf(r', id).Some? ensures Issued(r', PolicyOf(r', id).value.generation) {
      PolicyEvolves(r, change, id);
    }
    forall a, b | PolicyOf(r', a).Some? && PolicyOf(r', b).Some? && a != b
      ensures PolicyOf(r', a).value.generation != PolicyOf(r', b).value.generation || PolicyOf(r', a).value.generation == MAX_U64
    {
      GenerationsStayDistinct(r, change, a, b);
    }
  }

  lemma GenerationGrows(r: Registry, change: Change)
    ensures r.nextGeneration <= Apply(r, change).nextGeneration
    ensures r.nextGeneration <= MAX_U64 ==> Apply(r, change).nextGeneration <= MAX_U64
    ensures Targets(change).Some? ==> Apply(r, change).nextGeneration == SaturatingNext(r.nextGeneration)
  {}

  // What two registries of one run have to do with each other

  /** A lease id that was handed out names the same holder or nothing at all. */
  predicate LeasesEvolve(r: Registry, r': Registry) {
    && r.nextLease <= r'.nextLease
    && (forall l :: l in r'.leases && l < r.nextLease ==> l in r.leases && SameHolder(r.leases[l], r'.leases[l]))
  }

  /** A policy in force is either still the old one or carries a generation not issued before. */
  ghost predicate PoliciesEvolve(r: Registry, r': Registry) {
    && r.nextGeneration <= r'.nextGeneration
    && (forall id :: PolicyKept(r, r', id) || r.nextGeneration <= PolicyOf(r', id).value.generation)
  }

  predicate PolicyKept(r: Registry, r': Registry, id: ComponentId)
    ensures !PolicyKept(r, r', id) ==> PolicyOf(r', id).Some?
  {
    PolicyOf(r', id).None? || PolicyOf(r', id) == PolicyOf(r, id)
  }

  ghost predicate Evolves(r: Registry, r': Registry) {
    LeasesEvolve(r, r') && PoliciesEvolve(r, r')
  }

  lemma EvolvesTransitive(a: Registry, b: Registry, c: Registry)
    requires Evolves(a, b) && Evolves(b, c)
    ensures Evolves(a, c)
  {
    forall id ensures PolicyKept(a, c, id) || a.nextGeneration <= PolicyOf(c, id).value.generation {
      assert PolicyKept(b, c, id) || b.nextGeneration <= PolicyOf(c, id).value.generation;
      assert PolicyKept(a, b, id) || a.nextGeneration <= PolicyOf(b, id).value.generation;
    }
  }

  lemma CallIsAllowed(s: System, call: Call)
    requires Inv(s) && Can(s, call)
    ensures Allowed(s.reg, ChangeOf(s, call))
  {}

  lemma CallKeepsFlight(s: System, call: Call)
    requires Inv(s) && Can(s, call)
    ensures FlightInv(Do(s, call))
  {
    var s' := Do(s, call);
    if s.flight.Routing? && s'.flight.Routing? {
      SnapshotStaysExact(s, call);
    } else if call.BeginRoute? && s'.flight.Routing? {
      assert LeasesOf(s.reg, call.id) == s'.flight.snapshot * s.reg.leases.Keys;
    }
  }

  lemma SnapshotStaysExact(s: System, call: Call)
    requires Inv(s) && Can(s, call) && s.flight.Routing? && Do(s, call).flight.Routing?
    ensures Do(s, call).flight == s.flight && FlightInv(Do(s, call))
  {
    var r, r' := s.reg, Do(s, call).reg;
    assert ChangeOf(s, call).Same? || ChangeOf(s, call).DeleteLease?;
    assert LeasesOf(r', s.flight.id) == LeasesOf(r, s.flight.id) * r'.leases.Keys;
  }

  /** Every critical section keeps the invariant, whatever ran before it. */
  lemma CallKeepsInv(s: System, call: Call)
    requires Inv(s) && Can(s, call)
    ensures Inv(Do(s, call)) && Evolves(s.reg, Do(s, call).reg)
  {
    CallIsAllowed(s, call);
    ChangeKeepsLeases(s.reg, ChangeOf(s, call));
    ChangeKeepsComponentBound(s.reg, ChangeOf(s, call));
    ChangeKeepsLeaseBound(s.reg, ChangeOf(s, call));
    ChangeKeepsGenerations(s.reg, ChangeOf(s, call));
    CallKeepsFlight(s, call);
  }

  // ---------------------------------------------------------------------------------------
  // Agreement between routes and runtimes
  // ---------------------------------------------------------------------------------------

  /** The installation loop gets as far as position `i`. */
  predicate Reaches(leases: map<nat, Lease>, grants: Grants, i: nat)
    requires i < |grants|
  {
    forall k :: 0 <= k <= i ==> grants[k].0 in leases
  }

  predicate DistinctGrants(grants: Grants) {
    forall a, b :: 0 <= a < b < |grants| ==> grants[a].0 != grants[b].0
  }

  /** A lease gets its new runtime exactly when the loop reaches it. */
  lemma {:induction false} InstallAt(leases: map<nat, Lease>, route: Route, grants: Grants, i: nat)
    requires DistinctGrants(grants) && i < |grants| && grants[i].0 in leases
    ensures var l := grants[i].0; var leases' := Install(leases, route, grants);
      && l in leases'
      && leases'[l].runtime == if Reaches(leases, grants, i) then GrantFor(route, grants[i].1) else leases[l].runtime
    decreases |grants|
  {
    InstallKeepsLeases(leases, route, grants);
    if grants[0].0 in leases {
      var first := grants[0].0;
      var leases0 := leases[first := leases[first].(runtime := GrantFor(route, grants[0].1))];
      if i == 0 {
        InstallElsewhere(leases0, route, grants[1..], first);
      } else {
        InstallAt(leases0, route, grants[1..], i - 1);
        ReachesShifts(leases, leases0, grants, i);
      }
    } else {
      assert !Reaches(leases, grants, i);
    }
  }

  /** Installing in two parts, when the first part finds all its leases. */
  lemma {:induction false} InstallAppend(leases: map<nat, Lease>, route: Route, grants: Grants, more: Grants)
    requires InstallsAll(leases, grants)
    ensures Install(leases, route, grants + more) == Install(Install(leases, route, grants), route, more)
    decreases |grants|
  {
    if grants == [] {
      assert grants + more == more;
    } else {
      var l := grants[0].0;
      var leases0 := leases[l := leases[l].(runtime := GrantFor(route, grants[0].1))];
      assert (grants + more)[1..] == grants[1..] + more;
      InstallAppend(leases0, route, grants[1..], more);
    }
  }

  lemma ReachesShifts(leases: map<nat, Lease>, leases0: map<nat, Lease>, grants: Grants, i: nat)
    requires 0 < i < |grants| && grants[0].0 in leases && leases0.Keys == leases.Keys
    ensures Reaches(leases, grants, i) <==> Reaches(leases0, grants[1..], i - 1)
  {
    if Reaches(leases0, grants[1..], i - 1) {
      forall k | 0 <= k <= i ensures grants[k].0 in leases {
        if k > 0 {
          assert grants[1..][k - 1] == grants[k];
        }
      }
    }
  }

  lemma {:induction false} InstallElsewhere(leases: map<nat, Lease>, route: Route, grants: Grants, l: nat)
    requires l in leases && forall k :: 0 <= k < |grants| ==> grants[k].0 != l
    ensures l in Install(leases, route, grants) && Install(leases, route, grants)[l] == leases[l]
    decreases |grants|
  {
    if grants != [] && grants[0].0 in leases {
      var first := grants[0].0;
      InstallElsewhere(leases[first := leases[first].(runtime := GrantFor(route, grants[0].1))], route, grants[1..], l);
    }
  }

  /** No lease that still exists comes after one that is gone, in the order the replacements are installed. */
  predicate NoSurvivorAfterGap(leases: map<nat, Lease>, grants: Grants) {
    forall a, b :: 0 <= a < b < |grants| && grants[b].0 in leases ==> grants[a].0 in leases
  }

  /** The grants name, among the leases that still exist, exactly those of `id`, each once. */
  predicate GrantsFit(r: Registry, id: ComponentId, grants: Grants) {
    && DistinctGrants(grants)
    && (forall k :: 0 <= k < |grants| && grants[k].0 in r.leases ==> r.leases[grants[k].0].component == id)
    && (forall l :: l in r.leases && r.leases[l].component == id ==> exists k :: 0 <= k < |grants| && grants[k].0 == l)
  }

  lemma BystanderAgrees(r: Registry, id: ComponentId, route: Route, grants: Grants, l: nat)
    requires id in r.webApps && GrantsFit(r, id, grants)
    requires l in r.leases && r.leases[l].component != id && LeaseAgrees(r, l)
    ensures var r' := Apply(r, Reroute(id, route, grants)); l in r'.leases && LeaseAgrees(r', l)
  {
    InstallElsewhere(r.leases, route, grants, l);
  }

  lemma ReroutedLeaseAgreesIff(r: Registry, id: ComponentId, route: Route, grants: Grants, i: nat)
    requires id in r.webApps && KindsDisjoint(r) && GrantsFit(r, id, grants)
    requires i < |grants| && grants[i].0 in r.leases && LeaseAgrees(r, grants[i].0)
    ensures var r' := Apply(r, Reroute(id, route, grants));
      && grants[i].0 in r'.leases
      && (LeaseAgrees(r', grants[i].0) <==> (Needs(r.webApps[id].route) == Needs(route) || Reaches(r.leases, grants, i)))
  {
    var l := grants[i].0;
    InstallKeepsLeases(r.leases, route, grants);
    InstallAt(r.leases, route, grants, i);
    assert Install(r.leases, route, grants)[l].(runtime := None) == r.leases[l].(runtime := None);
  }

  lemma RerouteAgreesIf(r: Registry, id: ComponentId, route: Route, grants: Grants)
    requires id in r.webApps && KindsDisjoint(r) && Agreement(r) && GrantsFit(r, id, grants)
    requires Needs(r.webApps[id].route) == Needs(route) || NoSurvivorAfterGap(r.leases, grants)
    ensures Agreement(Apply(r, Reroute(id, route, grants)))
  {
    var r' := Apply(r, Reroute(id, route, grants));
    InstallKeepsLeases(r.leases, route, grants);
    forall l | l in r'.leases ensures LeaseAgrees(r', l) {
      assert LeaseAgrees(r, l);
      if r.leases[l].component == id {
        var i :| 0 <= i < |grants| && grants[i].0 == l;
        ReroutedLeaseAgreesIff(r, id, route, grants, i);
      } else {
        BystanderAgrees(r, id, route, grants, l);
      }
    }
  }

  lemma RerouteAgreesOnlyIf(r: Registry, id: ComponentId, route: Route, grants: Grants, a: nat, b: nat)
    requires id in r.webApps && KindsDisjoint(r) && Agreement(r) && GrantsFit(r, id, grants)
    requires Needs(r.webApps[id].route) != Needs(route)
    requires a < b < |grants| && grants[a].0 !in r.leases && grants[b].0 in r.leases
    ensures !Agreement(Apply(r, Reroute(id, route, grants)))
  {
    assert LeaseAgrees(r, grants[b].0);
    ReroutedLeaseAgreesIff(r, id, route, grants, b);
  }

  lemma CoveringGrantsFit(s: System, grants: Grants)
    requires FlightInv(s) && Can(s, EndRoute(grants))
    ensures GrantsFit(s.reg, s.flight.id, grants)
  {
    forall l | l in s.reg.leases && s.reg.leases[l].component == s.flight.id
      ensures exists k :: 0 <= k < |grants| && grants[k].0 == l
    {
      assert l in LeasesOf(s.reg, s.flight.id);
    }
    forall k | 0 <= k < |grants| && grants[k].0 in s.reg.leases
      ensures s.reg.leases[grants[k].0].component == s.flight.id
    {
      assert grants[k].0 in LeasesOf(s.reg, s.flight.id);
    }
  }

  /**
   A route change that other threads may have disturbed by dropping leases between its two critical sections.
   It leaves routes and runtimes in agreement if and only if the old and the new route need the same runtime
   kind, or no surviving lease comes after a dropped one in the installation order.
   */
  lemma RouteChangeAgreesIff(s: System, grants: Grants)
    requires Inv(s) && Agreement(s.reg) && Can(s, EndRoute(grants))
    ensures Agreement(Do(s, EndRoute(grants)).reg) <==>
            (Needs(s.reg.webApps[s.flight.id].route) == Needs(s.flight.route) || NoSurvivorAfterGap(s.reg.leases, grants))
  {
    var id, route := s.flight.id, s.flight.route;
    CoveringGrantsFit(s, grants);
    assert Do(s, EndRoute(grants)).reg == Apply(s.reg, Reroute(id, route, grants));
    if Needs(s.reg.webApps[id].route) == Needs(route) || NoSurvivorAfterGap(s.reg.leases, grants) {
      RerouteAgreesIf(s.reg, id, route, grants);
    } else {
      var a, b :| 0 <= a < b < |grants| && grants[b].0 in s.reg.leases && grants[a].0 !in s.reg.leases;
      RerouteAgreesOnlyIf(s.reg, id, route, grants, a, b);
    }
  }

  /** Some order in which the leases of a snapshot can be visited, with a serial number for each. */
  lemma {:induction false} ListGrants(snapshot: set<nat>, serials: nat -> nat) returns (grants: Grants)
    ensures GrantsCover(grants, snapshot)
    ensures forall k :: 0 <= k < |grants| ==> grants[k].1 == serials(grants[k].0)
    decreases |snapshot|
  {
    if snapshot == {} {
      grants := [];
    } else {
      var l :| l in snapshot;
      var rest := ListGrants(snapshot - {l}, serials);
      grants := PrependGrant(l, serials(l), snapshot, rest);
    }
  }

  lemma PrependGrant(l: nat, serial: nat, snapshot: set<nat>, rest: Grants) returns (grants: Grants)
    requires l in snapshot && GrantsCover(rest, snapshot - {l})
    ensures grants == [(l, serial)] + rest && GrantsCover(grants, snapshot)
  {
    grants := [(l, serial)] + rest;
    forall x | x in snapshot ensures exists k :: 0 <= k < |grants| && grants[k].0 == x {
      if x == l {
        assert grants[0].0 == x;
      } else {
        assert x in snapshot - {l};
        var k :| 0 <= k < |rest| && rest[k].0 == x;
        assert grants[k + 1].0 == x;
      }
    }
  }

  /** An order that visits a dropped lease before a surviving one. */
  lemma GapBeforeSurvivor(snapshot: set<nat>, dropped: nat, survivor: nat) returns (grants: Grants)
    requires dropped in snapshot && survivor in snapshot && dropped != survivor
    ensures GrantsCover(grants, snapshot) && |grants| >= 2 && grants[0].0 == dropped && grants[1].0 == survivor
  {
    var rest := ListGrants(snapshot - {dropped} - {survivor}, l => 0);
    rest := PrependGrant(survivor, 0, snapshot - {dropped}, rest);
    grants := PrependGrant(dropped, 0, snapshot, rest);
  }

  /** The route change ends in agreement in whatever order the replacements come out of the hash map. */
  ghost predicate AgreesInEveryOrder(s: System) {
    forall grants :: Can(s, EndRoute(grants)) ==> Agreement(Do(s, EndRoute(grants)).reg)
  }

  /**
   The same without the order: a route change is certain to end in agreement if and only if the two routes need
   the same runtime kind, or no lease it has listed was dropped meanwhile, or all of them were.
   */
  lemma RouteChangeIsSafeIff(s: System)
    requires Inv(s) && Agreement(s.reg) && s.flight.Routing?
    ensures AgreesInEveryOrder(s) <==>
            (Needs(s.reg.webApps[s.flight.id].route) == Needs(s.flight.route)
             || s.flight.snapshot <= s.reg.leases.Keys || s.flight.snapshot !! s.reg.leases.Keys)
  {
    var snapshot, leases := s.flight.snapshot, s.reg.leases;
    if Needs(s.reg.webApps[s.flight.id].route) == Needs(s.flight.route) || snapshot <= leases.Keys || snapshot !! leases.Keys {
      forall grants | Can(s, EndRoute(grants)) ensures Agreement(Do(s, EndRoute(grants)).reg) {
        RouteChangeAgreesIff(s, grants);
      }
    } else {
      var dropped :| dropped in snapshot && dropped !in leases;
      var survivor :| survivor in snapshot && survivor in leases;
      var grants := GapBeforeSurvivor(snapshot, dropped, survivor);
      RouteChangeAgreesIff(s, grants);
      assert Can(s, EndRoute(grants)) && !NoSurvivorAfterGap(leases, grants);
    }
  }

  /** Another thread drops a lease that the route change under way has already listed. */
  predicate Disturbs(s: System, call: Call) {
    call.CallDrop? && s.flight.Routing? && call.l in s.flight.snapshot
  }

  predicate SnapshotIntact(s: System) {
    s.flight.Routing? ==> s.flight.snapshot <= s.reg.leases.Keys
  }

  lemma UndisturbedCallKeepsAgreement(s: System, call: Call)
    requires Inv(s) && Agreement(s.reg) && SnapshotIntact(s) && Can(s, call) && !Disturbs(s, call)
    ensures Agreement(Do(s, call).reg) && SnapshotIntact(Do(s, call))
  {
    if call.EndRoute? {
      assert NoSurvivorAfterGap(s.reg.leases, call.grants);
      RouteChangeAgreesIff(s, call.grants);
    } else {
      OtherCallKeepsAgreement(s, call);
    }
  }

  lemma OtherCallKeepsAgreement(s: System, call: Call)
    requires Inv(s) && Agreement(s.reg) && SnapshotIntact(s) && Can(s, call) && !Disturbs(s, call) && !call.EndRoute?
    ensures Agreement(Do(s, call).reg) && SnapshotIntact(Do(s, call))
  {
    CallIsAllowed(s, call);
    ChangeKeepsAgreement(s.reg, ChangeOf(s, call));
  }

  lemma OldLeaseAgrees(r: Registry, change: Change, l: nat)
    requires Allowed(r, change) && !change.Reroute?
    requires l in r.leases && LeaseAgrees(r, l)
    requires l in Apply(r, change).leases && Apply(r, change).leases[l] == r.leases[l]
    ensures LeaseAgrees(Apply(r, change), l)
  {
    if change.DeleteWebApp? || change.DeleteFileShare? {
      assert r.leases[l].component != change.id;
    }
  }

  lemma ChangeKeepsAgreement(r: Registry, change: Change)
    requires Agreement(r) && Allowed(r, change) && !change.Reroute?
    requires change.AddLease? ==>
      KindOf(change.lease.runtime) == Needs(Resolve(r, change.lease.component, change.lease.purpose).value.0)
    ensures Agreement(Apply(r, change))
  {
    var r' := Apply(r, change);
    forall l | l in r'.leases ensures LeaseAgrees(r', l) {
      if change.AddLease? && l == r.nextLease {
        assert r'.leases[l] == change.lease;
      } else {
        assert LeaseAgrees(r, l);
        OldLeaseAgrees(r, change, l);
      }
    }
  }
}
