/**
 Starting and stopping LAN and loopback listeners: what may be bound, what must be held before anything is
 bound, and which component identities are taken.
 */
module LanProxies {
  import opened Common
  import opened ComponentJournal
  import opened ComponentRegistry
  import opened LanSessions

  // ---------------------------------------------------------------------------------------
  // Bindings and plans
  // ---------------------------------------------------------------------------------------

  datatype Transport = Wifi | Ethernet | Cellular | UnknownTransport

  datatype Interface = Interface(name: string)

  datatype Local = Unspecified | Multicast | Loopback4 | Unicast(address: nat)

  datatype Binding = Binding(
    networkHandle: nat,
    interface: Interface,
    local: Local,
    ssid: Option<nat>,
    transport: Transport,
    generation: nat)

  /** What "the same network" means: the digest of transport, interface and SSID hash, taken as injective. */
  datatype Fingerprint = Fingerprint(transport: Transport, interface: Interface, ssid: nat)

  function FingerprintOf(b: Binding): Option<Fingerprint> {
    if b.ssid.None? then None else Some(Fingerprint(b.transport, b.interface, b.ssid.value))
  }

  function Lowered(c: char): char {
    if 'A' <= c <= 'Z' then (c as int + 32) as char else c
  }

  predicate StartsWithIgnoringCase(name: string, prefix: string) {
    |prefix| <= |name| && forall i :: 0 <= i < |prefix| ==> Lowered(name[i]) == prefix[i]
  }

  const CELLULAR_PREFIXES: seq<string> := ["rmnet", "ccmni", "pdp_ip", "seth_", "qmimux", "wwan"]

  predicate IsCellularInterface(name: string) {
    exists k :: 0 <= k < |CELLULAR_PREFIXES| && StartsWithIgnoringCase(name, CELLULAR_PREFIXES[k])
  }

  /** Visible ASCII: no control characters and no white space. */
  predicate IsInterfaceName(name: string) {
    0 < |name| <= 32 && forall i :: 0 <= i < |name| ==> '!' <= name[i] <= '~'
  }

  /** `NetworkBinding::validate`. */
  predicate BindingValid(b: Binding) {
    && (b.transport.Wifi? || b.transport.Ethernet?)
    && IsInterfaceName(b.interface.name)
    && !IsCellularInterface(b.interface.name)
    && !b.local.Unspecified? && !b.local.Multicast?
  }

  datatype LanRoute = ViaVpn | ViaTor | ViaDirect

  datatype Preset = PresetVpn | PresetTor | PresetMixed

  function SocksRoute(p: Preset): LanRoute {
    if p.PresetTor? then ViaTor else ViaVpn
  }

  function HttpRoute(p: Preset): LanRoute {
    if p.PresetVpn? then ViaVpn else ViaTor
  }

  function PresetRuntimes(p: Preset): seq<RuntimeKind> {
    match p
    case PresetVpn => [VpnRuntime]
    case PresetTor => [TorRuntime]
    case PresetMixed => [VpnRuntime, TorRuntime]
  }

  /** The runtime a listener with this route lives on. */
  function RuntimeFor(route: LanRoute): RuntimeKind {
    match route
    case ViaVpn => VpnRuntime
    case ViaTor => TorRuntime
    case ViaDirect => RootRuntime
  }

  /** `None` is "not offered". */
  datatype Plan = Plan(
    id: ComponentId,
    socks: Option<(nat, LanRoute)>,
    http: Option<(nat, LanRoute)>,
    credentials: Option<Credentials>,
    runtimes: seq<RuntimeKind>)

  /** `lan_plan`: zero ports are not offered, credentials are not optional. */
  function LanPlan(id: ComponentId, preset: Preset, socksPort: nat, httpPort: nat, credentials: Credentials): Plan {
    Plan(id,
         if socksPort != 0 then Some((socksPort, SocksRoute(preset))) else None,
         if httpPort != 0 then Some((httpPort, HttpRoute(preset))) else None,
         Some(credentials),
         PresetRuntimes(preset))
  }

  /** The plan of a named loopback inbound. */
  function InboundPlan(id: ComponentId, httpPort: nat, credentials: Option<Credentials>, route: LanRoute): Plan {
    Plan(id, None, Some((httpPort, route)), credentials, [RuntimeFor(route)])
  }

  /** Every offered route is backed by a runtime the plan acquires. */
  predicate Backed(routes: set<LanRoute>, runtimes: seq<RuntimeKind>) {
    forall r :: r in routes ==> RuntimeFor(r) in runtimes
  }

  function RoutesOf(p: Plan): set<LanRoute> {
    (if p.socks.Some? then {p.socks.value.1} else {}) + (if p.http.Some? then {p.http.value.1} else {})
  }

  /** A LAN preset never routes Direct, always carries credentials, and leases what its routes need. */
  lemma LanPlansAreClosed(id: ComponentId, preset: Preset, socksPort: nat, httpPort: nat, credentials: Credentials)
    ensures var p := LanPlan(id, preset, socksPort, httpPort, credentials);
      ViaDirect !in RoutesOf(p) && p.credentials.Some? && Backed(RoutesOf(p), p.runtimes)
  {}

  lemma InboundPlansAreBacked(id: ComponentId, httpPort: nat, credentials: Option<Credentials>, route: LanRoute)
    ensures var p := InboundPlan(id, httpPort, credentials, route);
      RoutesOf(p) == {route} && Backed(RoutesOf(p), p.runtimes)
  {}

  // ---------------------------------------------------------------------------------------
  // The world of handles
  // ---------------------------------------------------------------------------------------

  datatype Authorization = ConfirmedLan | InternalLoopback

  datatype Phase = Ready | NetworkLost | Stopped

  /** `dropped` handles are gone; their leases went with them. */
  datatype Handle = Handle(
    id: ComponentId,
    authorization: Authorization,
    routes: set<LanRoute>,
    auth: Auth,
    phase: Phase,
    cancelled: bool,
    leases: seq<RuntimeKind>,
    dropped: bool)

  datatype World = World(confirmed: set<Fingerprint>, taken: set<ComponentId>, handles: seq<Handle>)

  datatype StartError =
    | LanBindingRefused | LanNetworkNotConfirmed | LanAlreadyExists | LanRuntimeUnavailable | LanBindFailed

  predicate IsLoopbackBinding(b: Binding) {
    b.networkHandle == 0 && b.interface == Interface("lo") && b.local.Loopback4? && b.ssid.None? && b.transport.Ethernet?
  }

  /** Everything `start_with_binding` refuses before it acquires anything. */
  function Refusal(w: World, p: Plan, b: Binding, a: Authorization): Option<StartError> {
    if !BindingValid(b) then Some(LanBindingRefused)
    else if p.socks.None? && p.http.None? then Some(LanBindingRefused)
    else if p.credentials.None? && !a.InternalLoopback? then Some(LanBindingRefused)
    else if a.ConfirmedLan? && (FingerprintOf(b).None? || FingerprintOf(b).value !in w.confirmed)
    then Some(LanNetworkNotConfirmed)
    else if a.InternalLoopback? && !IsLoopbackBinding(b) then Some(LanBindingRefused)
    else if p.id in w.taken then Some(LanAlreadyExists)
    else None
  }

  /** What the outside answers: the provider for each runtime of the plan, the kernel for each listener. */
  datatype Answers = Answers(grants: seq<bool>, socksBinds: bool, httpBinds: bool)

  predicate AllGranted(grants: seq<bool>, n: nat) {
    n <= |grants| && forall i :: 0 <= i < n ==> grants[i]
  }

  predicate Binds(p: Plan, answers: Answers) {
    (p.socks.Some? ==> answers.socksBinds) && (p.http.Some? ==> answers.httpBinds)
  }

  function StartFailure(w: World, p: Plan, b: Binding, a: Authorization, answers: Answers): Option<StartError> {
    if Refusal(w, p, b, a).Some? then Refusal(w, p, b, a)
    else if !AllGranted(answers.grants, |p.runtimes|) then Some(LanRuntimeUnavailable)
    else if !Binds(p, answers) then Some(LanBindFailed)
    else None
  }

  function NewHandle(p: Plan, b: Binding, a: Authorization): Handle {
    Handle(p.id, a, RoutesOf(p), Auth(p.credentials, if b.generation < 1 then 1 else b.generation, p.credentials.None?),
           Ready, false, p.runtimes, false)
  }

  function Started(w: World, p: Plan, b: Binding, a: Authorization): World {
    w.(taken := w.taken + {p.id}, handles := w.handles + [NewHandle(p, b, a)])
  }

  /** `AuthState::invalidate`, as one call. */
  function InvalidatedAuth(auth: Auth): Auth {
    auth.(generation := auth.generation + 1, credentials := None)
  }

  function Shut(h: Handle, phase: Phase): Handle {
    h.(cancelled := true, auth := InvalidatedAuth(h.auth), phase := phase)
  }

  /** `LanProxyHandle::stop`: the identity is given back unless the handle already was `Stopped`. */
  function StopHandle(w: World, k: nat): World
    requires k < |w.handles|
  {
    var h := w.handles[k];
    w.(handles := w.handles[k := Shut(h, Stopped)], taken := if h.phase.Stopped? then w.taken else w.taken - {h.id})
  }

  /** `LanProxyHandle::network_changed`: the phase is overwritten whatever it was. */
  function NetworkChanged(w: World, k: nat): World
    requires k < |w.handles|
  {
    w.(handles := w.handles[k := Shut(w.handles[k], NetworkLost)])
  }

  /** `Drop`: stop, then the leases go. */
  function DropHandle(w: World, k: nat): World
    requires k < |w.handles|
  {
    var w' := StopHandle(w, k);
    w'.(handles := w'.handles[k := w'.handles[k].(leases := [], dropped := true)])
  }

  // ---------------------------------------------------------------------------------------
  // Start as a method: all or nothing
  // ---------------------------------------------------------------------------------------

  /** The runtime leases a handle keeps alive: none once it is dropped. */
  function Holds(h: Handle): multiset<RuntimeKind> {
    if h.dropped then multiset{} else multiset(h.leases)
  }

  /** How many leases of one kind each handle keeps alive. */
  function Counts(handles: seq<Handle>, kind: RuntimeKind): seq<nat> {
    seq(|handles|, i requires 0 <= i < |handles| => Holds(handles[i])[kind])
  }

  /** How many leases of one kind the handles keep alive. */
  function LeasesHeld(handles: seq<Handle>, kind: RuntimeKind): nat {
    Sum(Counts(handles, kind), |handles|)
  }

  lemma LeasesHeldAppend(handles: seq<Handle>, h: Handle, kind: RuntimeKind)
    ensures LeasesHeld(handles + [h], kind) == LeasesHeld(handles, kind) + Holds(h)[kind]
  {
    assert Counts(handles + [h], kind) == Counts(handles, kind) + [Holds(h)[kind]];
    SumOfPrefix(Counts(handles, kind), [Holds(h)[kind]], |handles|);
  }

  /** What is held changes with the one handle that changes. */
  lemma LeasesHeldUpdate(handles: seq<Handle>, k: nat, h: Handle, kind: RuntimeKind)
    requires k < |handles|
    ensures LeasesHeld(handles[k := h], kind) + Holds(handles[k])[kind] == LeasesHeld(handles, kind) + Holds(h)[kind]
  {
    assert Counts(handles[k := h], kind) == Counts(handles, kind)[k := Holds(h)[kind]];
    SumOfUpdate(Counts(handles, kind), k, Holds(h)[kind], |handles|);
  }

  /** The leases that are out are those of the handles that have not been dropped. */
  ghost predicate Accounted(held: multiset<RuntimeKind>, handles: seq<Handle>) {
    forall kind :: held[kind] == LeasesHeld(handles, kind)
  }

  lemma StartIsAccounted(held: multiset<RuntimeKind>, handles: seq<Handle>, h: Handle)
    requires Accounted(held, handles)
    ensures Accounted(held + Holds(h), handles + [h])
  {
    forall kind ensures (held + Holds(h))[kind] == LeasesHeld(handles + [h], kind) {
      LeasesHeldAppend(handles, h, kind);
    }
  }

  lemma ShuttingIsAccounted(held: multiset<RuntimeKind>, handles: seq<Handle>, k: nat, h: Handle)
    requires Accounted(held, handles) && k < |handles| && Holds(h) == Holds(handles[k])
    ensures Accounted(held, handles[k := h])
  {
    forall kind ensures held[kind] == LeasesHeld(handles[k := h], kind) {
      LeasesHeldUpdate(handles, k, h, kind);
    }
  }

  lemma DroppingIsAccounted(held: multiset<RuntimeKind>, handles: seq<Handle>, k: nat, h: Handle)
    requires Accounted(held, handles) && k < |handles| && h.dropped
    ensures Holds(handles[k]) <= held && Accounted(held - Holds(handles[k]), handles[k := h])
  {
    forall kind ensures Holds(handles[k])[kind] <= held[kind]
                     && held[kind] - Holds(handles[k])[kind] == LeasesHeld(handles[k := h], kind)
    {
      LeasesHeldUpdate(handles, k, h, kind);
    }
  }

  class LanSupervisor {
    var confirmed: set<Fingerprint>
    var taken: set<ComponentId>
    var handles: seq<Handle>
    /** Runtime leases the provider has given out to listeners and not got back. */
    var held: multiset<RuntimeKind>

    ghost function View(): World
      reads this
    {
      World(confirmed, taken, handles)
    }

    /** The provider's leases are out with exactly the handles that have not been dropped. */
    ghost predicate Valid()
      reads this
    {
      Accounted(held, handles)
    }

    constructor ()
      ensures View() == World({}, {}, []) && Valid()
    {
      confirmed, taken, handles, held := {}, {}, [], multiset{};
    }

    /** Acquires the runtimes one after the other; the first refusal drops those acquired so far. */
    method AcquireLeases(runtimes: seq<RuntimeKind>, grants: seq<bool>) returns (acquired: bool)
      modifies this`held
      ensures acquired <==> AllGranted(grants, |runtimes|)
      ensures held == if acquired then old(held) + multiset(runtimes) else old(held)
    {
      var leases: seq<RuntimeKind> := [];
      while |leases| < |runtimes|
        invariant |leases| <= |runtimes| && leases == runtimes[..|leases|]
        invariant AllGranted(grants, |leases|)
        invariant held == old(held) + multiset(leases)
      {
        var n := |leases|;
        if n >= |grants| || !grants[n] {
          held := held - multiset(leases);
          return false;
        }
        held := held + multiset{runtimes[n]};
        leases := leases + [runtimes[n]];
      }
      assert leases == runtimes;
      acquired := true;
    }

    /**
     A failed start changes nothing and keeps no lease; a successful one holds exactly the leases of its plan.
     Runtimes are acquired before anything is bound.
     */
    method Start(p: Plan, b: Binding, a: Authorization, answers: Answers) returns (r: Result<nat, StartError>)
      requires Valid()
      modifies this
      ensures Valid()
      ensures r.Err? <==> StartFailure(old(View()), p, b, a, answers).Some?
      ensures r.Err? ==>
        && StartFailure(old(View()), p, b, a, answers) == Some(r.error)
        && View() == old(View()) && held == old(held)
      ensures r.Ok? ==>
        && r.value == |old(handles)|
        && View() == Started(old(View()), p, b, a)
        && held == old(held) + multiset(p.runtimes)
    {
      var refused := Refusal(World(confirmed, taken, handles), p, b, a);
      if refused.Some? {
        return Err(refused.value);
      }
      var bound := AcquireAndBind(p, answers);
      if bound.Err? {
        return Err(bound.error);
      }
      r := Ok(|handles|);
      taken := taken + {p.id};
      StartIsAccounted(old(held), handles, NewHandle(p, b, a));
      handles := handles + [NewHandle(p, b, a)];
    }

    /** Runtimes first, then the listeners; a failure of either gives the runtimes back. */
    method AcquireAndBind(p: Plan, answers: Answers) returns (r: Result<(), StartError>)
      modifies this`held
      ensures r == if !AllGranted(answers.grants, |p.runtimes|) then Err(LanRuntimeUnavailable)
                   else if !Binds(p, answers) then Err(LanBindFailed) else Ok(())
      ensures held == if r.Ok? then old(held) + multiset(p.runtimes) else old(held)
    {
      var acquired := AcquireLeases(p.runtimes, answers.grants);
      if !acquired {
        return Err(LanRuntimeUnavailable);
      }
      if p.socks.Some? && !answers.socksBinds {
        held := held - multiset(p.runtimes);
        return Err(LanBindFailed);
      }
      if p.http.Some? && !answers.httpBinds {
        held := held - multiset(p.runtimes);
        return Err(LanBindFailed);
      }
      r := Ok(());
    }

    method Stop(k: nat)
      requires Valid() && k < |handles| && !handles[k].dropped
      modifies this`handles, this`taken
      ensures Valid() && View() == StopHandle(old(View()), k)
    {
      ShuttingIsAccounted(held, handles, k, Shut(handles[k], Stopped));
      var h := handles[k];
      h := h.(cancelled := true);
      h := h.(auth := InvalidatedAuth(h.auth));
      var already := h.phase;
      h := h.(phase := Stopped);
      handles := handles[k := h];
      if !already.Stopped? {
        taken := taken - {h.id};
      }
    }

    method ReportNetworkChange(k: nat)
      requires Valid() && k < |handles| && !handles[k].dropped
      modifies this`handles
      ensures Valid() && View() == NetworkChanged(old(View()), k)
    {
      ShuttingIsAccounted(held, handles, k, Shut(handles[k], NetworkLost));
      var h := handles[k];
      h := h.(cancelled := true);
      h := h.(auth := InvalidatedAuth(h.auth));
      handles := handles[k := h.(phase := NetworkLost)];
    }

    /** Dropping a handle stops it and gives back its runtime leases, once. */
    method Release(k: nat)
      requires Valid() && k < |handles| && !handles[k].dropped
      modifies this
      ensures Valid() && View() == DropHandle(old(View()), k)
      ensures held == old(held) - multiset(old(handles)[k].leases) && multiset(old(handles)[k].leases) <= old(held)
    {
      Stop(k);
      var gone := handles[k].(leases := [], dropped := true);
      DroppingIsAccounted(held, handles, k, gone);
      held := held - multiset(handles[k].leases);
      handles := handles[k := gone];
    }
  }

  // ---------------------------------------------------------------------------------------
  // Runs
  // ---------------------------------------------------------------------------------------

  datatype Call =
    | CallConfirm(b: Binding)
    | CallForget(b: Binding)
    | CallStartLan(id: ComponentId, preset: Preset, socksPort: nat, httpPort: nat, credentials: Credentials,
                   b: Binding, answers: Answers)
    | CallStartInbound(id: ComponentId, httpPort: nat, inboundCredentials: Option<Credentials>, route: LanRoute,
                       generation: nat, answers: Answers)
    | CallStartControl(id: ComponentId, preset: Preset, socksPort: nat, httpPort: nat, credentials: Credentials,
                       generation: nat, answers: Answers)
    | CallStop(k: nat)
    | CallNetworkChanged(k: nat)
    | CallDrop(k: nat)

  const MAX_CONFIRMED_NETWORKS: nat := 64

  function LoopbackBinding(generation: nat): Binding {
    Binding(0, Interface("lo"), Loopback4, None, Ethernet, if generation < 1 then 1 else generation)
  }

  predicate Alive(w: World, k: nat) {
    k < |w.handles| && !w.handles[k].dropped
  }

  predicate Can(w: World, call: Call) {
    match call
    case CallStop(k) => Alive(w, k)
    case CallNetworkChanged(k) => Alive(w, k)
    case CallDrop(k) => Alive(w, k)
    case _ => true
  }

  function Try(w: World, p: Plan, b: Binding, a: Authorization, answers: Answers): World {
    if StartFailure(w, p, b, a, answers).Some? then w else Started(w, p, b, a)
  }

  function Do(w: World, call: Call): World
    requires Can(w, call)
  {
    match call
    case CallConfirm(b) =>
      var f := FingerprintOf(b);
      if f.None? || (|w.confirmed| >= MAX_CONFIRMED_NETWORKS && f.value !in w.confirmed) then w
      else w.(confirmed := w.confirmed + {f.value})
    case CallForget(b) =>
      if FingerprintOf(b).None? then w else w.(confirmed := w.confirmed - {FingerprintOf(b).value})
    case CallStartLan(id, preset, socksPort, httpPort, credentials, b, answers) =>
      Try(w, LanPlan(id, preset, socksPort, httpPort, credentials), b, ConfirmedLan, answers)
    case CallStartInbound(id, httpPort, credentials, route, generation, answers) =>
      Try(w, InboundPlan(id, httpPort, credentials, route), LoopbackBinding(generation), InternalLoopback, answers)
    case CallStartControl(id, preset, socksPort, httpPort, credentials, generation, answers) =>
      Try(w, LanPlan(id, preset, socksPort, httpPort, credentials), LoopbackBinding(generation), InternalLoopback, answers)
    case CallStop(k) => StopHandle(w, k)
    case CallNetworkChanged(k) => NetworkChanged(w, k)
    case CallDrop(k) => DropHandle(w, k)
  }

  const Idle := World({}, {}, [])

  ghost predicate StepAt(worlds: seq<World>, calls: seq<Call>, i: nat)
    requires i < |calls| < |worlds|
  {
    Can(worlds[i], calls[i]) && worlds[i + 1] == Do(worlds[i], calls[i])
  }

  ghost predicate IsRun(worlds: seq<World>, calls: seq<Call>) {
    && |worlds| == |calls| + 1
    && worlds[0] == Idle
    && forall i :: 0 <= i < |calls| ==> StepAt(worlds, calls, i)
  }

  // ---------------------------------------------------------------------------------------
  // What every run keeps: listeners are closed unless they are backed
  // ---------------------------------------------------------------------------------------

  /**
   A listener on a confirmed LAN was built with credentials and never routes Direct.  A listener that is not
   cancelled holds a lease of every runtime its routes need, and only a listener built anonymous is anonymous.
   */
  ghost predicate HandleInv(h: Handle) {
    && (h.authorization.ConfirmedLan? ==> !h.auth.anonymous && ViaDirect !in h.routes)
    && (!h.cancelled ==> h.phase.Ready? && !h.dropped && Backed(h.routes, h.leases))
    && (!h.cancelled && !h.auth.anonymous ==> h.auth.credentials.Some?)
    && (h.cancelled ==> h.auth.credentials.None?)
    && (h.dropped ==> h.cancelled && h.leases == [])
    && (h.phase.Ready? ==> !h.cancelled)
  }

  ghost predicate HandlesInv(w: World) {
    forall k :: 0 <= k < |w.handles| ==> HandleInv(w.handles[k])
  }

  lemma CallKeepsHandles(w: World, call: Call)
    requires HandlesInv(w) && Can(w, call)
    ensures HandlesInv(Do(w, call))
  {}

  lemma {:induction false} ListenersAreAlwaysBacked(worlds: seq<World>, calls: seq<Call>, j: nat)
    requires IsRun(worlds, calls) && j < |worlds|
    ensures HandlesInv(worlds[j])
  {
    if j > 0 {
      ListenersAreAlwaysBacked(worlds, calls, j - 1);
      assert StepAt(worlds, calls, j - 1);
      CallKeepsHandles(worlds[j - 1], calls[j - 1]);
    }
  }

  /**
   No anonymous access on the LAN: whatever else is going on, a session that dials through a listener started on
   a confirmed network has proved the credentials of the plan, and no such start succeeds without them.
   */
  lemma LanDialsProveTheCredentials(w: World, p: Plan, b: Binding, answers: Answers, run: seq<Listener>, j: nat, s: nat)
    requires StartFailure(w, p, b, ConfirmedLan, answers).None?
    requires LanSessions.IsRun(run, NewHandle(p, b, ConfirmedLan).auth) && j < |run| && Admitted(run[j], s)
    ensures p.credentials.Some? && s in run[j].proofs && run[j].proofs[s].given == p.credentials
  {
    DialsAreAuthenticated(run, NewHandle(p, b, ConfirmedLan).auth, j, s);
  }

  // ---------------------------------------------------------------------------------------
  // Identities
  // ---------------------------------------------------------------------------------------

  /** The identity under which handle `k` runs; none once it is stopped. */
  function RunsAs(w: World, k: int): Option<ComponentId> {
    if 0 <= k < |w.handles| && !w.handles[k].phase.Stopped? then Some(w.handles[k].id) else None
  }

  ghost predicate HasRunner(w: World, id: ComponentId) {
    exists k :: RunsAs(w, k) == Some(id)
  }

  /** The identities taken are exactly those of handles started and not stopped, at most one for each. */
  ghost predicate IdentityInv(w: World) {
    && (forall k :: RunsAs(w, k).Some? ==> RunsAs(w, k).value in w.taken)
    && (forall id :: id in w.taken ==> HasRunner(w, id))
    && (forall a, b :: RunsAs(w, a).Some? && a != b ==> RunsAs(w, a) != RunsAs(w, b))
  }

  /** Changes that neither start nor stop a handle leave the identities alone. */
  lemma IdentityFrame(w: World, w': World)
    requires IdentityInv(w) && w'.taken == w.taken
    requires forall k :: RunsAs(w', k) == RunsAs(w, k)
    ensures IdentityInv(w')
  {
    forall id | id in w'.taken ensures HasRunner(w', id) {
      assert HasRunner(w, id);
      var k :| RunsAs(w, k) == Some(id);
      assert RunsAs(w', k) == Some(id);
    }
  }

  lemma StartKeepsIdentity(w: World, p: Plan, b: Binding, a: Authorization)
    requires IdentityInv(w) && p.id !in w.taken
    ensures IdentityInv(Started(w, p, b, a))
  {
    var w' := Started(w, p, b, a);
    assert forall k :: RunsAs(w', k) == if k == |w.handles| then Some(p.id) else RunsAs(w, k);
    forall id | id in w'.taken ensures HasRunner(w', id) {
      if id == p.id {
        assert RunsAs(w', |w.handles|) == Some(id);
      } else {
        assert HasRunner(w, id);
        var k :| RunsAs(w, k) == Some(id);
        assert RunsAs(w', k) == Some(id);
      }
    }
  }

  lemma StopKeepsIdentity(w: World, k: nat)
    requires IdentityInv(w) && k < |w.handles|
    ensures IdentityInv(StopHandle(w, k))
  {
    var w' := StopHandle(w, k);
    assert forall i :: RunsAs(w', i) == if i == k then None else RunsAs(w, i);
    if w.handles[k].phase.Stopped? {
      IdentityFrame(w, w');
    } else {
      assert RunsAs(w, k).Some?;
      forall id | id in w'.taken ensures HasRunner(w', id) {
        assert HasRunner(w, id);
        var i :| RunsAs(w, i) == Some(id);
        assert RunsAs(w', i) == Some(id);
      }
    }
  }

  /**
   A network change keeps the identities right if and only if it reaches a handle that is not stopped.  On a
   stopped handle it overwrites `Stopped`, and the handle then claims an identity that is free or somebody else's.
   */
  lemma NetworkChangeKeepsIdentityIff(w: World, k: nat)
    requires IdentityInv(w) && k < |w.handles|
    ensures IdentityInv(NetworkChanged(w, k)) <==> !w.handles[k].phase.Stopped?
  {
    var w', id := NetworkChanged(w, k), w.handles[k].id;
    assert forall i :: RunsAs(w', i) == if i == k then Some(id) else RunsAs(w, i);
    if w.handles[k].phase.Stopped? {
      assert RunsAs(w', k) == Some(id);
      if id in w.taken {
        assert HasRunner(w, id);
        var i :| RunsAs(w, i) == Some(id);
        assert RunsAs(w', i) == Some(id);
      }
    } else {
      IdentityFrame(w, w');
    }
  }

  /** The call reports a network change to a handle that has already been stopped. */
  predicate Revives(w: World, call: Call) {
    call.CallNetworkChanged? && call.k < |w.handles| && w.handles[call.k].phase.Stopped?
  }

  lemma CallKeepsIdentity(w: World, call: Call)
    requires IdentityInv(w) && Can(w, call) && !Revives(w, call)
    ensures IdentityInv(Do(w, call))
  {
    match call
    case CallConfirm(_) => ConfirmationKeepsIdentity(w, Do(w, call));
    case CallForget(_) => ConfirmationKeepsIdentity(w, Do(w, call));
    case CallStartLan(id, preset, s, h, c, b, answers) =>
      if Do(w, call) != w { StartKeepsIdentity(w, LanPlan(id, preset, s, h, c), b, ConfirmedLan); }
    case CallStartInbound(id, port, c, route, g, answers) =>
      if Do(w, call) != w { StartKeepsIdentity(w, InboundPlan(id, port, c, route), LoopbackBinding(g), InternalLoopback); }
    case CallStartControl(id, preset, s, h, c, g, answers) =>
      if Do(w, call) != w { StartKeepsIdentity(w, LanPlan(id, preset, s, h, c), LoopbackBinding(g), InternalLoopback); }
    case CallStop(k) => StopKeepsIdentity(w, k);
    case CallNetworkChanged(k) => NetworkChangeKeepsIdentityIff(w, k);
    case CallDrop(k) =>
      StopKeepsIdentity(w, k);
      ReleaseKeepsIdentity(StopHandle(w, k), k);
  }

  lemma ConfirmationKeepsIdentity(w: World, w': World)
    requires IdentityInv(w) && w'.taken == w.taken && w'.handles == w.handles
    ensures IdentityInv(w')
  {
    assert forall k :: RunsAs(w', k) == RunsAs(w, k);
    IdentityFrame(w, w');
  }

  lemma ReleaseKeepsIdentity(w: World, k: nat)
    requires IdentityInv(w) && k < |w.handles|
    ensures IdentityInv(w.(handles := w.handles[k := w.handles[k].(leases := [], dropped := true)]))
  {
    var w' := w.(handles := w.handles[k := w.handles[k].(leases := [], dropped := true)]);
    assert forall i :: RunsAs(w', i) == RunsAs(w, i);
    IdentityFrame(w, w');
  }

  ghost predicate NobodyRevived(worlds: seq<World>, calls: seq<Call>) {
    |calls| <= |worlds| && forall i :: 0 <= i < |calls| ==> !Revives(worlds[i], calls[i])
  }

  /**
   In every run in which network changes reach only handles that are not stopped, the identity set is exact:
   each identity is taken by exactly one started, unstopped handle, and dropping a stale handle evicts nobody.
   */
  lemma {:induction false} IdentitiesAreExact(worlds: seq<World>, calls: seq<Call>, j: nat)
    requires IsRun(worlds, calls) && NobodyRevived(worlds, calls) && j < |worlds|
    ensures IdentityInv(worlds[j])
  {
    if j > 0 {
      IdentitiesAreExact(worlds, calls, j - 1);
      assert StepAt(worlds, calls, j - 1);
      CallKeepsIdentity(worlds[j - 1], calls[j - 1]);
    }
  }

  /** Dropping a handle that was stopped before leaves every identity where it is. */
  lemma StaleDropEvictsNobody(w: World, k: nat)
    requires k < |w.handles| && w.handles[k].phase.Stopped?
    ensures DropHandle(w, k).taken == w.taken
  {}

  /** What a revived handle does: its drop releases the identity its successor is running under. */
  lemma RevivedHandleEvictsItsSuccessor(w: World, p: Plan, b: Binding, a: Authorization, answers: Answers, k: nat)
    requires IdentityInv(w) && k < |w.handles| && w.handles[k].phase.Stopped? && !w.handles[k].dropped
    requires p.id == w.handles[k].id && StartFailure(w, p, b, a, answers).None?
    ensures var w' := DropHandle(NetworkChanged(Started(w, p, b, a), k), k);
      && RunsAs(w', |w.handles|) == Some(p.id)
      && p.id !in w'.taken
      && !IdentityInv(w')
  {
    var w' := DropHandle(NetworkChanged(Started(w, p, b, a), k), k);
    assert RunsAs(w', |w.handles|).Some?;
  }

  lemma LoopbackBindingIsValid(generation: nat)
    ensures BindingValid(LoopbackBinding(generation)) && IsLoopbackBinding(LoopbackBinding(generation))
  {
    var name := "lo";
    assert |name| == 2 && name[0] == 'l' && name[1] == 'o';
    forall k | 0 <= k < |CELLULAR_PREFIXES| ensures !StartsWithIgnoringCase(name, CELLULAR_PREFIXES[k]) {
      assert |CELLULAR_PREFIXES[k]| > 2;
    }
  }

  /** A control proxy on loopback starts, given its runtime, its port and a free identity. */
  lemma ControlStarts(w: World, id: ComponentId, credentials: Credentials)
    requires id !in w.taken
    ensures var call := ControlCall(id, credentials);
      Can(w, call) && Do(w, call) == Started(w, LanPlan(id, PresetVpn, 0, 1, credentials), LoopbackBinding(1), InternalLoopback)
  {
    LoopbackBindingIsValid(1);
  }

  function ControlCall(id: ComponentId, credentials: Credentials): Call {
    CallStartControl(id, PresetVpn, 0, 1, credentials, 1, Answers([true], true, true))
  }

  /** Start, stop, start again under the same identity, a network change for the first handle, its drop. */
  function RevivingCalls(id: ComponentId, credentials: Credentials): seq<Call> {
    [ControlCall(id, credentials), CallStop(0), ControlCall(id, credentials), CallNetworkChanged(0), Call.CallDrop(0)]
  }

  /** The world after the first `n` of those calls. */
  function RevivingWorld(n: nat, h: Handle): World {
    var stopped := Shut(h, Stopped);
    if n == 0 then Idle
    else if n == 1 then World({}, {h.id}, [h])
    else if n == 2 then World({}, {}, [stopped])
    else if n == 3 then World({}, {h.id}, [stopped, h])
    else if n == 4 then World({}, {h.id}, [Shut(stopped, NetworkLost), h])
    else World({}, {}, [Shut(Shut(stopped, NetworkLost), Stopped).(leases := [], dropped := true), h])
  }

  lemma RevivingStep(n: nat, id: ComponentId, credentials: Credentials, h: Handle)
    requires n < 5 && h == NewHandle(LanPlan(id, PresetVpn, 0, 1, credentials), LoopbackBinding(1), InternalLoopback)
    ensures var w, call := RevivingWorld(n, h), RevivingCalls(id, credentials)[n];
      Can(w, call) && Do(w, call) == RevivingWorld(n + 1, h)
  {
    if n == 0 || n == 2 {
      ControlStarts(RevivingWorld(n, h), id, credentials);
    } else if n == 1 || n == 4 {
      assert {id} - {id} == {};
    }
  }

  /** A run that gets there, for every identity: at its end a proxy runs under an identity that counts as free. */
  lemma RevivingRun(id: ComponentId, credentials: Credentials) returns (worlds: seq<World>)
    ensures IsRun(worlds, RevivingCalls(id, credentials))
    ensures RunsAs(worlds[5], 1) == Some(id) && id !in worlds[5].taken && !IdentityInv(worlds[5])
  {
    var calls := RevivingCalls(id, credentials);
    var h := NewHandle(LanPlan(id, PresetVpn, 0, 1, credentials), LoopbackBinding(1), InternalLoopback);
    worlds := seq(6, n requires 0 <= n < 6 => RevivingWorld(n, h));
    forall i | 0 <= i < |calls| ensures StepAt(worlds, calls, i) {
      RevivingStep(i, id, credentials, h);
    }
    assert RunsAs(worlds[5], 1) == Some(id);
  }
}
