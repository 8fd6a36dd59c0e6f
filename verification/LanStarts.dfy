/**
 Which starts of a LAN or loopback listener succeed, said on the calls of a run: what the user confirmed and has not
 taken back, what was asked for and what the outside answered.
 */
module LanStarts {
  import opened Common
  import opened ComponentJournal
  import opened LanProxies
  import ComponentRegistry
  import LanSessions

  // ---------------------------------------------------------------------------------------
  // Confirmed networks
  // ---------------------------------------------------------------------------------------

  /** Two bindings name the same network: same transport, interface and SSID hash.  Without an SSID hash nothing does. */
  predicate SameNetwork(a: Binding, b: Binding) {
    a.ssid.Some? && a.ssid == b.ssid && a.transport == b.transport && a.interface == b.interface
  }

  /** Call `k` confirmed the network of `b` while fewer than 64 were confirmed. */
  predicate Confirms(worlds: seq<World>, calls: seq<Call>, k: nat, b: Binding)
    requires k < |calls| <= |worlds|
  {
    calls[k].CallConfirm? && SameNetwork(calls[k].b, b) && |worlds[k].confirmed| < 64
  }

  /** No call from `k` on and before `i` takes the confirmation back. */
  predicate NotForgotten(calls: seq<Call>, k: nat, i: nat, b: Binding)
    requires i <= |calls|
  {
    forall m :: k <= m < i ==> !(calls[m].CallForget? && SameNetwork(calls[m].b, b))
  }

  ghost predicate ConfirmedBefore(worlds: seq<World>, calls: seq<Call>, i: nat, b: Binding)
    requires i <= |calls| <= |worlds|
  {
    exists k :: 0 <= k < i && Confirms(worlds, calls, k, b) && NotForgotten(calls, k, i, b)
  }

  predicate IsConfirmed(w: World, b: Binding) {
    FingerprintOf(b).Some? && FingerprintOf(b).value in w.confirmed
  }

  /** What one call does to one confirmation. */
  lemma ConfirmationAfter(w: World, call: Call, b: Binding)
    requires Can(w, call)
    ensures IsConfirmed(Do(w, call), b) <==>
      if call.CallConfirm? && SameNetwork(call.b, b) && |w.confirmed| < 64 then true
      else IsConfirmed(w, b) && !(call.CallForget? && SameNetwork(call.b, b))
  {}

  /** A network counts as confirmed exactly when it was, with room for it, and that has not been taken back since. */
  lemma {:induction false} ConfirmedIff(worlds: seq<World>, calls: seq<Call>, i: nat, b: Binding)
    requires IsRun(worlds, calls) && i <= |calls|
    ensures IsConfirmed(worlds[i], b) <==> ConfirmedBefore(worlds, calls, i, b)
  {
    if i > 0 {
      ConfirmedIff(worlds, calls, i - 1, b);
      assert StepAt(worlds, calls, i - 1);
      ConfirmationAfter(worlds[i - 1], calls[i - 1], b);
      if Confirms(worlds, calls, i - 1, b) {
        assert NotForgotten(calls, i - 1, i, b);
      } else if ConfirmedBefore(worlds, calls, i, b) {
        var k :| 0 <= k < i && Confirms(worlds, calls, k, b) && NotForgotten(calls, k, i, b);
        assert NotForgotten(calls, k, i - 1, b);
        assert k < i - 1;
      } else if ConfirmedBefore(worlds, calls, i - 1, b) {
        var k :| 0 <= k < i - 1 && Confirms(worlds, calls, k, b) && NotForgotten(calls, k, i - 1, b);
        assert !NotForgotten(calls, k, i, b);
      }
    }
  }

  /** At most 64 networks are confirmed at any time. */
  lemma {:induction false} ConfirmationsAreBounded(worlds: seq<World>, calls: seq<Call>, i: nat)
    requires IsRun(worlds, calls) && i <= |calls|
    ensures |worlds[i].confirmed| <= 64
  {
    if i > 0 {
      ConfirmationsAreBounded(worlds, calls, i - 1);
      assert StepAt(worlds, calls, i - 1);
      if calls[i - 1].CallForget? { SubsetSize(worlds[i].confirmed, worlds[i - 1].confirmed); }
      if calls[i - 1].CallConfirm? && IsConfirmed(worlds[i - 1], calls[i - 1].b) {
        assert worlds[i].confirmed == worlds[i - 1].confirmed;
      }
    }
  }

  // ---------------------------------------------------------------------------------------
  // What may be bound
  // ---------------------------------------------------------------------------------------

  function LowerCase(name: string): (r: string)
    ensures |r| == |name|
  {
    seq(|name|, i requires 0 <= i < |name| => if 'A' <= name[i] <= 'Z' then name[i] - 'A' + 'a' else name[i])
  }

  /** Not a modem, whatever the case of its name. */
  predicate IsNoModem(name: string) {
    var lower := LowerCase(name);
    && !("rmnet" <= lower) && !("ccmni" <= lower) && !("pdp_ip" <= lower)
    && !("seth_" <= lower) && !("qmimux" <= lower) && !("wwan" <= lower)
  }

  /** A binding that may carry listeners: on Wi-Fi or Ethernet, not on a modem, at one address of its own. */
  predicate Bindable(b: Binding) {
    && (b.transport.Wifi? || b.transport.Ethernet?)
    && 0 < |b.interface.name| <= 32 && (forall i :: 0 <= i < |b.interface.name| ==> ' ' < b.interface.name[i] < 127 as char)
    && IsNoModem(b.interface.name)
    && (b.local.Loopback4? || b.local.Unicast?)
  }

  lemma PrefixIgnoringCase(name: string, prefix: string)
    ensures StartsWithIgnoringCase(name, prefix) <==> prefix <= LowerCase(name)
  {}

  lemma ModemsAreCellular(name: string)
    ensures IsCellularInterface(name) <==> !IsNoModem(name)
  {
    var all := CELLULAR_PREFIXES;
    assert all[0] == "rmnet" && all[1] == "ccmni" && all[2] == "pdp_ip" && all[3] == "seth_" && all[4] == "qmimux" && all[5] == "wwan";
    forall k | 0 <= k < |all| ensures StartsWithIgnoringCase(name, all[k]) <==> all[k] <= LowerCase(name) {
      PrefixIgnoringCase(name, all[k]);
    }
  }

  lemma BindableIsValid(b: Binding)
    ensures BindingValid(b) <==> Bindable(b)
  {
    ModemsAreCellular(b.interface.name);
  }

  // ---------------------------------------------------------------------------------------
  // Starts
  // ---------------------------------------------------------------------------------------

  /** The provider grants what the preset needs: one runtime, or two for the mixed preset. */
  predicate Granted(preset: Preset, grants: seq<bool>) {
    |grants| > 0 && grants[0] && (preset.PresetMixed? ==> |grants| > 1 && grants[1])
  }

  /** Each port that is offered can be bound. */
  predicate PortsBind(socksPort: nat, httpPort: nat, answers: Answers) {
    (socksPort != 0 ==> answers.socksBinds) && (httpPort != 0 ==> answers.httpBinds)
  }

  /** The call added a handle. */
  predicate Starts(w: World, w': World) {
    |w'.handles| == |w.handles| + 1
  }

  /** What one start on a LAN needs of the world it finds. */
  lemma LanStartIff(w: World, call: Call)
    requires call.CallStartLan?
    ensures Starts(w, Do(w, call)) <==>
      && Bindable(call.b) && (call.socksPort != 0 || call.httpPort != 0)
      && IsConfirmed(w, call.b) && call.id !in w.taken
      && Granted(call.preset, call.answers.grants) && PortsBind(call.socksPort, call.httpPort, call.answers)
    ensures !Starts(w, Do(w, call)) ==> Do(w, call) == w
  {
    BindableIsValid(call.b);
  }

  /**
   In every run: a listener on the LAN starts if and only if its network was confirmed earlier and not forgotten
   since, the binding may carry listeners, a port is offered, the identity is free and the outside grants the rest.
   Otherwise the call changes nothing.
   */
  lemma LanStartsNeedConfirmation(worlds: seq<World>, calls: seq<Call>, i: nat)
    requires IsRun(worlds, calls) && i < |calls| && calls[i].CallStartLan?
    ensures var call := calls[i];
      Starts(worlds[i], worlds[i + 1]) <==>
        && ConfirmedBefore(worlds, calls, i, call.b)
        && Bindable(call.b) && (call.socksPort != 0 || call.httpPort != 0)
        && call.id !in worlds[i].taken
        && Granted(call.preset, call.answers.grants) && PortsBind(call.socksPort, call.httpPort, call.answers)
    ensures !Starts(worlds[i], worlds[i + 1]) ==> worlds[i + 1] == worlds[i]
  {
    assert StepAt(worlds, calls, i);
    ConfirmedIff(worlds, calls, i, calls[i].b);
    LanStartIff(worlds[i], calls[i]);
  }

  /** Which error a start on a LAN ends with: the first thing that is wrong, in this order. */
  lemma LanRefusalsAreExact(w: World, call: Call)
    requires call.CallStartLan?
    ensures var p := LanPlan(call.id, call.preset, call.socksPort, call.httpPort, call.credentials);
      StartFailure(w, p, call.b, ConfirmedLan, call.answers) ==
      (if !Bindable(call.b) || (call.socksPort == 0 && call.httpPort == 0) then Some(LanBindingRefused)
       else if !IsConfirmed(w, call.b) then Some(LanNetworkNotConfirmed)
       else if call.id in w.taken then Some(LanAlreadyExists)
       else if !Granted(call.preset, call.answers.grants) then Some(LanRuntimeUnavailable)
       else if !PortsBind(call.socksPort, call.httpPort, call.answers) then Some(LanBindFailed)
       else None)
  {
    BindableIsValid(call.b);
  }

  /** No plan without credentials starts on a LAN. */
  lemma LanIsNeverAnonymous(w: World, p: Plan, b: Binding, answers: Answers)
    ensures p.credentials.None? ==> StartFailure(w, p, b, ConfirmedLan, answers).Some?
  {}

  /** Loopback listeners need no confirmation: a named inbound needs its runtime and its port. */
  lemma InboundStartsIff(w: World, call: Call)
    requires call.CallStartInbound?
    ensures Starts(w, Do(w, call)) <==>
      call.id !in w.taken && |call.answers.grants| > 0 && call.answers.grants[0] && call.answers.httpBinds
    ensures !Starts(w, Do(w, call)) ==> Do(w, call) == w
  {
    LoopbackBindingIsValid(call.generation);
  }

  lemma ControlStartsIff(w: World, call: Call)
    requires call.CallStartControl?
    ensures Starts(w, Do(w, call)) <==>
      && call.id !in w.taken && (call.socksPort != 0 || call.httpPort != 0)
      && Granted(call.preset, call.answers.grants) && PortsBind(call.socksPort, call.httpPort, call.answers)
    ensures !Starts(w, Do(w, call)) ==> Do(w, call) == w
  {
    LoopbackBindingIsValid(call.generation);
  }

  /** What each preset offers where, and what it holds for that. */
  lemma PresetsRouteAsNamed(id: ComponentId, preset: Preset, socksPort: nat, httpPort: nat, credentials: LanSessions.Credentials)
    ensures var p := LanPlan(id, preset, socksPort, httpPort, credentials);
      && (p.socks.Some? <==> socksPort != 0) && (p.http.Some? <==> httpPort != 0)
      && (p.socks.Some? ==> p.socks.value == (socksPort, if preset.PresetTor? then ViaTor else ViaVpn))
      && (p.http.Some? ==> p.http.value == (httpPort, if preset.PresetVpn? then ViaVpn else ViaTor))
      && (ComponentRegistry.VpnRuntime in p.runtimes <==> !preset.PresetTor?)
      && (ComponentRegistry.TorRuntime in p.runtimes <==> !preset.PresetVpn?)
      && ComponentRegistry.RootRuntime !in p.runtimes
  {}

  /** The handle a start adds is ready and carries what was asked for; the handles before it are as they were. */
  lemma StartedHandleIsAsAsked(w: World, call: Call)
    requires Can(w, call) && Starts(w, Do(w, call))
    ensures var w' := Do(w, call); var h := w'.handles[|w.handles|];
      && w'.handles[..|w.handles|] == w.handles && w'.confirmed == w.confirmed
      && h.phase.Ready? && !h.cancelled && !h.dropped
      && match call
         case CallStartLan(id, preset, s, p, credentials, b, _) =>
           && h.id == id && h.authorization.ConfirmedLan? && h.auth.credentials == Some(credentials) && Routes(h, preset, s, p)
           && AtLeastOne(b.generation, h.auth.generation)
         case CallStartControl(id, preset, s, p, credentials, generation, _) =>
           && h.id == id && h.authorization.InternalLoopback? && h.auth.credentials == Some(credentials) && Routes(h, preset, s, p)
           && AtLeastOne(generation, h.auth.generation)
         case CallStartInbound(id, _, credentials, route, generation, _) =>
           && h.id == id && h.authorization.InternalLoopback? && h.auth.credentials == credentials && h.routes == {route}
           && AtLeastOne(generation, h.auth.generation)
         case _ => false
  {}

  /** The generation asked for, or one if none was. */
  predicate AtLeastOne(asked: nat, given: nat) {
    (asked == 0 ==> given == 1) && (asked > 0 ==> given == asked)
  }

  /** The listener goes where its preset says: SOCKS by Tor only for Tor, HTTP by the tunnel only for VPN. */
  predicate Routes(h: Handle, preset: Preset, socksPort: nat, httpPort: nat) {
    && (ViaVpn in h.routes <==> (socksPort != 0 && !preset.PresetTor?) || (httpPort != 0 && preset.PresetVpn?))
    && (ViaTor in h.routes <==> (socksPort != 0 && preset.PresetTor?) || (httpPort != 0 && !preset.PresetVpn?))
    && ViaDirect !in h.routes
  }

  /** What ends a listener leaves every other listener, and every confirmation, alone. */
  lemma EndsTouchOneHandle(w: World, call: Call, k: nat)
    requires Can(w, call) && (call.CallStop? || call.CallNetworkChanged? || call.CallDrop?) && k < |w.handles|
    ensures var w' := Do(w, call);
      && |w'.handles| == |w.handles| && w'.confirmed == w.confirmed
      && (k != call.k ==> w'.handles[k] == w.handles[k])
      && (k == call.k ==>
          && w'.handles[k].cancelled && w'.handles[k].auth.credentials.None? && w'.handles[k].id == w.handles[k].id
          && w'.handles[k].auth.generation == w.handles[k].auth.generation + 1
          && (w'.handles[k].dropped <==> call.CallDrop?)
          && w'.handles[k].leases == (if call.CallDrop? then [] else w.handles[k].leases)
          && w'.handles[k].phase == (if call.CallNetworkChanged? then NetworkLost else Stopped))
  {}
}
