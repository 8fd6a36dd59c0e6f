/**
 The component manager as an object.  Each method is proved to have exactly the outcome that
 `ComponentRegistry` states for the call, on the registry, on the journal and in its answer.

 What the outside world answers is a parameter: the canonical form of an origin (`None` when there is none),
 the serial numbers of the runtimes a provider grants (`None` when it refuses), the digest of the random
 credential (`None` without a random source), and whether a runtime lease says it is available.
 */
module ComponentManagement {
  import opened Common
  import opened ComponentJournal
  import opened ComponentRegistry

  /** The provider's answer for one lease; a route that needs no runtime does not ask it. */
  predicate Grants1(route: Route, answer: Option<nat>) {
    Needs(route).None? || answer.Some?
  }

  function SerialOf(answer: Option<nat>): nat {
    if answer.Some? then answer.value else 0
  }

  /** All leases of `id` moved to `route`, whatever the order they are visited in. */
  function Rerouted(r: Registry, id: ComponentId, route: Route, provider: nat -> Option<nat>): Registry
    requires id in r.webApps
  {
    r.(webApps := r.webApps[id := r.webApps[id].(route := route, generation := r.nextGeneration)],
       nextGeneration := SaturatingNext(r.nextGeneration),
       leases := map l | l in r.leases ::
         if r.leases[l].component == id then r.leases[l].(runtime := GrantFor(route, SerialOf(provider(l)))) else r.leases[l])
  }

  predicate ProviderGrantsAll(r: Registry, id: ComponentId, route: Route, provider: nat -> Option<nat>) {
    forall l :: l in r.leases && r.leases[l].component == id ==> Grants1(route, provider(l))
  }

  /** With no lease dropped in between, the two critical sections do this in every installation order. */
  lemma InstallationOrderIsIrrelevant(r: Registry, id: ComponentId, route: Route, grants: Grants, provider: nat -> Option<nat>)
    requires id in r.webApps && GrantsFit(r, id, grants) && InstallsAll(r.leases, grants)
    requires forall k :: 0 <= k < |grants| ==> grants[k].1 == SerialOf(provider(grants[k].0))
    ensures Apply(r, Reroute(id, route, grants)) == Rerouted(r, id, route, provider)
  {
    var installed, target := Install(r.leases, route, grants), Rerouted(r, id, route, provider).leases;
    InstallKeepsLeases(r.leases, route, grants);
    forall l | l in r.leases ensures installed[l] == target[l] {
      if r.leases[l].component == id {
        var k :| 0 <= k < |grants| && grants[k].0 == l;
        InstallAt(r.leases, route, grants, k);
        assert installed[l].(runtime := None) == r.leases[l].(runtime := None);
      } else {
        InstallElsewhere(r.leases, route, grants, l);
      }
    }
    assert installed == target;
  }

  lemma AppendGrant(grants: Grants, l: nat, serial: nat, visited: set<nat>)
    requires GrantsCover(grants, visited) && l !in visited
    ensures GrantsCover(grants + [(l, serial)], visited + {l})
  {
    var longer := grants + [(l, serial)];
    forall x | x in visited + {l} ensures exists k :: 0 <= k < |longer| && longer[k].0 == x {
      if x == l {
        assert longer[|grants|].0 == x;
      } else {
        var k :| 0 <= k < |grants| && grants[k].0 == x;
        assert longer[k].0 == x;
      }
    }
  }

  /** The loop installs one more replacement. */
  lemma InstallOneMore(leases: map<nat, Lease>, route: Route, grants: Grants, l: nat, serial: nat)
    requires InstallsAll(leases, grants) && l in leases
    ensures InstallsAll(leases, grants + [(l, serial)])
    ensures l in Install(leases, route, grants)
    ensures var before := Install(leases, route, grants);
      Install(leases, route, grants + [(l, serial)]) == before[l := before[l].(runtime := GrantFor(route, serial))]
  {
    InstallKeepsLeases(leases, route, grants);
    InstallAppend(leases, route, grants, [(l, serial)]);
    var before, one := Install(leases, route, grants), [(l, serial)];
    assert one[1..] == [] && one[0] == (l, serial);
    assert Install(before[l := before[l].(runtime := GrantFor(route, serial))], route, []) ==
           before[l := before[l].(runtime := GrantFor(route, serial))];
  }

  /** The installation loop has visited all but `todo`, in the order of `grants`, and found every lease. */
  ghost predicate Installing(before: map<nat, Lease>, route: Route, replacements: map<nat, nat>, todo: set<nat>,
                             grants: Grants, leases: map<nat, Lease>) {
    && todo <= replacements.Keys && GrantsCover(grants, replacements.Keys - todo)
    && (forall k :: 0 <= k < |grants| ==> grants[k].1 == replacements[grants[k].0])
    && InstallsAll(before, grants) && leases == Install(before, route, grants) && leases.Keys == before.Keys
  }

  lemma VisitOne(before: map<nat, Lease>, route: Route, replacements: map<nat, nat>, todo: set<nat>, grants: Grants,
                 leases: map<nat, Lease>, l: nat)
    requires Installing(before, route, replacements, todo, grants, leases) && l in todo && l in leases
    ensures Installing(before, route, replacements, todo - {l}, grants + [(l, replacements[l])],
                       leases[l := leases[l].(runtime := GrantFor(route, replacements[l]))])
  {
    InstallOneMore(before, route, grants, l, replacements[l]);
    AppendGrant(grants, l, replacements[l], replacements.Keys - todo);
    assert replacements.Keys - (todo - {l}) == replacements.Keys - todo + {l};
  }

  /** The loop meets a lease that is gone: what it has done is what it would do in any order that goes on from here. */
  lemma StopAt(before: map<nat, Lease>, route: Route, grants: Grants, l: nat, todo: set<nat>, replacements: map<nat, nat>,
               leases: map<nat, Lease>) returns (order: Grants)
    requires Installing(before, route, replacements, todo, grants, leases) && l in todo && l !in leases
    ensures GrantsCover(order, replacements.Keys)
    ensures forall k :: 0 <= k < |order| ==> order[k].1 == replacements[order[k].0]
    ensures Install(before, route, order) == leases && !InstallsAll(before, order)
  {
    var rest := ListGrants(todo - {l}, x => if x in replacements then replacements[x] else 0);
    rest := PrependGrant(l, replacements[l], todo, rest);
    order := grants + rest;
    JoinCovers(grants, rest, replacements.Keys - todo, todo);
    assert replacements.Keys - todo + todo == replacements.Keys;
    InstallAppend(before, route, grants, rest);
    assert order[|grants|].0 == l;
  }

  lemma JoinCovers(a: Grants, b: Grants, x: set<nat>, y: set<nat>)
    requires GrantsCover(a, x) && GrantsCover(b, y) && x !! y
    ensures GrantsCover(a + b, x + y)
  {
    var c := a + b;
    forall l | l in x + y ensures exists k :: 0 <= k < |c| && c[k].0 == l {
      if l in x {
        var k :| 0 <= k < |a| && a[k].0 == l;
        assert c[k].0 == l;
      } else {
        var k :| 0 <= k < |b| && b[k].0 == l;
        assert c[|a| + k].0 == l;
      }
    }
  }

  lemma CoveringGrantsInstallAll(r: Registry, id: ComponentId, grants: Grants)
    requires GrantsCover(grants, LeasesOf(r, id))
    ensures InstallsAll(r.leases, grants) && GrantsFit(r, id, grants)
  {
    forall l | l in r.leases && r.leases[l].component == id
      ensures exists k :: 0 <= k < |grants| && grants[k].0 == l
    {
      assert l in LeasesOf(r, id);
    }
  }

  /** The journal after a call that logged `note`, if anything. */
  function Logged(j: Journal, note: Option<Note>): Journal {
    if note.Some? then Push(j, note.value.component, note.value.channel, note.value.kind) else j
  }

  class ComponentManager {
    var nextLease: nat
    var nextGeneration: nat
    var webApps: map<ComponentId, WebApp>
    var fileShares: map<ComponentId, nat>
    var leases: map<nat, Lease>
    const journal: EventJournal

    ghost function Reg(): Registry
      reads this
    {
      Registry(nextLease, nextGeneration, webApps, fileShares, leases)
    }

    constructor ()
      ensures Reg() == EmptyRegistry && journal.View() == EmptyJournal && fresh(journal)
    {
      nextLease, nextGeneration := 1, 1;
      webApps, fileShares, leases := map[], map[], map[];
      journal := new EventJournal();
    }

    method TakeGeneration() returns (generation: nat)
      modifies this`nextGeneration
      ensures generation == old(nextGeneration) && nextGeneration == SaturatingNext(generation)
    {
      generation := nextGeneration;
      nextGeneration := SaturatingNext(nextGeneration);
    }

    method RegisterApp(id: ComponentId, origin: Option<Origin>, route: Route, notifications: bool)
      returns (answer: Result<(), Error>)
      modifies this, journal
      ensures var out := RegisterWebApp(old(Reg()), old(journal.View()), id, origin, route, notifications);
        Reg() == Apply(old(Reg()), out.change) && journal.View() == Logged(old(journal.View()), out.note)
        && answer == out.answer
    {
      if origin.None? {
        return Err(InvalidOrigin);
      }
      if |webApps| + |fileShares| >= MAX_COMPONENTS || (id !in journal.next && |journal.next| >= MAX_COMPONENTS) {
        return Err(Capacity);
      }
      if id in webApps || id in fileShares {
        return Err(AlreadyExists);
      }
      var generation := TakeGeneration();
      webApps := webApps[id := WebApp(origin.value, route, notifications, generation)];
      journal.PushEvent(id, WebNavigation, Registered);
      answer := Ok(());
    }

    method RegisterShare(id: ComponentId) returns (answer: Result<(), Error>)
      modifies this, journal
      ensures var out := RegisterFileShare(old(Reg()), old(journal.View()), id);
        Reg() == Apply(old(Reg()), out.change) && journal.View() == Logged(old(journal.View()), out.note)
        && answer == out.answer
    {
      if |webApps| + |fileShares| >= MAX_COMPONENTS || (id !in journal.next && |journal.next| >= MAX_COMPONENTS) {
        return Err(Capacity);
      }
      if id in webApps || id in fileShares {
        return Err(AlreadyExists);
      }
      var generation := TakeGeneration();
      fileShares := fileShares[id := generation];
      journal.PushEvent(id, FileSharing, Registered);
      answer := Ok(());
    }

    /** Removes the leases of a component one by one. */
    method RevokeLeases(id: ComponentId)
      modifies this`leases
      ensures leases == WithoutComponent(old(leases), id)
    {
      var doomed := set l | l in leases && leases[l].component == id;
      ghost var all := doomed;
      while doomed != {}
        invariant doomed <= all
        invariant leases == old(leases) - (all - doomed)
        decreases doomed
      {
        var l :| l in doomed;
        leases := leases - {l};
        doomed := doomed - {l};
      }
      assert leases == old(leases) - all;
    }

    method RemoveApp(id: ComponentId) returns (answer: Result<(), Error>)
      modifies this, journal
      ensures var out := RemoveWebApp(old(Reg()), id);
        Reg() == Apply(old(Reg()), out.change) && journal.View() == Logged(old(journal.View()), out.note)
        && answer == out.answer
    {
      if id !in webApps {
        return Err(NotFound);
      }
      webApps := webApps - {id};
      RevokeLeases(id);
      journal.PushEvent(id, WebNavigation, Removed);
      answer := Ok(());
    }

    method RemoveShare(id: ComponentId) returns (answer: Result<(), Error>)
      modifies this, journal
      ensures var out := RemoveFileShare(old(Reg()), id);
        Reg() == Apply(old(Reg()), out.change) && journal.View() == Logged(old(journal.View()), out.note)
        && answer == out.answer
    {
      if id !in fileShares {
        return Err(NotFound);
      }
      fileShares := fileShares - {id};
      RevokeLeases(id);
      journal.PushEvent(id, FileSharing, Removed);
      answer := Ok(());
    }

    /**
     Acquires a replacement runtime for every lease of `id`.  One refusal fails the whole acquisition, and
     nothing in the manager has changed by then.
     */
    method AcquireReplacements(id: ComponentId, route: Route, provider: nat -> Option<nat>)
      returns (replacements: Option<map<nat, nat>>)
      ensures replacements.Some? <==> ProviderGrantsAll(Reg(), id, route, provider)
      ensures replacements.Some? ==>
        && replacements.value.Keys == LeasesOf(Reg(), id)
        && forall l :: l in replacements.value ==> replacements.value[l] == SerialOf(provider(l))
    {
      var todo := set l | l in leases && leases[l].component == id;
      ghost var all := todo;
      var granted: map<nat, nat> := map[];
      while todo != {}
        invariant todo <= all && granted.Keys == all - todo
        invariant forall l :: l in granted ==> granted[l] == SerialOf(provider(l)) && Grants1(route, provider(l))
        decreases todo
      {
        var l :| l in todo;
        var answer := provider(l);
        if !Grants1(route, answer) {
          assert l in leases && leases[l].component == id;
          return None;
        }
        granted := granted[l := SerialOf(answer)];
        todo := todo - {l};
      }
      forall l | l in leases && leases[l].component == id ensures Grants1(route, provider(l)) {
        assert l in granted;
      }
      replacements := Some(granted);
    }

    /**
     Installs the replacements in whatever order they come, and stops at the first whose lease is gone.  `grants`
     is the order: what was visited, and behind it whatever was not.
     */
    method InstallReplacements(route: Route, replacements: map<nat, nat>) returns (r: Result<(), Error>, ghost grants: Grants)
      modifies this`leases
      ensures GrantsCover(grants, replacements.Keys)
      ensures forall k :: 0 <= k < |grants| ==> grants[k].1 == replacements[grants[k].0]
      ensures leases == Install(old(leases), route, grants)
      ensures r == if InstallsAll(old(leases), grants) then Ok(()) else Err(InvalidLease)
    {
      var todo := replacements.Keys;
      grants := [];
      assert replacements.Keys - todo == {};
      while todo != {}
        invariant Installing(old(leases), route, replacements, todo, grants, leases)
        decreases todo
      {
        var l :| l in todo;
        if l !in leases {
          grants := StopAt(old(leases), route, grants, l, todo, replacements, leases);
          return Err(InvalidLease), grants;
        }
        VisitOne(old(leases), route, replacements, todo, grants, leases, l);
        grants := grants + [(l, replacements[l])];
        leases := leases[l := leases[l].(runtime := GrantFor(route, replacements[l]))];
        todo := todo - {l};
      }
      assert replacements.Keys - todo == replacements.Keys;
      r := Ok(());
    }

    /**
     The second critical section of `set_web_app_route`, after other threads may have dropped leases.  For some
     order of the replacements it does what `CommitRoute` says, also when it gives up halfway.
     */
    method FinishRouteChange(id: ComponentId, route: Route, replacements: map<nat, nat>)
      returns (answer: Result<nat, Error>, ghost grants: Grants)
      modifies this, journal
      ensures GrantsCover(grants, replacements.Keys)
      ensures forall k :: 0 <= k < |grants| ==> grants[k].1 == replacements[grants[k].0]
      ensures var out := CommitRoute(old(Reg()), id, route, grants);
        && Reg() == Apply(old(Reg()), out.change) && journal.View() == Logged(old(journal.View()), out.note)
        && answer == out.answer
    {
      if id !in webApps {
        nextGeneration := SaturatingNext(nextGeneration);
        grants := ListGrants(replacements.Keys, l => if l in replacements then replacements[l] else 0);
        return Err(NotFound), grants;
      }
      answer, grants := MoveAndInstall(id, route, replacements);
      if answer.Ok? { journal.PushEvent(id, WebNavigation, RouteChanged); }
    }

    method MoveAndInstall(id: ComponentId, route: Route, replacements: map<nat, nat>)
      returns (answer: Result<nat, Error>, ghost grants: Grants)
      requires id in webApps
      modifies this
      ensures GrantsCover(grants, replacements.Keys)
      ensures forall k :: 0 <= k < |grants| ==> grants[k].1 == replacements[grants[k].0]
      ensures Reg() == Apply(old(Reg()), Reroute(id, route, grants))
      ensures answer == if InstallsAll(old(leases), grants) then Ok(old(nextGeneration)) else Err(InvalidLease)
    {
      var generation := TakeGeneration();
      webApps := webApps[id := webApps[id].(route := route, generation := generation)];
      var installed;
      installed, grants := InstallReplacements(route, replacements);
      answer := if installed.Ok? then Ok(generation) else Err(InvalidLease);
    }

    /**
     `set_web_app_route` when no other call runs in between.  A refused runtime leaves routes, generations and
     runtimes as they were; otherwise every lease of the component moves to the new route together with it.
     */
    method SetRoute(id: ComponentId, route: Route, provider: nat -> Option<nat>) returns (answer: Result<nat, Error>)
      modifies this, journal
      ensures id !in old(webApps) ==> answer == Err(NotFound)
      ensures id in old(webApps) && old(webApps)[id].route == route ==> answer == Ok(old(webApps)[id].generation)
      ensures id in old(webApps) && old(webApps)[id].route != route ==>
        answer == if ProviderGrantsAll(old(Reg()), id, route, provider) then Ok(old(nextGeneration)) else Err(RuntimeUnavailable)
      ensures (id !in old(webApps) || old(webApps)[id].route == route || answer.Err?) ==>
        Reg() == old(Reg()) && journal.View() == old(journal.View())
      ensures id in old(webApps) && old(webApps)[id].route != route && answer.Ok? ==>
        && Reg() == Rerouted(old(Reg()), id, route, provider)
        && journal.View() == Push(old(journal.View()), id, WebNavigation, RouteChanged)
    {
      if id !in webApps {
        return Err(NotFound);
      }
      if webApps[id].route == route {
        return Ok(webApps[id].generation);
      }
      var replacements := AcquireReplacements(id, route, provider);
      if replacements.None? {
        return Err(RuntimeUnavailable);
      }
      ghost var grants;
      answer, grants := FinishRouteChange(id, route, replacements.value);
      CoveringGrantsInstallAll(old(Reg()), id, grants);
      InstallationOrderIsIrrelevant(old(Reg()), id, route, grants, provider);
    }

    method Acquire(id: ComponentId, purpose: Purpose, grant: Option<nat>, random: Option<nat>)
      returns (answer: Result<nat, Error>)
      modifies this, journal
      ensures var route := AcquireRoute(old(Reg()), id, purpose);
        if route.Err? then answer == Err(route.error) && Reg() == old(Reg()) && journal.View() == old(journal.View())
        else if !Grants1(route.value, grant)
        then answer == Err(RuntimeUnavailable) && Reg() == old(Reg()) && journal.View() == old(journal.View())
        else if random.None?
        then answer == Err(RandomUnavailable) && Reg() == old(Reg()) && journal.View() == old(journal.View())
        else
          var out := CommitLease(old(Reg()), id, purpose, route.value, SerialOf(grant), random.value);
          Reg() == Apply(old(Reg()), out.change) && journal.View() == Logged(old(journal.View()), out.note)
          && answer == out.answer
    {
      var route := RouteToAcquire(id, purpose);
      if route.Err? {
        return Err(route.error);
      }
      if !Grants1(route.value, grant) {
        return Err(RuntimeUnavailable);
      }
      if random.None? {
        return Err(RandomUnavailable);
      }
      answer := InsertLease(id, purpose, route.value, SerialOf(grant), random.value);
    }

    /** First critical section of `Acquire`. */
    method RouteToAcquire(id: ComponentId, purpose: Purpose) returns (route: Result<Route, Error>)
      ensures route == AcquireRoute(Reg(), id, purpose)
    {
      if |leases| >= MAX_LEASES {
        return Err(Capacity);
      }
      if purpose == WebNotification {
        if id !in webApps {
          return Err(NotFound);
        }
        if !webApps[id].notifications {
          return Err(NotificationsDisabled);
        }
      }
      var target := ResolveComponent(id, purpose);
      if target.None? {
        return Err(NotFound);
      }
      return Ok(target.value.0);
    }

    /** Second critical section of `Acquire`. */
    method InsertLease(id: ComponentId, purpose: Purpose, route: Route, serial: nat, digest: nat)
      returns (answer: Result<nat, Error>)
      modifies this, journal
      ensures var out := CommitLease(old(Reg()), id, purpose, route, serial, digest);
        && Reg() == Apply(old(Reg()), out.change) && journal.View() == Logged(old(journal.View()), out.note)
        && answer == out.answer
    {
      if |leases| >= MAX_LEASES || nextLease >= MAX_U64 {
        return Err(Capacity);
      }
      answer := Ok(nextLease);
      leases := leases[nextLease := Lease(id, purpose, digest, GrantFor(route, serial))];
      nextLease := nextLease + 1;
      journal.PushEvent(id, purpose, LeaseAcquired);
    }

    method ResolveComponent(id: ComponentId, purpose: Purpose) returns (target: Option<(Route, nat)>)
      ensures target == Resolve(Reg(), id, purpose)
    {
      match purpose {
        case LanProxy => target := None;
        case FileSharing => target := if id in fileShares then Some((FILE_SHARE_ROUTE, fileShares[id])) else None;
        case _ => target := if id in webApps then Some((webApps[id].route, webApps[id].generation)) else None;
      }
    }

    method DropLease(l: nat)
      modifies this, journal
      ensures var out := ReleaseLease(old(Reg()), l);
        Reg() == Apply(old(Reg()), out.change) && journal.View() == Logged(old(journal.View()), out.note)
      ensures l !in leases
    {
      if l in leases {
        var record := leases[l];
        leases := leases - {l};
        journal.PushEvent(record.component, record.purpose, LeaseReleased);
      }
    }

    method AuthorizeLease(l: nat, operation: Operation, up: bool) returns (answer: Result<Decision, Error>)
      modifies journal
      ensures var out := Authorize(Reg(), l, operation, up);
        journal.View() == Logged(old(journal.View()), out.note) && answer == out.answer
    {
      if l !in leases {
        return Err(InvalidLease);
      }
      var record := leases[l];
      if !OperationAllowed(record.purpose, operation) {
        return Err(WrongPurpose);
      }
      if record.runtime.Some? && !up {
        return Err(RuntimeUnavailable);
      }
      var target := ResolveComponent(record.component, record.purpose);
      if target.None? {
        return Err(InvalidLease);
      }
      if target.value.0 == Block {
        journal.PushEvent(record.component, record.purpose, OperationBlocked);
        return Err(Blocked);
      }
      answer := Ok(Decision(target.value.0, operation, target.value.1));
    }

    method AuthorizeNotificationLease(l: nat, origin: Option<Origin>, operation: Operation, up: bool)
      returns (answer: Result<Decision, Error>)
      modifies journal
      ensures var out := AuthorizeNotification(Reg(), l, origin, operation, up);
        journal.View() == Logged(old(journal.View()), out.note) && answer == out.answer
    {
      if !(operation.NotificationDelivery? || operation.NotificationAction?) {
        return Err(WrongPurpose);
      }
      if origin.None? {
        return Err(InvalidOrigin);
      }
      if l !in leases {
        return Err(InvalidLease);
      }
      var record := leases[l];
      if record.purpose != WebNotification {
        return Err(WrongPurpose);
      }
      if record.runtime.Some? && !up {
        return Err(RuntimeUnavailable);
      }
      if record.component !in webApps {
        return Err(InvalidLease);
      }
      var app := webApps[record.component];
      if app.origin != origin.value {
        journal.PushEvent(record.component, WebNotification, NotificationDenied);
        return Err(OriginMismatch);
      }
      if app.route == Block {
        journal.PushEvent(record.component, WebNotification, NotificationDenied);
        return Err(Blocked);
      }
      journal.PushEvent(record.component, WebNotification, NotificationAllowed);
      answer := Ok(Decision(app.route, operation, app.generation));
    }

    /** `digest` is the digest of the supplied credential, `None` when it does not have 32 bytes. */
    method AuthorizeCredential(l: nat, digest: Option<nat>, operation: Operation, up: bool)
      returns (answer: Result<Decision, Error>)
      modifies journal
      ensures var held := digest.Some? && CredentialMatches(Reg(), l, digest.value);
        && (held ==> answer == Authorize(Reg(), l, operation, up).answer
                     && journal.View() == Logged(old(journal.View()), Authorize(Reg(), l, operation, up).note))
        && (!held ==> answer == Err(InvalidLease) && journal.View() == old(journal.View()))
    {
      if digest.None? || l !in leases || leases[l].digest != digest.value {
        return Err(InvalidLease);
      }
      answer := AuthorizeLease(l, operation, up);
    }
  }
}
