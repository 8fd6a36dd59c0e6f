/**
 Authentication of one LAN or loopback listener, interleaved with the calls that invalidate it.

 A credential check is two atomic actions: load the generation, then lock and compare.  An invalidation is
 two as well: advance the generation, then take the credentials.  Sessions and invalidations run on
 different threads and may interleave at every one of these points; a session may also be cancelled or time
 out anywhere, and sessions may still be accepted while the listener is being closed.
 */
module LanSessions {
  import opened Common

  datatype Credentials = Credentials(username: seq<byte>, password: seq<byte>)

  /** `AuthState`.  `anonymous` is fixed when the listener is built. */
  datatype Auth = Auth(credentials: Option<Credentials>, generation: nat, anonymous: bool)

  datatype SessionPc =
    | Handshaking                          // reading the greeting or the request head
    | Presented(given: Credentials)        // about to load the generation
    | Comparing(given: Credentials, loaded: nat)   // the generation that was loaded was right; about to compare
    | Authorized                           // about to dial upstream
    | Dialled
    | Closed

  /** The two halves of `AuthState::invalidate`. */
  datatype InvalidatePc = Advancing | Taking | Invalidated

  /** What let a session in: the credentials it proved, if it had to, and the generation loaded for that check. */
  datatype Proof = Proof(given: Option<Credentials>, loaded: nat)

  /**
   `origin` is the listener as it was built; sessions carry its generation.  `proofs` is history: what let each
   session in.
   */
  datatype Listener = Listener(
    origin: Auth,
    auth: Auth,
    sessions: map<nat, SessionPc>,
    invalidations: map<nat, InvalidatePc>,
    proofs: map<nat, Proof>)

  datatype Action =
    | Accept(s: nat)
    | AskAnonymously(s: nat)               // the anonymity test of the HTTP handshake
    | Present(s: nat, given: Credentials)
    | LoadGeneration(s: nat)
    | Compare(s: nat)
    | Dial(s: nat)
    | Abort(s: nat)                        // cancelled, timed out, malformed
    | Invalidate(t: nat)                   // stop or network_changed begins
    | Advance(t: nat)
    | Take(t: nat)

  /** `LanCredentials::matches`. */
  predicate Matches(held: Option<Credentials>, given: Credentials) {
    held == Some(given)
  }

  predicate At(l: Listener, s: nat, pc: SessionPc) {
    s in l.sessions && l.sessions[s] == pc
  }

  predicate Can(l: Listener, a: Action) {
    match a
    case Accept(s) => s !in l.sessions
    case AskAnonymously(s) => At(l, s, Handshaking)
    case Present(s, _) => At(l, s, Handshaking)
    case LoadGeneration(s) => s in l.sessions && l.sessions[s].Presented?
    case Compare(s) => s in l.sessions && l.sessions[s].Comparing?
    case Dial(s) => At(l, s, Authorized)
    case Abort(s) => s in l.sessions
    case Invalidate(t) => t !in l.invalidations
    case Advance(t) => t in l.invalidations && l.invalidations[t].Advancing?
    case Take(t) => t in l.invalidations && l.invalidations[t].Taking?
  }

  function Move(l: Listener, s: nat, pc: SessionPc): Listener {
    l.(sessions := l.sessions[s := pc])
  }

  function Admit(l: Listener, s: nat, proof: Proof): Listener {
    l.(sessions := l.sessions[s := Authorized], proofs := l.proofs[s := proof])
  }

  function Do(l: Listener, a: Action): Listener
    requires Can(l, a)
  {
    match a
    case Accept(s) => Move(l, s, Handshaking)
    case AskAnonymously(s) =>
      if l.auth.anonymous && l.auth.generation == l.origin.generation then Admit(l, s, Proof(None, l.auth.generation)) else l
    case Present(s, given) => Move(l, s, Presented(given))
    case LoadGeneration(s) =>
      Move(l, s, if l.auth.generation == l.origin.generation then Comparing(l.sessions[s].given, l.auth.generation) else Closed)
    case Compare(s) =>
      if Matches(l.auth.credentials, l.sessions[s].given)
      then Admit(l, s, Proof(Some(l.sessions[s].given), l.sessions[s].loaded)) else Move(l, s, Closed)
    case Dial(s) => Move(l, s, Dialled)
    case Abort(s) => Move(l, s, Closed)
    case Invalidate(t) => l.(invalidations := l.invalidations[t := Advancing])
    case Advance(t) =>
      l.(auth := l.auth.(generation := l.auth.generation + 1), invalidations := l.invalidations[t := Taking])
    case Take(t) =>
      l.(auth := l.auth.(credentials := None), invalidations := l.invalidations[t := Invalidated])
  }

  function Built(auth: Auth): Listener {
    Listener(auth, auth, map[], map[], map[])
  }

  ghost predicate Follows(l: Listener, l': Listener) {
    exists a :: Can(l, a) && l' == Do(l, a)
  }

  ghost predicate FollowsAt(run: seq<Listener>, i: nat)
    requires 0 < i < |run|
  {
    Follows(run[i - 1], run[i])
  }

  ghost predicate IsRun(run: seq<Listener>, auth: Auth) {
    && |run| > 0
    && run[0] == Built(auth)
    && forall i :: 0 < i < |run| ==> FollowsAt(run, i)
  }

  /** The session has got past authentication. */
  predicate Admitted(l: Listener, s: nat) {
    s in l.sessions && (l.sessions[s].Authorized? || l.sessions[s].Dialled?)
  }

  /** What counts as proof at a listener built with `origin`. */
  predicate IsProof(origin: Auth, proof: Proof) {
    && proof.loaded == origin.generation
    && match proof.given
       case None => origin.anonymous
       case Some(given) => origin.credentials == Some(given)
  }

  /** The credentials are the original ones or gone; the anonymity never changes; every proof is genuine. */
  ghost predicate Inv(l: Listener) {
    && (l.auth.credentials == l.origin.credentials || l.auth.credentials == None)
    && l.auth.anonymous == l.origin.anonymous
    && l.origin.generation <= l.auth.generation
    && (forall s :: s in l.proofs ==> IsProof(l.origin, l.proofs[s]))
    && (forall s :: Admitted(l, s) ==> s in l.proofs)
    && (forall s :: s in l.sessions && l.sessions[s].Comparing? ==> l.sessions[s].loaded == l.origin.generation)
    && (forall t :: t in l.invalidations && !l.invalidations[t].Advancing? ==> l.origin.generation < l.auth.generation)
    && (forall t :: t in l.invalidations && l.invalidations[t].Invalidated? ==> l.auth.credentials == None)
  }

  /** Where a session stands once the generation has moved on without it. */
  predicate TooLate(l: Listener, s: nat) {
    && l.origin.generation < l.auth.generation
    && !Admitted(l, s)
    && (s in l.sessions && l.sessions[s].Comparing? ==> l.auth.credentials == None)
  }

  lemma DoKeepsInv(l: Listener, a: Action)
    requires Inv(l) && Can(l, a)
    ensures Inv(Do(l, a)) && Do(l, a).origin == l.origin
  {}

  lemma TooLateStaysTooLate(l: Listener, a: Action, s: nat)
    requires Inv(l) && Can(l, a) && TooLate(l, s)
    ensures TooLate(Do(l, a), s)
  {}

  lemma {:induction false} ReachableInv(run: seq<Listener>, auth: Auth, j: nat)
    requires IsRun(run, auth) && j < |run|
    ensures Inv(run[j]) && run[j].origin == auth
  {
    if j > 0 {
      ReachableInv(run, auth, j - 1);
      assert FollowsAt(run, j);
      var a :| Can(run[j - 1], a) && run[j] == Do(run[j - 1], a);
      DoKeepsInv(run[j - 1], a);
    }
  }

  /**
   Every upstream dial follows a genuine proof: in every interleaving a session that has dialled has either
   proved exactly the credentials the listener was built with, or the listener was built anonymous, and the
   generation loaded for that check was the session's own.
   */
  lemma DialsAreAuthenticated(run: seq<Listener>, auth: Auth, j: nat, s: nat)
    requires IsRun(run, auth) && j < |run| && Admitted(run[j], s)
    ensures s in run[j].proofs && IsProof(auth, run[j].proofs[s])
    ensures run[j].proofs[s].loaded == auth.generation
    ensures !auth.anonymous ==> auth.credentials.Some? && run[j].proofs[s].given == auth.credentials
  {
    ReachableInv(run, auth, j);
  }

  lemma {:induction false} TooLateForever(run: seq<Listener>, auth: Auth, i: nat, j: nat, s: nat)
    requires IsRun(run, auth) && i <= j < |run| && TooLate(run[i], s)
    ensures TooLate(run[j], s)
    decreases j - i
  {
    if i < j {
      TooLateForever(run, auth, i, j - 1, s);
      ReachableInv(run, auth, j - 1);
      assert FollowsAt(run, j);
      var a :| Can(run[j - 1], a) && run[j] == Do(run[j - 1], a);
      TooLateStaysTooLate(run[j - 1], a, s);
    }
  }

  /**
   Invalidation is final for handshakes in flight: once any `stop` or `network_changed` has run its invalidation
   to the end, a session that was not admitted by then never dials, not even if it had already passed the
   generation check or presents the right password afterwards.
   */
  lemma InvalidationStopsHandshakes(run: seq<Listener>, auth: Auth, i: nat, j: nat, t: nat, s: nat)
    requires IsRun(run, auth) && i <= j < |run|
    requires t in run[i].invalidations && run[i].invalidations[t].Invalidated? && !Admitted(run[i], s)
    ensures !Admitted(run[j], s)
  {
    ReachableInv(run, auth, i);
    TooLateForever(run, auth, i, j, s);
  }

  /** Already the first half of an invalidation stops every check that has not yet loaded the generation. */
  lemma AdvanceStopsLaterChecks(run: seq<Listener>, auth: Auth, i: nat, j: nat, t: nat, s: nat)
    requires IsRun(run, auth) && i <= j < |run|
    requires t in run[i].invalidations && !run[i].invalidations[t].Advancing?
    requires !Admitted(run[i], s) && !(s in run[i].sessions && run[i].sessions[s].Comparing?)
    ensures !Admitted(run[j], s)
  {
    ReachableInv(run, auth, i);
    TooLateForever(run, auth, i, j, s);
  }

  // ---------------------------------------------------------------------------------------
  // What an undisturbed session and an undisturbed invalidation come to
  // ---------------------------------------------------------------------------------------

  /** The actions of a session up to the load of the generation can follow each other. */
  predicate CanPresent(l: Listener, s: nat, given: Credentials) {
    && Can(l, Accept(s))
    && Can(Do(l, Accept(s)), Present(s, given))
    && Can(Do(Do(l, Accept(s)), Present(s, given)), LoadGeneration(s))
  }

  function Loaded(l: Listener, s: nat, given: Credentials): Listener
    requires CanPresent(l, s, given)
  {
    Do(Do(Do(l, Accept(s)), Present(s, given)), LoadGeneration(s))
  }

  /**
   A new session with nobody in its way dials if and only if the listener has not been invalidated and still holds
   exactly the credentials the session presents; otherwise it is closed.
   */
  lemma UndisturbedSessionDialsIff(l: Listener, s: nat, given: Credentials)
    requires Inv(l) && s !in l.sessions
    ensures CanPresent(l, s, given)
    ensures var loaded := Loaded(l, s, given);
      if l.auth.generation != l.origin.generation then At(loaded, s, Closed)
      else
        && Can(loaded, Compare(s))
        && var compared := Do(loaded, Compare(s));
           if l.auth.credentials == Some(given) then Can(compared, Dial(s)) && At(Do(compared, Dial(s)), s, Dialled)
           else At(compared, s, Closed)
  {}

  /** A session that asks to go without credentials may dial exactly at a listener built for that; else it may still present some. */
  lemma AnonymousSessionDialsIff(l: Listener, s: nat)
    requires Inv(l) && s !in l.sessions
    ensures Can(l, Accept(s)) && Can(Do(l, Accept(s)), AskAnonymously(s))
    ensures var asked := Do(Do(l, Accept(s)), AskAnonymously(s));
      if l.origin.anonymous && l.auth.generation == l.origin.generation then Can(asked, Dial(s)) && At(Do(asked, Dial(s)), s, Dialled)
      else At(asked, s, Handshaking)
  {}

  /** An invalidation runs through: the generation has moved on by one and the credentials are gone. */
  lemma UndisturbedInvalidationEnds(l: Listener, t: nat)
    requires t !in l.invalidations
    ensures Can(l, Invalidate(t)) && Can(Do(l, Invalidate(t)), Advance(t))
    ensures Can(Do(Do(l, Invalidate(t)), Advance(t)), Take(t))
    ensures var end := Do(Do(Do(l, Invalidate(t)), Advance(t)), Take(t));
      && end.auth == l.auth.(generation := l.auth.generation + 1, credentials := None)
      && t in end.invalidations && end.invalidations[t].Invalidated? && end.sessions == l.sessions
  {}

  /** A session may be cut off wherever it stands, and nobody else notices. */
  lemma AbortClosesOneSession(l: Listener, s: nat)
    requires s in l.sessions
    ensures Can(l, Abort(s)) && Do(l, Abort(s)) == l.(sessions := l.sessions[s := Closed])
  {}
}
