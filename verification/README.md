# Verified models of foxhole-core

A Dafny project beside the foxhole-core repository. It models the parts of the core where several steps, threads or
documents have to fit together, and proves what they keep: on every input, in every reachable state, over every run.
Functions specify, methods and classes follow the source's loops and in-place updates and are proved equal to those
functions, and lemmas state what the functions mean.

| area | files |
|---|---|
| DNS-continuation hand-over between engines: pool, registry, stop, force-kill, reaper, as interleaving threads | `DnsContinuationPool.dfy`, `DnsHandover.dfy`, `HandoverCalls.dfy` |
| Component manager: registrations, leases, route changes, policy generations, event journal | `ComponentJournal.dfy`, `ComponentRegistry.dfy`, `ComponentRuns.dfy`, `ComponentAnswers.dfy`, `ComponentManager.dfy` |
| Dialer: order of the candidates and the race between them | `CandidateOrder.dfy`, `CandidateRace.dfy`, `RaceFairness.dfy`, `RaceReach.dfy` |
| LAN and loopback proxies: bindings, credentials, sessions, identities, request heads | `LanProxy.dfy`, `LanStarts.dfy`, `LanSessions.dfy`, `LanHead.dfy` |
| The fork check: reversing a patch over vendored sources | `UnifiedDiff.dfy`, `ReversePatch.dfy`, `PatchGrammar.dfy`, `PatchMeaning.dfy`, `SourceText.dfy`, `ForkOrigin.dfy` |
| Compatibility of capability documents | `AbiCompat.dfy`, `AbiReading.dfy`, `AbiReport.dfy`, `AbiChains.dfy` |
| DNS messages, SOCKS5 addresses, bootstrap queries, the UDP relay | `DnsNames.dfy`, `DnsCompression.dfy`, `DnsMessages.dfy`, `DnsForms.dfy`, `Bootstrap.dfy`, `Socks5.dfy`, `UdpRelay.dfy`, `RelayAnswers.dfy`, `RelayRuns.dfy` |

`Common.dfy` holds shared datatypes. `dafny verify dfyconfig.toml` checks everything.

How things are represented:

- Critical sections are the atoms of concurrency. A thread is a program counter, a run is any interleaving, and the
  theorems quantify over all runs. Fields named as history in the comments are never read by a transition.
- A run may also go on where the code would have returned with an input or output error; the theorems cover those
  runs too.
- Answers of the outside (clocks, providers, sockets, the resolver, randomness) are parameters, so every theorem holds
  for every answer.
- Digests are injective values, or a function assumed free of collisions on the files at hand where a lemma says so.
- Error returns are `Result`, `Option` or an error datatype; `u64` saturation and `u8`/`u16` ranges are explicit.

Properties that do not hold of the code, with the exact condition under which they do:

- A route change leaves every lease on the runtime kind its route needs, in every order of the hash map it walks over,
  if and only if the two routes need the same kind, or none of the leases it listed was dropped between the two critical
  sections, or all of them were (`RouteChangeIsSafeIff`; the run in `DisturbedRouteChangeDisagrees` ends with a lease
  that authorizes Tor on a VPN runtime).
- A network change keeps the set of proxy identities exact if and only if the handle is not stopped
  (`NetworkChangeKeepsIdentityIff`; the run in `RevivingRun` ends with a proxy under an identity that counts as free).
- Every candidate of a race is launched, whatever the attempts do, if and only if the time left when the addresses are
  there exceeds one stagger for each candidate but the first (`ReachesAllIff`, `CallReachesAllIff`).
- A patch that reverses to the upstream text also applies to that text forwards if and only if, on the vendored lines,
  every hunk's old side is proper together with the lines that stay around it (`UpstreamPatchesForwardIff`,
  `UnterminatedPatchIsAccepted`). Line feeds throughout are enough.
- A name written out in labels is read if and only if it takes at most 256 octets, one more than section 2.3.4 of
  RFC 1035 allows: the reader does not count the root's length octet. A message that asks for a name of 256 octets is
  allowed (`EncodedLabelsAreReadIff`, `LongestNameIsRead`, `BareQuestionAllowedIff`).
- A policy generation names one policy of one component over every run if it is below the largest value of the counter,
  and generations of a component never go back. Two generations issued in a row differ if and only if the counter was
  below that value before the first (`GenerationsNamePolicies`, `NextGenerationsDifferIff`,
  `SaturatedGenerationsCollide`).
- A document has no problem with itself if and only if its repeated ids are harmless, that is, every entry is
  compatible with the last of its id (`ComparisonIsReflexiveIff`, `RepeatedIdsAreNotReflexive`).
- After a clean step to a document with distinct names and distinct string or number ids, every further clean step
  chains with it if and only if the lists kept their shape over it (`ComparisonChainsIff`, `MixedListsDoNotChain`).

## Model

| member | source | states |
|---|---|---|
| `ContinuationPool.DnsContinuationPool.RetainLease` | crates/foxcore-android/src/dns_continuation.rs:64-82 | One lease at a time; a refusal changes nothing, a success issues the next token, never zero, and the counter never comes back to it |
| `ContinuationPool.TokenNamesItsContinuation` | crates/foxcore-android/src/dns_continuation.rs:64-116 | From the moment it is issued a token alone names the continuation that was retained, until it is released or its owner revoked; other tokens and owners do not take it away, and nothing else can be retained meanwhile |
| `ContinuationPool.DnsContinuationPool.ReleaseToken` | crates/foxcore-android/src/dns_continuation.rs:100-105 | Takes the lease out exactly when the token is its own, else changes nothing |
| `ContinuationPool.DnsContinuationPool.RevokeLeasesOf` | crates/foxcore-android/src/dns_continuation.rs:107-116 | Takes the lease out exactly when the owner holds it; afterwards the owner holds none |
| `DnsHandover.DecideStep` | crates/foxcore-android/src/lib.rs:1759-1838 | Whatever step a thread of retain, release, start, stop, reaper or force-kill takes, its effect is one the shared state allows and its own facts hold afterwards |
| `DnsHandover.EffectKeeps` | crates/foxcore-android/src/lib.rs:520-537 | Every allowed effect keeps the invariant on pool, registry, workers and history, and moves the state forward only |
| `DnsHandover.StepIsDisciplined` | crates/foxcore-android/src/lib.rs:370-414 | The pool changes only under its lock, only the thread that drew a handle inserts it, a pending handle was drawn by its own thread, and no step holds a lock it did not hold or wait for |
| `DnsHandover.OthersKeepFacts` | crates/foxcore-android/src/lib.rs:1808-1832 | What one thread does leaves every other thread's facts standing |
| `DnsHandover.NextKeepsInv` | crates/foxcore-android/src/lib.rs:682-775 | Every step of every thread keeps the invariant of the whole system |
| `DnsHandover.ReachableInv` | crates/foxcore-android/src/lib.rs:1759-1838 | The invariant holds in every state of every run |
| `DnsHandover.RunMoves` | crates/foxcore-android/src/lib.rs:2277-2284 | Any two states of a run are ordered: tokens, handles, fences and publications only move on |
| `DnsHandover.ForceKillIsFinal` | crates/foxcore-android/src/lib.rs:754-770 | After a force-kill that found a handle has revoked, for ever: the handle does not resolve, owns no lease, and no successor is published from a token it owned |
| `DnsHandover.SuccessorsNeverOverlap` | crates/foxcore-android/src/lib.rs:1808-1832 | Whenever a successor is published, its predecessor's worker has exited |
| `DnsHandover.RevocationIsFinal` | crates/foxcore-runtime/src/dns_continuation.rs:71-100 | A revoked continuation is never ready again, whatever a concurrent stop does |
| `DnsHandover.SpentTokensStaySpent` | crates/foxcore-android/src/dns_continuation.rs:64-116 | A token that was issued and is gone never names a lease again |
| `DnsHandover.RemovedHandlesStayRemoved` | crates/foxcore-android/src/lib.rs:2277-2284 | A removed handle never resolves again, to any engine |
| `DnsHandover.RegistryHolderNeverWaits` | crates/foxcore-android/src/lib.rs:375-391 | Locks nest pool then registry: whoever holds the registry waits for nothing |
| `DnsHandover.SomeCallCanStep` | crates/foxcore-android/src/lib.rs:1808-1832 | No deadlock: while a call is unfinished, some unfinished call can step |
| `DnsHandover.EnabledCanStep` | crates/foxcore-android/src/lib.rs:2231-2260 | Only locks ever block a reachable call |
| `HandoverCalls.ForceKillEndsTheEngine` | crates/foxcore-android/src/lib.rs:757-764 | Over every run: once a force-kill that found an engine is over, for ever after the engine is not running, its thread is taken, its continuation is revoked, and the handle neither resolves nor owns a lease |
| `HandoverCalls.ForceKillAfterRemoval` | crates/foxcore-android/src/lib.rs:757-764 | The same from the moment the handle is out of the registry and the pool is held |
| `HandoverCalls.ForceKillRevokesTheLease` | crates/foxcore-android/src/lib.rs:532-537 | A force-kill of a handle that owned a lease, registered or not, revokes the leased continuation for ever |
| `HandoverCalls.StopEndsTheEngine` | crates/foxcore-android/src/lib.rs:682-720 | Once a stop that found an engine is over, reaper included, the engine has been told to stop and the handle is gone, for ever |
| `HandoverCalls.JoinedStopHandsOver` | crates/foxcore-runtime/src/worker.rs:55-101 | A stop that took the worker's thread leaves it stopped and its continuation ready for import, unless a force-kill revoked it |
| `HandoverCalls.StopTriesFortyOneTimes` | crates/foxcore-android/src/lib.rs:2225-2258 | While the engine has not stopped, a stop goes on until it has waited once and forty times more |
| `HandoverCalls.StopCanJoin` | crates/foxcore-runtime/src/worker.rs:85-93 | A stop that waits for a worker whose thread has ended can join it |
| `HandoverCalls.StartsLeaveNoEngineBehind` | crates/foxcore-android/src/lib.rs:1808-1836 | Once a start is over, the engine it created was given a handle or told to stop |
| `HandoverCalls.PlainStartIsPublished` | crates/foxcore-android/src/lib.rs:1833-1836 | A start without a continuation gives its engine a handle |
| `HandoverCalls.StartReachesTheImport` | crates/foxcore-android/src/lib.rs:520-530 | A start whose token names a ready continuation gets to importing exactly that one |
| `HandoverCalls.ImportStartsIff` | crates/foxcore-runtime/src/dns_continuation.rs:78-89 | There an engine starts exactly if the continuation is still ready and the environment lets it |
| `HandoverCalls.RetiringJoins` | crates/foxcore-runtime/src/dns_continuation.rs:43-47 | A successor that is not published, and whose worker has ended, is joined |
| `HandoverCalls.StartedSuccessorIsPublished` | crates/foxcore-android/src/lib.rs:1811-1821 | A started successor is published under its token if that stays in the pool and the continuation stays ready |
| `HandoverCalls.RetainPutsALeaseInThePool` | crates/foxcore-android/src/lib.rs:375-392 | A retain of a handle that stands for an engine throughout, with an empty pool, ends with the next token in the pool, owned by the handle and naming the engine |
| `HandoverCalls.LeasesNameTheirOwnersEngine` | crates/foxcore-android/src/lib.rs:380-386 | Over every run every lease names the engine its owner was registered for |
| `HandoverCalls.ReleaseIsFinal` | crates/foxcore-android/src/lib.rs:402-406 | After a release the token never names a lease again |
| `HandoverCalls.StepsRunOut` | crates/foxcore-android/src/lib.rs:370-778 | Every step of every call brings it nearer to its end, unless no handle number is left |
| `ComponentJournal.EventJournal.PushEvent` | crates/foxcore-component/src/lib.rs:1044-1084 | Numbers the event, drops the oldest of a full queue and counts the drop, delivers to the recorder |
| `ComponentJournal.EventJournal.DrainEvents` | crates/foxcore-component/src/lib.rs:913-928 | Hands out the oldest events up to the limit and the drops not yet reported |
| `ComponentJournal.EventsAreConserved` | crates/foxcore-component/src/lib.rs:913-928 | Pushed = drained + drops reported + drops pending + queued, and queues are gap-free and at most 256 long, for every sequence of operations short of saturation |
| `ComponentJournal.DrainContinuesTheSequence` | crates/foxcore-component/src/lib.rs:913-928 | A drain starts at 1 + everything drained before + all drops reported, this drain's included |
| `ComponentJournal.RecorderSeesEveryEvent` | crates/foxcore-component/src/lib.rs:904-911 | A recorder that stays attached gets each event once and in order, also those dropped from the queue |
| `ComponentJournal.QueueIsTheNewest` | crates/foxcore-component/src/lib.rs:1044-1080 | A queue holds the newest of what was pushed, with the same channels and kinds in the same order |
| `ComponentJournal.RecorderIsTheLastAttached` | crates/foxcore-component/src/lib.rs:904-911 | After every sequence of operations the recorder is the one attached last and not detached since |
| `ComponentJournal.RecorderSeesWhatWasPushed` | crates/foxcore-component/src/lib.rs:1044-1080 | An attached recorder is told exactly what is pushed, with the same channels and kinds in the same order |
| `ComponentRegistry.CallKeepsInv` | crates/foxcore-component/src/lib.rs:392-615 | Every critical section keeps the registries disjoint, the bounds, the generations and each lease's component registered, and lets the registry only evolve |
| `ComponentRegistry.InstallAt` | crates/foxcore-component/src/lib.rs:541-547 | A lease gets its new runtime exactly when the installation loop reaches it |
| `ComponentRegistry.InstallElsewhere` | crates/foxcore-component/src/lib.rs:541-547 | A lease that the loop does not name keeps its runtime |
| `ComponentRegistry.RouteChangeIsSafeIff` | crates/foxcore-component/src/lib.rs:508-558 | A route change ends in agreement in every order of its hash map iff both routes need the same kind, or none of the leases it listed was dropped meanwhile, or all were |
| `ComponentRegistry.RouteChangeAgreesIff` | crates/foxcore-component/src/lib.rs:541-547 | In a given order: iff both routes need the same kind or no survivor comes after a dropped lease |
| `ComponentRegistry.UndisturbedCallKeepsAgreement` | crates/foxcore-component/src/lib.rs:508-615 | Every other call, and a route change whose leases all survive, keeps agreement |
| `ComponentRuns.ReachableInv` | crates/foxcore-component/src/lib.rs:392-615 | The invariant holds in every state of every interleaving |
| `ComponentRuns.RunEvolves` | crates/foxcore-component/src/lib.rs:1038-1042 | Lease ids and generations are never reused along a run, and a lease keeps its holder |
| `ComponentRuns.StaleLeasesNeverAuthorize` | crates/foxcore-component/src/lib.rs:346-365 | A dropped or revoked lease never authorizes again, also after its component id is registered anew as either kind |
| `ComponentRuns.CredentialAnswersForItsHolder` | crates/foxcore-component/src/lib.rs:718-777 | The gap between the two locks is harmless: the answer is for the holder whose credential was checked, or a refusal |
| `ComponentRuns.GenerationsNamePolicies` | crates/foxcore-component/src/lib.rs:1038-1042 | Over every run one generation below the largest is one policy of one component, and generations of a component never go back |
| `ComponentRuns.DecisionsAreThePolicy` | crates/foxcore-component/src/lib.rs:653-777 | A decision of either authorizing call is the policy in force for the lease's component |
| `ComponentRuns.GenerationsDetermineDecisions` | crates/foxcore-component/src/lib.rs:617-713 | Two decisions of a run, by either call, with one generation below the largest concern the same component and route, and decisions about a component never go back |
| `ComponentRuns.NextGenerationsDifferIff` | crates/foxcore-component/src/lib.rs:1038-1042 | Two policies issued one after the other carry different generations iff the counter was below its largest value before the first |
| `ComponentRuns.SaturatedGenerationsCollide` | crates/foxcore-component/src/lib.rs:1038-1042 | Two components registered with the counter at its largest value get the same generation |
| `ComponentRuns.UndisturbedRunsAgree` | crates/foxcore-component/src/lib.rs:508-615 | In every undisturbed run each lease is backed by the runtime kind its current route needs |
| `ComponentRuns.DecisionsAreBacked` | crates/foxcore-component/src/lib.rs:989-1027 | Vpn and Tor are decided only with an available runtime of that kind, Block never, and file shares only over Tor |
| `ComponentRuns.NotificationsAreBacked` | crates/foxcore-component/src/lib.rs:653-713 | The same for notifications, which also answer only to the registered origin |
| `ComponentRuns.DisturbedRouteChangeDisagrees` | crates/foxcore-component/src/lib.rs:514-555 | A run of eight calls after which a lease authorizes Tor while it holds a VPN runtime |
| `ComponentRuns.JournalIsItsOperations` | crates/foxcore-component/src/lib.rs:1044-1084 | The manager's journal is what its calls logged, in order |
| `ComponentRuns.ManagerEventsAreConserved` | crates/foxcore-component/src/lib.rs:1044-1084 | Conservation of events over every run of the manager |
| `ComponentAnswers.AuthorizationIsExact` | crates/foxcore-component/src/lib.rs:617-651 | For every registry: authorize says yes iff the lease is live, its runtime is up and the operation belongs to its purpose and to an unblocked component of the right kind; the decision carries the operation, and the component's route and generation |
| `ComponentAnswers.RefusalsAreExact` | crates/foxcore-component/src/lib.rs:965-1000 | Which error it answers otherwise, in which order |
| `ComponentAnswers.NotificationIsExact` | crates/foxcore-component/src/lib.rs:653-713 | authorize_notification says yes to the same leases, for the app's own origin only |
| `ComponentAnswers.NotificationsNeedConsent` | crates/foxcore-component/src/lib.rs:571-581 | Over every run a notification is authorized, by either call, only for an app registered with notifications on |
| `ComponentAnswers.AcquireBeginsIff` | crates/foxcore-component/src/lib.rs:567-584 | Exactly for which components and purposes acquire gets past its first look |
| `ComponentAnswers.AcquireGivesWhatWasAsked` | crates/foxcore-component/src/lib.rs:560-615 | Over every run, whatever ran in between, an acquire adds one new lease for the component, purpose and credential asked for, on the runtime its route needs now, or changes nothing because there is no room |
| `ComponentAnswers.CredentialIsTheOneHandedOut` | crates/foxcore-component/src/lib.rs:718-738 | Over every run, as long as a lease lives, exactly the credential handed out with it matches |
| `ComponentAnswers.ControlIsGivenBack` | crates/foxcore-component/src/lib.rs:508-615 | The control mutex is given back at the end of what took it |
| `ComponentAnswers.AppRegistrationIsExact` | crates/foxcore-component/src/lib.rs:392-422 | A registration succeeds exactly for a new component with a good origin and room, and records what was given |
| `ComponentAnswers.ShareRegistrationIsExact` | crates/foxcore-component/src/lib.rs:424-450 | The same for file shares |
| `ComponentAnswers.RemovalIsExact` | crates/foxcore-component/src/lib.rs:452-506 | A removal takes the component with its leases and nothing else |
| `ComponentAnswers.RouteChangeBeginsIff` | crates/foxcore-component/src/lib.rs:513-531 | A route change begins exactly for an app on another route, and lists its leases |
| `ComponentAnswers.RouteChangeIsExact` | crates/foxcore-component/src/lib.rs:536-549 | Its second half changes the app's route and generation, and no lease's holder |
| `ComponentAnswers.DropIsExact` | crates/foxcore-component/src/lib.rs:346-365 | Dropping a lease takes away that lease only |
| `ComponentAnswers.EventsTellWhatChanged` | crates/foxcore-component/src/lib.rs:392-506 | A component is logged as registered or removed exactly when it comes or goes |
| `ComponentAnswers.EventsTellOfLeases` | crates/foxcore-component/src/lib.rs:346-365 | A lease is logged as acquired or released exactly when it comes or is dropped |
| `ComponentAnswers.EventsTellOfRoutes` | crates/foxcore-component/src/lib.rs:541-555 | A route change is logged exactly when it found every lease it had listed |
| `ComponentAnswers.EventsTellOfRefusals` | crates/foxcore-component/src/lib.rs:641-712 | Exactly which answers are logged as blocked, denied or allowed |
| `ComponentManagement.InstallationOrderIsIrrelevant` | crates/foxcore-component/src/lib.rs:530-547 | With every lease still there, any order of the replacements installs the same runtimes |
| `ComponentManagement.ComponentManager.RegisterApp` | crates/foxcore-component/src/lib.rs:392-422 | The new registry is the specified one, or nothing changed and the error says why |
| `ComponentManagement.ComponentManager.RegisterShare` | crates/foxcore-component/src/lib.rs:424-450 | The same for file shares |
| `ComponentManagement.ComponentManager.RevokeLeases` | crates/foxcore-component/src/lib.rs:459-467 | Exactly the leases of the component are gone |
| `ComponentManagement.ComponentManager.RemoveApp` | crates/foxcore-component/src/lib.rs:452-478 | The app and its leases are gone, or nothing changed |
| `ComponentManagement.ComponentManager.RemoveShare` | crates/foxcore-component/src/lib.rs:480-506 | The share and its leases are gone, or nothing changed |
| `ComponentManagement.ComponentManager.AcquireReplacements` | crates/foxcore-component/src/lib.rs:530-533 | All replacements or none; a failed acquisition leaves registry and journal as they were |
| `ComponentManagement.ComponentManager.InstallReplacements` | crates/foxcore-component/src/lib.rs:540-547 | For some order of the replacements the loop leaves exactly what installing in that order leaves, and fails exactly when a lease is gone, at the first such |
| `ComponentManagement.ComponentManager.FinishRouteChange` | crates/foxcore-component/src/lib.rs:534-557 | The second critical section after any drops: registry, journal and answer are those of the specified outcome for some order, also when it gives up halfway |
| `ComponentManagement.ComponentManager.SetRoute` | crates/foxcore-component/src/lib.rs:508-558 | The whole route change when no lease is dropped meanwhile: every lease of the app gets its replacement; an unknown app, the same route or a failed acquisition leaves routes, generations, runtimes and journal unchanged |
| `ComponentManagement.ComponentManager.Acquire` | crates/foxcore-component/src/lib.rs:560-615 | Refusals change nothing; a success adds one lease under a fresh id with the runtime of the route |
| `ComponentManagement.ComponentManager.InsertLease` | crates/foxcore-component/src/lib.rs:588-609 | The second critical section adds the lease, moves the counter and logs |
| `ComponentManagement.ComponentManager.DropLease` | crates/foxcore-component/src/lib.rs:346-365 | The lease is gone and its release is logged once |
| `ComponentManagement.ComponentManager.AuthorizeLease` | crates/foxcore-component/src/lib.rs:617-651 | The decision and the log entry are those specified, and the registry is unchanged |
| `ComponentManagement.ComponentManager.AuthorizeNotificationLease` | crates/foxcore-component/src/lib.rs:653-713 | The same for notifications |
| `ComponentManagement.ComponentManager.AuthorizeCredential` | crates/foxcore-component/src/lib.rs:718-777 | A lease answers only for its own credential, then as `AuthorizeLease` does |
| `CandidateOrder.InterleavedCandidates` | crates/foxcore-dialer/src/lib.rs:473-491 | Each distinct address once, the first one first, order kept inside each family, families alternating until one is exhausted |
| `CandidateOrder.SplitFamilies` | crates/foxcore-dialer/src/lib.rs:473-484 | First occurrences, split by family, the first address's family first |
| `CandidateOrder.WeaveQueues` | crates/foxcore-dialer/src/lib.rs:485-490 | The loop weaves the two queues |
| `CandidateOrder.CandidatesAreDistinct` | crates/foxcore-dialer/src/lib.rs:473-491 | Every input address appears exactly once, and nothing else appears |
| `CandidateRace.RaceCandidates` | crates/foxcore-dialer/src/lib.rs:287-352 | The race ends, every lap is what the environment made of it, and its answer is right: time is up, or every candidate was tried and failed, or the attempt whose success ended the wait is the one returned |
| `CandidateRace.StaggerIsBounded` | crates/foxcore-dialer/src/lib.rs:283-284 | The stagger is a quarter of a second or half the budget, whichever is less |
| `CandidateRace.PreparedKeepsInv` | crates/foxcore-dialer/src/lib.rs:303-321 | Launching keeps: at most two in flight, queue order, each candidate once, deadlines within the overall one, the stagger |
| `CandidateRace.HappenKeepsInv` | crates/foxcore-dialer/src/lib.rs:327-348 | So does every way a wait can end |
| `CandidateRace.BudgetIsFair` | crates/foxcore-dialer/src/lib.rs:308-313 | An attempt gets at least the time left divided by half of all candidates, rounded up, and never more than is left |
| `CandidateRace.NothingLeftIsRight` | crates/foxcore-dialer/src/lib.rs:322-326 | With nothing in flight and nothing to launch, every candidate has failed |
| `CandidateRace.LapMakesProgress` | crates/foxcore-dialer/src/lib.rs:297-349 | Every lap brings the race nearer to its end |
| `RaceReach.ReachesAllIff` | crates/foxcore-dialer/src/lib.rs:283-349 | No run of the race, whatever the attempts do, ends without having launched every candidate, iff the time left exceeds one stagger for each candidate but the first |
| `RaceReach.CallReachesAllIff` | crates/foxcore-dialer/src/lib.rs:283-294 | The same for a call with the stagger its budget gives it; a quarter of a second for each further candidate is enough |
| `RaceReach.EnoughTimeReachesAll` | crates/foxcore-dialer/src/lib.rs:297-349 | With that much time every run that ends without a connection has launched all |
| `RaceReach.TooLittleTimeCanMiss` | crates/foxcore-dialer/src/lib.rs:297-349 | With less, a run is given that never launches the last one |
| `RaceReach.LapIsTimely` | crates/foxcore-dialer/src/lib.rs:303-348 | Every lap keeps: while something waits at most one attempt flies, and a stagger apart there is time for all that wait |
| `RaceReach.SilentRunsMissTheLast` | crates/foxcore-dialer/src/lib.rs:297-349 | With at most one stagger of time, every run of silent attempts misses the last of two or more candidates, and only that one |
| `RaceFairness.NoCandidateStarves` | crates/foxcore-dialer/src/lib.rs:283-349 | How a silent run can miss one: all are launched before the deadline except the last, iff the one before it was launched alone with at most a stagger left |
| `RaceFairness.DoomStays` | crates/foxcore-dialer/src/lib.rs:297-320 | Once that happens no later lap launches the last candidate |
| `LanHead.ReadHead` | crates/foxcore-component/src/lan.rs:1199-1225 | For every cut of the stream into reads: success iff a terminator ends within the first 8192 bytes; head + terminator + pipelined bytes is exactly what was consumed |
| `LanHead.FindTerminator` | crates/foxcore-component/src/lan.rs:1215-1221 | The first CRLFCRLF, or none |
| `LanHead.HeadIsUnique` | crates/foxcore-component/src/lan.rs:1199-1225 | Two readings of one stream yield the same head, and pipelined bytes that extend each other |
| `LanSessions.DialsAreAuthenticated` | crates/foxcore-component/src/lan.rs:943-1016 | In every interleaving with invalidations, a session that dials has proved the listener's credentials, or the listener was built anonymous, and the generation loaded for that check was the session's own |
| `LanSessions.InvalidationStopsHandshakes` | crates/foxcore-component/src/lan.rs:441-462 | After an invalidation has finished, no session that was not admitted by then ever is |
| `LanSessions.AdvanceStopsLaterChecks` | crates/foxcore-component/src/lan.rs:458-462 | Its first half already stops every check that has not loaded the generation |
| `LanSessions.UndisturbedSessionDialsIff` | crates/foxcore-component/src/lan.rs:449-456 | A session with nobody in its way dials iff the listener is not invalidated and holds exactly the credentials presented |
| `LanSessions.AnonymousSessionDialsIff` | crates/foxcore-component/src/lan.rs:441-447 | Without credentials it dials exactly at a listener built anonymous |
| `LanSessions.UndisturbedInvalidationEnds` | crates/foxcore-component/src/lan.rs:458-461 | An invalidation moves the generation by one and leaves no credentials |
| `LanProxies.LanPlansAreClosed` | crates/foxcore-component/src/lan.rs:700-713 | A LAN plan never routes Direct, always has credentials and leases what its routes need |
| `LanProxies.InboundPlansAreBacked` | crates/foxcore-component/src/lan.rs:666-698 | A named inbound leases the runtime of its one route |
| `LanProxies.LanSupervisor.AcquireLeases` | crates/foxcore-component/src/lan.rs:785-790 | All runtimes or none are held afterwards |
| `LanProxies.LanSupervisor.AcquireAndBind` | crates/foxcore-component/src/lan.rs:785-795 | Runtimes before listeners; a failure of either holds nothing |
| `LanProxies.LanSupervisor.Start` | crates/foxcore-component/src/lan.rs:732-862 | A failed start changes nothing and keeps no lease; a successful one holds exactly its plan's leases |
| `LanStarts.LanStartsNeedConfirmation` | crates/foxcore-component/src/lan.rs:730-790 | Over every run a LAN listener starts iff its network was confirmed earlier and not forgotten since, the binding may carry listeners, a port is offered, the identity is free and the outside grants the rest; otherwise nothing changes |
| `LanStarts.ConfirmedIff` | crates/foxcore-component/src/lib.rs:784-806 | A network counts as confirmed exactly when an earlier call confirmed it with room for it and none has taken that back |
| `LanStarts.ConfirmationsAreBounded` | crates/foxcore-component/src/lib.rs:788-795 | Never more than 64 networks are confirmed |
| `LanStarts.LanRefusalsAreExact` | crates/foxcore-component/src/lan.rs:739-795 | Which error a start ends with, in which order |
| `LanStarts.LanIsNeverAnonymous` | crates/foxcore-component/src/lan.rs:746-750 | No plan without credentials starts on a LAN |
| `LanStarts.BindableIsValid` | crates/foxcore-component/src/lan.rs:199-242 | Exactly which bindings may carry listeners, with the modem prefixes written out |
| `LanStarts.InboundStartsIff` | crates/foxcore-component/src/lan.rs:664-703 | A named loopback inbound starts iff its identity is free and its runtime and port are had |
| `LanStarts.ControlStartsIff` | crates/foxcore-component/src/lan.rs:640-658 | The same for the control proxy, with its preset |
| `LanStarts.PresetsRouteAsNamed` | crates/foxcore-component/src/lan.rs:292-314 | What each preset offers where, and which runtimes it holds for that |
| `LanStarts.StartedHandleIsAsAsked` | crates/foxcore-component/src/lan.rs:818-872 | The new handle is ready and carries what was asked for; earlier handles are as they were |
| `LanStarts.EndsTouchOneHandle` | crates/foxcore-component/src/lan.rs:520-567 | Stop, network change and drop end one handle and touch no other |
| `LanProxies.LanSupervisor.Stop` | crates/foxcore-component/src/lan.rs:539-561 | Credentials gone, generation advanced, identity given back once |
| `LanProxies.LanSupervisor.ReportNetworkChange` | crates/foxcore-component/src/lan.rs:526-537 | Credentials gone, generation advanced, phase overwritten |
| `LanProxies.LanSupervisor.Release` | crates/foxcore-component/src/lan.rs:564-568 | Dropping a handle stops it and gives back exactly its own runtime leases; what is held stays the sum over the handles not dropped |
| `LanProxies.ListenersAreAlwaysBacked` | crates/foxcore-component/src/lan.rs:732-862 | In every run: a confirmed-LAN listener has credentials and never routes Direct, and a listener that is up holds a lease for each of its routes |
| `LanProxies.LanDialsProveTheCredentials` | crates/foxcore-component/src/lan.rs:943-1016 | No session dials through a confirmed-LAN listener without having proved the plan's credentials |
| `LanProxies.StartKeepsIdentity` | crates/foxcore-component/src/lan.rs:778-862 | A start takes exactly its own identity |
| `LanProxies.StopKeepsIdentity` | crates/foxcore-component/src/lan.rs:539-561 | A stop gives back exactly its own identity |
| `LanProxies.NetworkChangeKeepsIdentityIff` | crates/foxcore-component/src/lan.rs:526-537 | A network change keeps the identities exact iff the handle is not stopped |
| `LanProxies.IdentitiesAreExact` | crates/foxcore-component/src/lan.rs:526-568 | In every run whose network changes reach only handles not stopped, the identities taken are those of started, unstopped handles, one each |
| `LanProxies.StaleDropEvictsNobody` | crates/foxcore-component/src/lan.rs:564-568 | Dropping a stopped handle leaves every identity taken |
| `LanProxies.RevivedHandleEvictsItsSuccessor` | crates/foxcore-component/src/lan.rs:526-568 | A stopped handle that gets a network change frees its successor's identity when dropped |
| `LanProxies.RevivingRun` | crates/foxcore-component/src/lan.rs:526-568 | A run of five calls, for every identity, that gets there: start, stop, start again, network change for the first handle, its drop |
| `UnifiedDiff.ApplyingInverts` | scripts/rustls-fork-origin.py:41-53 | From any point of two files on, applying hunks one way is undone by applying them the other way |
| `UnifiedDiff.WaysAreInverse` | scripts/rustls-fork-origin.py:34-57 | Forwards from the original to the modified file iff backwards from the modified file to the original |
| `UnifiedDiff.ReverseIsInverse` | scripts/rustls-fork-origin.py:34-57 | The cursor reversal accepts a file with a given original iff the hunks apply to that original at the named positions and produce the file |
| `ReversePatch.ReverseBody` | scripts/rustls-fork-origin.py:48-52 | The innermost loop reads and reverses exactly one hunk body and counts both sides |
| `ReversePatch.ReverseOneHunk` | scripts/rustls-fork-origin.py:44-53 | One hunk: positions, body and counts, or rejection |
| `ReversePatch.ReverseHunks` | scripts/rustls-fork-origin.py:43-54 | All hunks of a file, at least one, and the rest of the file |
| `ReversePatch.ReverseFilePatch` | scripts/rustls-fork-origin.py:38-56 | One file patch: header lines, names, hunks, removal of a created file |
| `ReversePatch.ReversePatchLines` | scripts/rustls-fork-origin.py:34-57 | The nested loops accept exactly the texts that the grammar reads and the specification reverses, with its result |
| `PatchGrammar.PatchIsReadIff` | scripts/rustls-fork-origin.py:37-54 | For every text: it is read as these file patches iff it spells them by boundaries, from its first line to its last |
| `PatchGrammar.HunksStandAsNamed` | scripts/rustls-fork-origin.py:45-53 | Every hunk of a patch that leads from one file to the other stands in both where its header says, counted from one |
| `PatchMeaning.ReversalIsExact` | scripts/rustls-fork-origin.py:34-57 | The reversal succeeds with a tree iff the text reads as file patches with different paths, each turning that tree's file into the vendored one, all other paths untouched, and the changed list is their paths |
| `PatchMeaning.UndoesDetermines` | scripts/rustls-fork-origin.py:54-57 | The vendored tree and the patch leave one choice for the restored tree |
| `SourceText.JoiningUndoesSplitting` | scripts/rustls-fork-origin.py:42-54 | Joining the lines of a text gives the text |
| `SourceText.LinesEndAtTerminators` | scripts/rustls-fork-origin.py:42 | No line is empty or broken inside, every line but the last is terminated, and CR LF is never torn apart |
| `SourceText.SplittingUndoesJoiningIff` | scripts/rustls-fork-origin.py:42-54 | Splitting a joined text gives the lines back iff they are proper lines |
| `SourceText.UndoneIsProperIff` | scripts/rustls-fork-origin.py:42-54 | Undoing hunks on proper lines gives proper lines iff every hunk's old side is proper together with the lines that stay around it |
| `ForkOrigin.CheckOrigin` | scripts/rustls-fork-origin.py:81-86 | Accepts exactly when the reversed files match the inventory in names, digests, sizes and modes, and the changed paths are the differing ones |
| `ForkOrigin.AcceptanceIsExact` | scripts/rustls-fork-origin.py:81-86 | Without digest collisions: accepted iff the patch reverses the vendored tree to the upstream tree and names exactly the files that differ |
| `ForkOrigin.OtherModesAreRefused` | scripts/rustls-fork-origin.py:82-86 | Only inventories of mode 0644 with the restored sizes are accepted |
| `ForkOrigin.UpstreamPatchesForwardIff` | scripts/rustls-fork-origin.py:42-57 | For an accepted file, the patch applies to the upstream text and gives the vendored text iff, on the vendored lines, every hunk's old side is proper together with the lines that stay around it |
| `ForkOrigin.LineFeedsAreEnough` | scripts/rustls-fork-origin.py:42-57 | That holds when every line of the vendored file and of the patch body ends in a line feed |
| `ForkOrigin.UnterminatedPatchIsAccepted` | scripts/rustls-fork-origin.py:34-57 | A patch text without a final terminator that reverses a vendored tree to an upstream tree to which it does not apply |
| `ForkOrigin.BlankIsEmptyText` | scripts/rustls-fork-origin.py:54-55 | Nothing is left of a created file iff every restored line is empty |
| `AbiCompat.Comparison.Walk` | scripts/abi-compare-json.py:53-123 | The walk appends exactly the specified problems, in order |
| `AbiCompat.Comparison.WalkFields` | scripts/abi-compare-json.py:58-64 | The loop over an object's fields |
| `AbiCompat.Comparison.WalkEntries` | scripts/abi-compare-json.py:73-80 | The loop over entries matched by id, each with the last of its id |
| `AbiCompat.Comparison.WalkWords` | scripts/abi-compare-json.py:101-103 | The loop over positive string lists |
| `AbiCompat.Comparison.WalkItems` | scripts/abi-compare-json.py:111-112 | The loop by position |
| `AbiReading.CleanIffReadable` | scripts/abi-compare-json.py:53-123 | No problem iff everything readable in the old document resolves in the new one with the same kind, true still true, pinned versions equal and positive words present, for all documents |
| `AbiReading.CleanIffCompatible` | scripts/abi-compare-json.py:53-123 | The same as a relation on documents, at every path |
| `AbiReport.ReportIsExact` | scripts/abi-compare-json.py:53-123 | For all documents and every problem: it is reported iff the two documents, walked side by side by key, id or position, get to two values of which it says what is wrong, and where |
| `AbiReading.KindsAreConstructors` | scripts/abi-compare-json.py:39-50 | The six kinds are the six kinds of values |
| `AbiReading.ShapesAreWhatListsHold` | scripts/abi-compare-json.py:70-113 | Lists of entries, of words and others, by what they hold |
| `AbiReading.PinnedIsVersion` | scripts/abi-compare-json.py:33 | The pinned names, written out |
| `AbiReading.NegativeSaysNo` | scripts/abi-compare-json.py:91-99 | The negative list, by its name |
| `AbiReading.ComparisonIsReflexiveIff` | scripts/abi-compare-json.py:53-123 | A document has no problem with itself iff every entry with a repeated id is compatible with the last of that id |
| `AbiReading.ComparisonIsReflexive` | scripts/abi-compare-json.py:53-123 | A document with distinct names and ids has no problem with itself |
| `AbiReading.ComparisonIsTransitive` | scripts/abi-compare-json.py:53-123 | Two clean steps make a clean one when lists keep their shape over the first, entries matched by id and mixed lists by position |
| `AbiChains.ComparisonChainsIff` | scripts/abi-compare-json.py:53-123 | After a clean step to a document with distinct names and distinct string or number ids, every further clean step chains iff the lists kept their shape |
| `AbiChains.ChainsIff` | scripts/abi-compare-json.py:53-123 | The same for compatible values at every path |
| `AbiChains.ChangedShapeBreaks` | scripts/abi-compare-json.py:70-113 | Wherever a list changed its shape, some document is compatible with the second and not with the first |
| `AbiReading.MixedListsDoNotChain` | scripts/abi-compare-json.py:92-112 | Three documents that show the shape condition is needed |
| `AbiReading.RepeatedIdsAreNotReflexive` | scripts/abi-compare-json.py:74-80 | A document with a repeated id that is not compatible with itself |
| `DnsNames.ReadName` | crates/foxcore-dns/src/wire.rs:276-319 | The loop reads the specified name, ends on every packet, and its offset is after the name's own bytes |
| `DnsNames.NameAt` | crates/foxcore-dns/src/wire.rs:276-319 | The new offset is strictly larger and within the packet, for every packet and every pointer structure |
| `DnsNames.NamesFitTheLimit` | crates/foxcore-dns/src/wire.rs:308-312 | No name that is read has more than 255 octets of labels, through any pointers |
| `DnsNames.EncodedLabelsAreRead` | crates/foxcore-dns/src/wire.rs:276-319 | The plain encoding of any labels within the limits is read back, in lower case, to its last octet |
| `DnsNames.EncodedLabelsAreReadIff` | crates/foxcore-dns/src/wire.rs:301-312 | An encoding is read iff it takes at most 256 octets, and then whole |
| `DnsNames.LongestNameIsRead` | crates/foxcore-dns/src/wire.rs:308-312 | After any bytes a name of 256 octets can stand that is read |
| `DnsCompression.CompressedNamesAreRead` | crates/foxcore-dns/src/wire.rs:281-298 | Where labels and then the two octets of a pointer stand, the name read is those labels and the ones written out at the offset the octets spell, and its own bytes end with the pointer |
| `DnsCompression.PointersAreFollowedIff` | crates/foxcore-dns/src/wire.rs:286-297 | A name behind a row of pointers is read iff there are at most 32 |
| `DnsCompression.CyclesAreRefused` | crates/foxcore-dns/src/wire.rs:286-297 | A pointer to itself is never read |
| `DnsMessages.MessageAllowed` | crates/foxcore-dns/src/message.rs:33-83 | Accepts exactly the packets of 12 to 65535 octets with ID 0 and one question that record boundaries tile to the last octet, with at most one OPT, root-owned, in the additional section, whose options tile its data without code 11 |
| `DnsForms.EncodedMessageAllowedIff` | crates/foxcore-dns/src/message.rs:33-84 | A message of any question and records, written out, passes iff its ID is zero, it fits 65535 octets, and at most one record is OPT, in the additional section, owned by the root, with whole options none of which is TCP keepalive |
| `DnsForms.FormsPassIff` | crates/foxcore-dns/src/message.rs:52-82 | The same for the records from any one on |
| `DnsForms.EncodedOptionsAreAllowedIff` | crates/foxcore-dns/src/message.rs:66-79 | Options written out pass iff none is code 11 |
| `DnsForms.EncodedMessageAsksIff` | crates/foxcore-dns/src/wire.rs:17-30 | A message written out is taken for a query iff it is neither a response nor another operation |
| `DnsMessages.CheckRecord` | crates/foxcore-dns/src/message.rs:51-79 | One pass over a record |
| `DnsMessages.RecordsAllowed` | crates/foxcore-dns/src/message.rs:50-80 | The loop over the records accepts exactly when boundaries exist |
| `DnsMessages.OptionsAllowed` | crates/foxcore-dns/src/message.rs:64-76 | The loop over the options accepts exactly when boundaries exist |
| `DnsMessages.TilesAreRecords` | crates/foxcore-dns/src/message.rs:50-80 | Walking over records and choosing boundaries for them come to the same |
| `DnsMessages.BareQuestionAllowedIff` | crates/foxcore-dns/src/message.rs:33-46 | A bare question is allowed iff its name takes at most 256 octets on the wire |
| `DnsMessages.LongestQuestionIsAllowed` | crates/foxcore-dns/src/message.rs:33-46 | A message with a name of 256 octets that is allowed |
| `DnsMessages.TilesAreOptions` | crates/foxcore-dns/src/message.rs:64-76 | The same for options |
| `DnsMessages.HttpQuery` | crates/foxcore-dns/src/message.rs:4-10 | A query with one readable question, with ID zero, and its ID; anything else is refused |
| `DnsMessages.DoqQuery` | crates/foxcore-dns/src/message.rs:21-27 | The same, exactly when what would be sent is allowed |
| `DnsMessages.RestoreTransactionId` | crates/foxcore-dns/src/message.rs:12-18 | Only the two ID octets of a response change; a refusal changes nothing |
| `DnsMessages.RestoreDoqResponse` | crates/foxcore-dns/src/message.rs:29-31 | The same, exactly for allowed messages that are responses |
| `DnsMessages.RestoredIdIsTheQuerys` | crates/foxcore-dns/src/message.rs:12-31 | A restored response carries the ID octets of the query and is otherwise as it came |
| `DnsMessages.SendingIsUndone` | crates/foxcore-dns/src/message.rs:4-31 | Putting the ID back undoes what sending changed |
| `Bootstrap.Query` | crates/foxcore-cli/src/bootstrap.rs:7-31 | The loop over labels builds the question for every accepted host and refuses every other |
| `Bootstrap.QueriesDecode` | crates/foxcore-cli/src/bootstrap.rs:7-31 | Round trip: ID, recursion flag, counts, the host in lower case as the one name, kind and class are read back from the query of every accepted host |
| `Bootstrap.AcceptedIff` | crates/foxcore-cli/src/bootstrap.rs:8-23 | Exactly which hosts are accepted, on their bytes: up to 253 letters, digits, hyphens and dots, no dot at an end or beside another, and one among any 64 |
| `Bootstrap.DottedUndoesSplitting` | crates/foxcore-cli/src/bootstrap.rs:15-26 | Labels joined with dots are the host |
| `Socks5.ParsesIffEncoded` | crates/foxcore-cli/src/bridge.rs:182-211 | Parsing yields an address, port and count iff the bytes begin with their encoding of that length |
| `Socks5.RequestsAreEncapsulated` | crates/foxcore-cli/src/bridge.rs:335-344 | A datagram is accepted iff it is the encapsulation of a valid address, nonzero port and payload, which are what is returned |
| `Socks5.Stream.ReadAddress` | crates/foxcore-cli/src/bridge.rs:213-231 | Succeeds exactly where parsing does, with its result, and consumes exactly its count |
| `Socks5.Stream.ReadAll` | crates/foxcore-cli/src/bridge.rs:213-228 | Reads exactly the octets that kind and length call for |
| `UdpRelay.ResolutionCache.Get` | crates/foxcore-cli/src/bridge.rs:155-167 | Drops everything thirty seconds old, then answers only for the exact address and port |
| `UdpRelay.StoredIsFoundWhileFresh` | crates/foxcore-cli/src/bridge.rs:155-179 | What is stored in a cache that is not full is found under its own key for less than thirty seconds and no longer, other keys are undisturbed, and the bound of 64 is kept |
| `UdpRelay.FirstAllowed` | crates/foxcore-cli/src/bridge.rs:258-262 | An allowed answer with no allowed one before it, or none is allowed |
| `RelayAnswers.AllowedIsPublic` | crates/foxcore-cli/src/bridge.rs:97-122 | The addresses allowed are those outside the special-purpose blocks, as numbers, and 2000::/3 without 2001:db8::/32 |
| `RelayAnswers.ResolvesIff` | crates/foxcore-cli/src/bridge.rs:233-270 | An address stands for itself, a name for its first public answer, and nothing else is a destination |
| `RelayAnswers.OpensIff` | crates/foxcore-cli/src/bridge.rs:354-366 | For which expected addresses an association opens, and when it pins the client |
| `RelayAnswers.SendsIff` | crates/foxcore-cli/src/bridge.rs:374-402 | Exactly when a client datagram goes out, with which payload and where |
| `RelayAnswers.SendingIsRemembered` | crates/foxcore-cli/src/bridge.rs:390-400 | What is sent makes its sender the client and its destination a target |
| `RelayAnswers.StrangersAreIgnored` | crates/foxcore-cli/src/bridge.rs:376-379 | Strangers and malformed datagrams change nothing |
| `RelayAnswers.RequestIsSentAsAsked` | crates/foxcore-cli/src/bridge.rs:339-402 | A datagram for a public address, as section 7 of RFC 1928 writes it, is sent as asked |
| `RelayAnswers.RepliesIff` | crates/foxcore-cli/src/bridge.rs:404-416 | Exactly when a reply goes back, and to whom |
| `UdpRelay.Association.HandleClient` | crates/foxcore-cli/src/bridge.rs:375-403 | A client datagram changes the loop's variables and is answered as the specification says |
| `UdpRelay.Association.Forward` | crates/foxcore-cli/src/bridge.rs:389-402 | The target bound, the pinned client and the sockets |
| `UdpRelay.Association.HandleTarget` | crates/foxcore-cli/src/bridge.rs:404-432 | A reply changes nothing and goes out as the specification says |
| `RelayRuns.StepKeepsInv` | crates/foxcore-cli/src/bridge.rs:371-434 | Every pass keeps at most 64 targets and 64 cache entries, all allowed and with a port, and the client an address of the peer |
| `RelayRuns.SentIsSafe` | crates/foxcore-cli/src/bridge.rs:375-403 | A datagram leaves only for an allowed address with nonzero port, the one it names, with its own payload, from the pinned client |
| `RelayRuns.RepliedIsFromATarget` | crates/foxcore-cli/src/bridge.rs:404-432 | A reply goes to the client alone, comes from a named target, reads back as that target and payload, and fits one datagram |
| `RelayRuns.StepGrows` | crates/foxcore-cli/src/bridge.rs:389-391 | A pass adds at most the target it named, and pins the client at most once |
| `RelayRuns.ReachableInv` | crates/foxcore-cli/src/bridge.rs:371-434 | The invariant holds in every state of every run |
| `RelayRuns.TargetsWereNamed` | crates/foxcore-cli/src/bridge.rs:389-391 | Every target was named by an earlier accepted datagram |
| `RelayRuns.EntriesWereResolved` | crates/foxcore-cli/src/bridge.rs:380-388 | Every cached entry came from resolving exactly its key, for a datagram accepted from the client |
| `RelayRuns.ClientStays` | crates/foxcore-cli/src/bridge.rs:377-390 | The client is never pinned anew |
| `RelayRuns.SendsAreFreshlyResolved` | crates/foxcore-cli/src/bridge.rs:375-403 | Over every run, what is sent goes where its exact address and port was resolved to for a datagram accepted from the client, in this pass or less than thirty seconds before |
| `RelayRuns.RepliesStayInTheAssociation` | crates/foxcore-cli/src/bridge.rs:404-432 | Over every run, replies reach only the one client, who stays the client, and come only from targets named earlier |

## Left out

- A stop whose reaper thread cannot be spawned, or finds another reaper at work, returns without one; the model's stop always reaps.
- JNI marshalling, exceptions, descriptors and TUN validation of the Android library; the stop lock, which only removes interleavings; the release of the engine's own resources.
- The wrap-around of the handle counter after 2^64 handles, and of the LAN generation counter.
- `stop`, `network_changed` and `Drop` of one proxy handle are single steps, and the proxy's own journal entries are not logged; starts are serialized by the control lock in the source as well.
- The byte-level parsing of the SOCKS and HTTP handshakes of the LAN proxy; sessions present credentials as values.
- Sockets, TLS, relaying of streams, the URL library behind origins, hashing and constant-time comparison.
- The regular expressions of the patch reader and its safe-path rule: a patch line carries its readings; sorting of the changed paths, which orders a list the model keeps in patch order.
- The notes of the document comparison (additions, which never refuse a document), the self-consistency check of one document, and Python's equality of `True`, `1` and `1.0` in ids and pinned versions; JSON keys are taken to contain no dot and no bracket.
- The handshake of the local bridge, its idle timeout, and the resolver's exchange; what the resolver answers is a parameter.
- The remaining scripts and crates: static documents, file, process and network input and output, and rendering.
- Ids of the document comparison that are lists or objects: the script raises on them, because it uses ids as dictionary keys; the model compares them like any other value.
- RaceReach.ReachesAllIff: for at most 2^33 - 2 candidates; beyond that the number of batches no longer fits the 32 bits the code divides by.
- ComponentJournal.EventsAreConserved: says nothing beyond 2^64 - 1 events of one component, where the sequence saturates.
- AbiChains.ComparisonChainsIff: asks the second document for distinct names and distinct ids that are strings or numbers; an id such as `null` cannot change in a clean step, so a list with such ids may change its shape and still chain.
