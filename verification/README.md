# A verified model of the SleepyService operator

SleepyService puts a set of Kubernetes workloads and CNPG databases to sleep and wakes them on the first
request.  A controller scales the components up level by level along their dependencies; a wake proxy in front
of the service triggers the wake-up, holds requests and forwards them once the service is awake.  The two talk
to each other only through the status subresource of one custom resource.

This project models both sides in Dafny and proves what they promise, with `dafny verify dfyconfig.toml`.

| file | contents |
|---|---|
| `Types.dfy` | vocabulary of the custom resource |
| `Walks.dfy`, `Layering.dfy` | dependency relations in the abstract: walks, cycles, chain lengths, layerings |
| `Dependencies.dfy` | the dependency graph: construction, recursive cycle search, Kahn's layering |
| `Scaling.dfy` | cluster objects, the readiness checks, one scaling call |
| `Reconciling.dfy`, `ReconcileLaws.dfy` | one reconcile as a function of what it reads, and its laws |
| `Runs.dfy`, `Wakeup.dfy` | whole runs: safety under interference, closure, convergence, round trip |
| `Hibernation.dfy` | going to sleep over several reconciles: failed scale-downs, sleep requests during a wake-up |
| `ClusterLaws.dfy` | the promises of a reconcile on the fields of the spec and of the objects |
| `Controller.dfy` | the controller's methods, proved to compute that function |
| `StatusCell.dfy` | the shared status with versioned writes |
| `WakeProxy.dfy`, `ProxySystem.dfy` | the proxy's locked sections; proxy, controllers and status with any number of threads |
| `SseRegistry.dfy` | the registry of event-stream subscribers |
| `Text.dfy`, `PortWiring.dfy` | ports and names on their way from the spec into the proxy and the Services |
| `Routing.dfy` | the Services of the controller, the servers of the proxy, and the way of a request through them |

The structure is the same on both sides.  A method that updates state, or loops, is proved equal to a function
of the state before it; lemmas about that function carry the promises, and each function is tied, by a lemma or by
the method's contract, to the fields and constants that it is about.  What the environment decides is an
argument: the order in which a map is iterated (any layering, any choice from a set), which API calls fail
(`Faults`, `Answer`), what happens to the cluster between two reconciles (`Event`, `Settles`).  The only
assumption about Kubernetes is that a status write with a stale version is refused.

## Results that differ from what one would expect

* The repository's own README (line 48) says that while Sleeping all components are scaled to zero.  The code
  does not keep that: an Awake service in which one component stops being ready becomes Sleeping without a
  scale-down, even if only a readiness read failed, and a scale-down that fails half way is not resumed.
  `ReconcileLaws.SleepingMeansOffIff` says when the promise holds after a reconcile that does not fail, whatever
  it could not read.  `Hibernation.ScaleDownResumedIff` says for every stored state when a failed scale-down is
  completed by the next reconcile.  `Runs.RestingIsClosed` says that with one component off nothing is scaled
  while no wake-up is requested and Waking is not stored, `Hibernation.FrozenIff` what Waking changes about that.
  Concrete cases are `Hibernation.SleepingWithEverythingOn` and `Hibernation.HalfwayScaleDown`.
* While Waking is stored, a scale-down that turned everything off but could not store its status is undone: the next
  reconcile goes on with the wake-up although sleep is desired (`Hibernation.RefusedStatusUndoesScaleDown`).  When
  nothing else fails, the service goes on Waking for at most L reconciles and is then asleep for good
  (`Hibernation.SleepsAfterWaking`).
* A workload that declares zero replicas and is off is never woken, and the service with it: `Wakeup.WakesIff`.
* The Waking branch of the decision that expects everything ready is dead inside a reconcile:
  `ReconcileLaws.WakingNeverAllReady`.
* A proxy that starts while the stored state is Waking has no wake sequence of its own and requests alone never end that:
  `ProxySystem.StartedWakingStaysWaking`, `ProxySystem.WakingMeansActiveIff`.
* Two wakes can be active at once.  Behind a second wake there always is a hibernation or a refresh that set the proxy
  Sleeping under an active wake (`ProxySystem.SecondWakeWasInterrupted`), and after every such step one more request
  is enough (`ProxySystem.InterruptionAdmitsSecondWake`).  `ProxySystem.OldWakeOverwritesNewer` is a run in which the
  old wake then overwrites the newer one.
* Without a backend section the controller still creates the Service `<name>-actual`, but the proxy forwards to the
  Service named after the main component; with a disabled backend the proxy forwards to `<name>-actual`, which the
  controller does not create: `Routing.ForwardsToManagedIff`, `Routing.DisabledForwardsNowhere`.
* The managed Service lies in the namespace of the SleepyService and finds no pods of a main component in another
  one; a port number that is listed twice, say for TCP and for UDP, ends the proxy: `Routing.Wired` collects the
  conditions, `Routing.RequestReachesDeclaredTarget` proves that they are exactly what is needed,
  `Routing.RepeatedPortIsRefused` is the repeated port.  A main component named like the service, without a backend
  section, makes the proxy forward to itself: `Routing.ForwardsToItselfIff`.

## Model

| member | source | states |
|---|---|---|
| Dependencies.BuildDependencyGraph | internal/controller/sleepyservice_controller.go:275-314 | accepts a component list exactly when names are distinct, dependencies exist and no dependency cycle exists; a rejection names a real duplicate, a real missing dependency or a real cycle; the accepted graph holds each component with the dependencies it lists |
| ClusterLaws.ValidSpecIff | internal/controller/sleepyservice_controller.go:275-364 | on the fields: valid means distinct names, every listed dependency a component, and no chain of components, each listed by the one before, that returns to its start |
| Dependencies.DependencyGraph.Register | internal/controller/sleepyservice_controller.go:282-292 | fails exactly on a repeated name, reporting the first repetition |
| Dependencies.DependencyGraph.Connect | internal/controller/sleepyservice_controller.go:294-306 | fails exactly when a dependency is missing; otherwise forward and reverse edges hold every listed entry equally often, repeated or not |
| Dependencies.DependencyGraph.ValidateDependencies | internal/controller/sleepyservice_controller.go:317-364 | terminates and reports no error if and only if the relation is acyclic, for any order of roots; the reported path is a closed walk of real edges |
| Dependencies.CycleSearch.Visit | internal/controller/sleepyservice_controller.go:322-354 | the path is a chain of edges holding exactly the nodes on the recursion stack, restored on return; an error is always a genuine cycle |
| Dependencies.CycleSearch.ReportCycle | internal/controller/sleepyservice_controller.go:334-346 | the slice from the first occurrence closes to a cycle; the fallback error is never produced |
| Dependencies.DependencyGraph.ComputeScalingLevels | internal/controller/sleepyservice_controller.go:368-407 | terminates on every graph, cyclic ones included; level k holds, once each, exactly the components whose longest dependency chain has length k, for any iteration order |
| Dependencies.DependencyGraph.Release | internal/controller/sleepyservice_controller.go:395-403 | counting one component off at its dependents keeps each in-degree equal to the number of listed dependencies not yet done, and queues each component once |
| Layering.OmittedIffReachesCycle | internal/controller/sleepyservice_controller.go:368-407 | the components that no level holds are exactly those from which a cycle can be reached |
| Layering.LevelsCoverIffAcyclic | internal/controller/sleepyservice_controller.go:317-407 | the levels cover all components exactly when the relation is acyclic, that is, when the cycle search accepts |
| Layering.OneLevelEach | internal/controller/sleepyservice_controller.go:368-407 | on an acyclic graph each component lies in exactly one level, indexed by its longest chain |
| Layering.DependenciesLieLower | internal/controller/sleepyservice_controller.go:368-407 | all dependencies lie strictly lower and one lies exactly one level lower |
| Layering.TransitiveDependenciesLieLower | internal/controller/sleepyservice_controller.go:368-407 | indirect dependencies lie strictly lower as well |
| Layering.LayeringIsUnique | internal/controller/sleepyservice_controller.go:368-407 | two iteration orders produce the same levels up to the order inside each level |
| Walks.OrderImpliesAcyclic | internal/controller/sleepyservice_controller.go:349-364 | an exploration that leaves every component after its dependencies proves that there is no cycle |
| Scaling.ScaleUpPointwise | internal/controller/sleepyservice_controller.go:497-570 | with distinct resources a scale-up raises each listed resource on its own and leaves all others as they were |
| Scaling.ScaleDownPointwise | internal/controller/sleepyservice_controller.go:572-666 | the same for a scale-down |
| Scaling.ScaleUpTurnsOn | internal/controller/sleepyservice_controller.go:429-570 | a faultless scale-up leaves every listed component on, even when components share resources |
| Scaling.ScaleUpIdempotent | internal/controller/sleepyservice_controller.go:497-570 | scaling up twice, in any order, is scaling up once |
| Scaling.ScaleUpIsConservative | internal/controller/sleepyservice_controller.go:497-570 | under any faults only listed resources are written, and never one that is already on |
| Scaling.ScaleDownIsConservative | internal/controller/sleepyservice_controller.go:572-666 | however a scale-down ends, it has written only listed resources |
| ReconcileLaws.CompositeStep | internal/controller/sleepyservice_controller.go:91-118 | status update and decision, one after the other, amount to one state machine, spelled out case by case; a failed reconcile stores nothing; Waking requeues soon |
| ReconcileLaws.AwakeIff | internal/controller/sleepyservice_controller.go:203-272 | a reconcile that does not fail ends Awake exactly when all components are ready and sleep is not desired |
| ClusterLaws.SnapshotOnFields | internal/controller/sleepyservice_controller.go:1165-1352 | a component is recorded as ready exactly when it could be read and: a workload wants n > 0 pods (one if no count is given) and has n ready; a cluster is not hibernated, in the healthy phase, with a ready instance |
| ClusterLaws.StoredAwakeIff | internal/controller/sleepyservice_controller.go:203-272 | a reconcile that does not fail stores Awake exactly when sleep is not desired and every component could be read and is ready in that sense |
| ClusterLaws.ReadyDoesNotFail | internal/controller/sleepyservice_controller.go:1253-1269 | with all that given, Awake is stored unless the status write is refused, and no object is touched |
| ClusterLaws.RaiseOnFields | internal/controller/sleepyservice_controller.go:497-570 | a successful scale-up writes the declared count, or one, over an absent or zero count, removes the hibernation annotation of a hibernated cluster, and changes nothing else |
| ClusterLaws.LowerOnFields | internal/controller/sleepyservice_controller.go:597-666 | a successful scale-down writes zero over a positive count, annotates a cluster that is not hibernated, and changes nothing else |
| ClusterLaws.SleepOnFields | internal/controller/sleepyservice_controller.go:260-266 | a sleep request honoured leaves every workload at zero and every cluster annotated |
| ClusterLaws.ScaleUpStopsAtError | internal/controller/sleepyservice_controller.go:474-492 | a failing pass has done its work up to one component that was missing or met a fault, and nothing after |
| ClusterLaws.ScaleDownStopsAtError | internal/controller/sleepyservice_controller.go:572-595 | the same for a scale-down |
| ClusterLaws.SuccessIsComplete | internal/controller/sleepyservice_controller.go:67-122 | a reconcile that does not fail has done all that one without API errors does on the same snapshot |
| ReconcileLaws.WakingNeverAllReady | internal/controller/sleepyservice_controller.go:252-258 | the decision never finds Waking with every component ready |
| ReconcileLaws.ScaleDownTurnsOff | internal/controller/sleepyservice_controller.go:572-666 | a faultless scale-down turns a component off exactly when its replica count was explicit |
| ReconcileLaws.SleepingMeansOffIff | internal/controller/sleepyservice_controller.go:1253-1269 | exactly when a reconcile that does not fail and ends in Sleeping leaves every component off, under any readiness reads that failed on the way |
| ReconcileLaws.SleepHonouredWhenReady | internal/controller/sleepyservice_controller.go:260-266 | a sleep request is honoured by the first faultless reconcile that finds everything ready and every count explicit, Waking included |
| ReconcileLaws.RaisedInCurrentLevel | internal/controller/sleepyservice_controller.go:442-492 | every scale-up write is to the highest level whose predecessors are all ready, and to no other |
| ReconcileLaws.RaisedDependenciesReady | internal/controller/sleepyservice_controller.go:410-492 | a component is scaled up only if the snapshot has all its direct and indirect dependencies ready |
| ReconcileLaws.InvalidSpecRaisesNothing | internal/controller/sleepyservice_controller.go:430-435 | a duplicate, missing or circular dependency causes no write, and fails every reconcile that finds something unready while Awake is desired or Waking is stored |
| ReconcileLaws.ChosenIsUnique | internal/controller/sleepyservice_controller.go:442-475 | the components chosen for scaling do not depend on the iteration order |
| ReconcileLaws.ScaleUpTwice | internal/controller/sleepyservice_controller.go:429-495 | for a fixed snapshot a second scale-up changes nothing, even under another iteration order |
| Runs.DependencySafety | internal/controller/sleepyservice_controller.go:368-492 | over all runs, with cluster and desired state changing arbitrarily in between, each scale-up write has all transitive dependencies ready in its reconcile's snapshot |
| ClusterLaws.OnlyRaisesOnReady | internal/controller/sleepyservice_controller.go:368-492 | whenever a reconcile changes a workload at zero or without a count, or a hibernated cluster, every component reachable over the listed dependencies is recorded as ready |
| Runs.RestingIsClosed | internal/controller/sleepyservice_controller.go:203-272 | over all runs: while no wake-up is requested and Waking is not stored, one component that is off freezes every scale, and Sleeping stays Sleeping |
| Hibernation.ScaleDownResumedIff | internal/controller/sleepyservice_controller.go:236-266 | for every stored state: a failed scale-down is completed by the next faultless reconcile exactly when it had written nothing, or everything; with Waking stored and a valid spec, everything only counts if all components without dependencies declare zero |
| Hibernation.FrozenIff | internal/controller/sleepyservice_controller.go:236-266 | with a component off and no wake-up requested, a faultless reconcile leaves all objects alone exactly when Waking is not stored, the spec is invalid, or the level to raise has nothing to be raised |
| Hibernation.SleepsAfterWaking | internal/controller/sleepyservice_controller.go:236-266 | a sleep request while Waking is stored: at most L reconciles go on Waking, and from then on the service is Sleeping with every component off |
| Hibernation.SleepingWithEverythingOn | internal/controller/sleepyservice_controller.go:1262-1269 | a concrete Awake service that loses readiness and is stored as Sleeping with everything on |
| Hibernation.RefusedStatusUndoesScaleDown | internal/controller/sleepyservice_controller.go:236-266 | a concrete complete scale-down with Waking stored whose status write is refused, undone by the next reconcile |
| Hibernation.HalfwayScaleDown | internal/controller/sleepyservice_controller.go:572-595 | a concrete scale-down that fails half way and leaves one component on |
| Wakeup.RoundProgress | internal/controller/sleepyservice_controller.go:442-492 | each reconcile of a wake-up adds at least one to the number of leading ready levels |
| Wakeup.FullPrefixIffAllReady | internal/controller/sleepyservice_controller.go:1253-1258 | every level ready is every component ready |
| Wakeup.WakeUpConverges | internal/controller/sleepyservice_controller.go:110-115 | from any cluster in which whatever declares zero replicas is already on, and from any stored state, at most L reconciles end Waking with a short requeue and all later ones Awake, L being the number of levels |
| Wakeup.WakesIff | internal/controller/sleepyservice_controller.go:497-570 | from any cluster the wake-up ends with Awake stored exactly when no workload that declares zero replicas had a count of zero at the start |
| Wakeup.HibernateThenWake | internal/controller/sleepyservice_controller.go:429-666 | scale-down, then L wake rounds: every workload that declares n has n, one that declares none has 1, every cluster has lost the hibernation annotation and kept the others, unrelated objects are unscaled |
| Controller.SleepyService.AreComponentsReady | internal/controller/sleepyservice_controller.go:410-426 | whether for every name the last status entry of that name says ready |
| Controller.SleepyService.PickLevel | internal/controller/sleepyservice_controller.go:442-463 | the highest level whose predecessors are all ready, or none when there are no levels |
| Controller.SleepyServiceReconciler.ScaleUpWorkload | internal/controller/sleepyservice_controller.go:497-543 | over an absent or zero count it writes the declared one, or 1 if none is declared; anything else is left alone |
| Controller.SleepyServiceReconciler.ScaleUpCNPGCluster | internal/controller/sleepyservice_controller.go:545-570 | removes the hibernation key of a hibernated cluster and nothing else |
| Controller.SleepyServiceReconciler.ScaleDownWorkload | internal/controller/sleepyservice_controller.go:597-635 | sets a positive explicit count to zero and leaves an absent one alone |
| Controller.SleepyServiceReconciler.ScaleDownCNPGCluster | internal/controller/sleepyservice_controller.go:637-666 | sets the hibernation key of a running cluster and keeps the others |
| Controller.SleepyServiceReconciler.ScaleUpComponents | internal/controller/sleepyservice_controller.go:429-495 | graph, layering, choice of level and writes up to the first error equal the specified scale-up |
| Controller.SleepyServiceReconciler.ScaleDownComponents | internal/controller/sleepyservice_controller.go:572-595 | writes in spec order up to the first error equal the specified scale-down |
| Controller.SleepyServiceReconciler.CheckWorkloadReady | internal/controller/sleepyservice_controller.go:1274-1316 | ready exactly when readable and at least as many pods are ready as the count says, which is not zero; 1 stands for an absent count |
| Controller.SleepyServiceReconciler.CheckCNPGReady | internal/controller/sleepyservice_controller.go:1318-1352 | ready exactly when readable, not hibernated, healthy and with a ready instance |
| Controller.SleepyServiceReconciler.UpdateComponentStatuses | internal/controller/sleepyservice_controller.go:1165-1272 | takes the snapshot in spec order and moves the state accordingly |
| Controller.SleepyServiceReconciler.ReconcileState | internal/controller/sleepyservice_controller.go:203-272 | the decision, with the state reached and the error returned |
| Controller.SleepyServiceReconciler.Reconcile | internal/controller/sleepyservice_controller.go:67-122 | objects, stored status, writes and requeue equal the specified step, under any failing API calls |
| StatusCell.ReconcileIsControllerEdit | internal/controller/sleepyservice_controller.go:91-108 | what a successful reconcile writes is an edit of the controller's half of what it fetched |
| StatusCell.ControllerWrites | internal/controller/sleepyservice_controller.go:91-108 | a versioned write of the whole status by the controller loses no proxy write and keeps the state truthful |
| StatusCell.ProxyWrites | internal/proxy/kubernetes.go:284-312 | a versioned write of the whole status by the proxy loses no controller write and keeps the state truthful |
| StatusCell.AwakeWasRecorded | internal/controller/sleepyservice_controller.go:1253-1269 | a stored Awake goes back to one reconcile that recorded Awake with every component ready |
| StatusCell.SharedStatus.WriteDesired | internal/proxy/kubernetes.go:284-312 | writes the desired state back with everything else as fetched, or nothing when the version is stale |
| WakeProxy.PollProgressOnFields | internal/proxy/kubernetes.go:350-372 | the number of ready components in percent, rounded down, held at 95 before Awake; 0 without components |
| WakeProxy.CountReady | internal/proxy/kubernetes.go:350-372 | the counting loop computes that percentage, stated by the size of the set of ready positions |
| WakeProxy.Proxy.TriggerWake | cmd/proxy/main.go:472-524 | without another thread in between: nothing happens unless the proxy sleeps; it ends Awake exactly when the request was stored and a poll saw Awake, Sleeping at 0 otherwise; everything broadcast is in range |
| WakeProxy.Proxy.WaitForAwake | internal/proxy/kubernetes.go:330-384 | returns success exactly when some poll sees Awake, and shows only Waking in 5..95 on the way |
| WakeProxy.Proxy.Hibernate | cmd/proxy/main.go:532-567 | without another thread in between: a sleeping proxy is left alone, any other ends Sleeping at 0 after showing 50 |
| WakeProxy.Proxy.CheckAndUpdateState | cmd/proxy/main.go:430-470 | a stored Awake sets Awake at 100; unless the proxy is Waking, a stored Waking sets Waking at 50 and a stored Sleeping or Hibernating sets Sleeping at 0; nothing else changes anything |
| WakeProxy.Proxy.TryStartWake | cmd/proxy/main.go:472-484 | only a sleeping proxy starts a wake sequence |
| ProxySystem.StoredStatusTruthful | internal/controller/sleepyservice_controller.go:1253-1269 | in every reachable state, with any number of controllers and proxies: Awake implies all stored components ready, Waking implies one is not, and the state is unset, Sleeping, Waking or Awake |
| ProxySystem.NoLostUpdates | internal/proxy/kubernetes.go:285-306 | in every reachable state, with any number of controllers and proxies, the stored desired state is that of the last accepted proxy write, the rest that of the last accepted controller write |
| ProxySystem.RequestWasStored | cmd/proxy/main.go:486-500 | in every run a wake sequence that waits for Awake has itself, before, stored Awake as the desired state and changed nothing else |
| ProxySystem.ProxyWriteIsStored | internal/proxy/kubernetes.go:295-311 | in every run a proxy write that works at the current version stores its desired state, Awake for a wake and Sleeping for a hibernation, and nothing else |
| ProxySystem.ControllerWriteIsStored | internal/controller/sleepyservice_controller.go:91-108 | in every run a reconcile's write that works at the current version stores its snapshot and the state that follows from it and keeps the desired state |
| ProxySystem.StaleWriteIsRefused | internal/proxy/kubernetes.go:305-309 | in every run a write of an outdated copy changes nothing |
| ProxySystem.RefreshedThenWakes | cmd/proxy/main.go:460-479 | in every run a refresh that read Sleeping or Hibernating puts a proxy that is not Waking to Sleeping at 0, and the next wake to start from there becomes active |
| ProxySystem.AloneWakes | cmd/proxy/main.go:472-524 | undisturbed, the steps of a wake end Awake at 100 once a poll sees Awake, after any other polls |
| ProxySystem.AloneGivesUp | cmd/proxy/main.go:503-513 | undisturbed, a wake whose time runs out ends Sleeping at 0 |
| ProxySystem.AloneRefused | cmd/proxy/main.go:486-498 | a wake whose request cannot be stored ends Sleeping at 0 |
| ProxySystem.PollShows | internal/proxy/kubernetes.go:343-384 | a poll shows 10 plus 85 percent of the share of ready components, and ends the wait exactly when it read Awake |
| ProxySystem.AloneSleeps | cmd/proxy/main.go:532-567 | undisturbed, a hibernation ends Sleeping at 0, whatever becomes of its write |
| ProxySystem.AloneSleepsUnread | cmd/proxy/main.go:532-567 | and so does one that cannot read the status |
| ProxySystem.AloneRefreshes | cmd/proxy/main.go:430-470 | the two steps of a refresh have the effect of the stored state that was read |
| ProxySystem.AloneRequest | cmd/proxy/main.go:243-285 | a request is forwarded exactly by an Awake proxy; a held one as soon as it finds the proxy Awake before its time runs out; a failing backend causes a refresh |
| ProxySystem.RequestIsAnswered | cmd/proxy/main.go:242-285 | a run from a status that nobody has written to a forwarded request exists |
| ProxySystem.AwakeHasReader | cmd/proxy/main.go:430-524 | in every run a step that turns the proxy Awake, or writes Awake again, is by a thread that earlier in the run itself read a stored status with Awake in it |
| ProxySystem.ForwardedAfterAllReady | cmd/proxy/main.go:242-285 | a request is forwarded only after a single reconcile has recorded Awake with every component ready |
| ProxySystem.ProxyStatusConsistent | cmd/proxy/main.go:412-567 | with any number of threads: progress is 100 exactly for Awake, 0 or 50 for Sleeping, 5..95 for Waking; state and bar differ only while some thread still owes the update of the bar |
| ProxySystem.OneWakeAtATime | cmd/proxy/main.go:472-524 | with any number of requests and neither hibernation nor refresh, at most one wake is active and the proxy is Waking exactly while one is |
| ProxySystem.StartedWakingStaysWaking | cmd/proxy/main.go:451-457 | a proxy that starts Waking has no wake sequence and stays Waking, through any requests, as long as there is no hibernation and no refresh |
| ProxySystem.WakingMeansActiveIff | cmd/proxy/main.go:472-524 | "Waking means a wake is active" holds in such a run exactly when the start did not read Waking |
| ProxySystem.UninterruptedIsSafe | cmd/proxy/main.go:472-567 | in every run, with any hibernations and refreshes: until one of them sets the proxy Sleeping under an active wake, at most one wake is active and the proxy is not Sleeping while one is |
| ProxySystem.SecondWakeWasInterrupted | cmd/proxy/main.go:472-567 | behind two active wakes lies a hibernation or refresh that set the proxy Sleeping under an active wake |
| ProxySystem.InterruptionAdmitsSecondWake | cmd/proxy/main.go:472-567 | after every such step, the run continues by one request to two active wakes |
| ProxySystem.OldWakeOverwritesNewer | cmd/proxy/main.go:511-548 | a run in which a hibernation lets an old wake overwrite a newer one |
| SseRegistry.NeverSendsToClosed | cmd/proxy/main.go:331-363 | in every interleaving a send goes to a registered, open channel |
| SseRegistry.SubscriberGetsWhatFits | cmd/proxy/main.go:398-410 | at most ten items wait; delivered and buffered items are the attempted ones in order, without exactly those that found ten waiting |
| SseRegistry.KeptIsSubsequence | cmd/proxy/main.go:398-410 | dropping at a full buffer leaves a subsequence, the whole sequence if the buffer is never full |
| SseRegistry.BroadcastReachesAll | cmd/proxy/main.go:398-410 | a finished broadcast has attempted every registered subscriber exactly once and nobody else |
| SseRegistry.SubscriberIsSentOnce | cmd/proxy/main.go:331-363 | a subscriber that joined before a broadcast began and has not left when it ends was sent it exactly once |
| SseRegistry.OffersAreGenuine | cmd/proxy/main.go:398-410 | whatever a subscriber is sent is the status of a broadcast that has begun |
| SseRegistry.Subscribers.BroadcastStatus | cmd/proxy/main.go:398-410 | one broadcast offers the status to every client once, in any order |
| Text.PortListRoundTrip | cmd/proxy/main.go:219-228 | splitting, trimming and parsing a printed list of 32-bit ports gives it back in order |
| Text.ParsePrintInt | cmd/proxy/main.go:658-665 | every number in range survives printing and parsing, every other is rejected, a plus sign makes no difference |
| Text.PaddedPort | cmd/proxy/main.go:219-227 | white space around a port makes no difference, and a number beyond 32 bits is rejected |
| Text.CommaSeparates | cmd/proxy/main.go:219 | ports are separated by commas and by nothing else |
| PortWiring.FindAppComponent | internal/controller/sleepyservice_controller.go:971-985 | the last Deployment or StatefulSet, nothing if there is none |
| PortWiring.BuildProxyEnv | internal/controller/sleepyservice_controller.go:824-891 | each variable the proxy reads has its value, and is unset where the spec gives none |
| PortWiring.DescribesOnFields | internal/controller/sleepyservice_controller.go:839-888 | the value of each variable on the fields of the spec, both timeouts and the host `<name>-actual.<namespace>` included |
| PortWiring.ParseBackendPorts | cmd/proxy/main.go:214-228 | all parts parsed in order, or the fatal exit on an empty text or a part that is no 32-bit number |
| PortWiring.LoadConfig | cmd/proxy/main.go:201-239 | when the configuration is refused, and what becomes of each variable otherwise, defaults and the accepted spellings of true included |
| PortWiring.WiringRoundTrip | internal/controller/sleepyservice_controller.go:824-891 | `loadConfig` accepts exactly when the service has a name and a main component, and then yields exactly the intended configuration: ports, names, host, flag and replica count |
| PortWiring.BuildBackendServicePorts | internal/controller/sleepyservice_controller.go:1072-1107 | index by index name, number and node port as declared, the declared target if one is given by number or name and the port number otherwise, the declared protocol or TCP; http on 80 if nothing is declared |
| PortWiring.BuildProxyContainerPorts | internal/controller/sleepyservice_controller.go:1109-1129 | index by index the declared names and ports |
| PortWiring.BuildProxyServicePorts | internal/controller/sleepyservice_controller.go:1131-1162 | index by index the declared ports, each targeting itself |
| PortWiring.PortsAgree | internal/controller/sleepyservice_controller.go:1072-1162 | the proxy's parsed ports, its container ports, both Services' ports and the front targets agree at every index |
| Routing.ServiceWriter.EnsureBackendService | internal/controller/sleepyservice_controller.go:922-965 | a disabled Service is not touched; otherwise it fails without a main component, its labels or the write, and else puts the managed Service in place with the declared ports |
| Routing.ServiceWriter.EnsureProxyService | internal/controller/sleepyservice_controller.go:893-920 | puts the Service in front of the proxy in place |
| Routing.ServiceWriter.EnsureServices | internal/controller/sleepyservice_controller.go:134-160 | managed Service first, then the proxy's; all other Services are as before |
| Routing.ReverseProxies | cmd/proxy/main.go:134-148 | one backend for each configured port and for no other |
| Routing.ServesAllIff | cmd/proxy/main.go:161-179 | with one server per list entry, in any order of starts, no server is refused and none is on another port exactly when the numbers are ports and none is repeated |
| Routing.RepeatedPortIsRefused | cmd/proxy/main.go:173-178 | any port listed twice ends the proxy, in any order of starts |
| Routing.ArrivesIff | cmd/proxy/main.go:134-179 | in any cluster a request gets exactly as far as the Service that the proxy forwards to takes it, for the declared ports and while no server was refused |
| Routing.RequestReachesDeclaredTarget | internal/controller/sleepyservice_controller.go:893-965 | whatever else the cluster holds, requests to all declared ports reach the main component's pods at the declared target, or at the port number where none is declared, exactly when the service has a name, a main component in its own namespace, distinct valid ports and a managed, enabled Service that the proxy forwards to; and then they reach them at no other target |
| Routing.ForwardsToManagedIff | internal/controller/sleepyservice_controller.go:852-863 | in every cluster what the proxy forwards to is a Service the controller keeps, exactly when it is not disabled and there is a backend section or the main component carries the managed name |
| Routing.ForwardsToItselfIff | internal/controller/sleepyservice_controller.go:852-863 | the proxy forwards to its own Service exactly without a backend section and with a main component named like the service; requests to its only port, 80, then come back to the proxy |
| Routing.DisabledForwardsNowhere | internal/controller/sleepyservice_controller.go:922-928 | a disabled backend for which the proxy loads and forwards to a Service that does not exist |

## Left out

- Component messages and the level labels in them, hence the second graph construction inside the status update.
- Time: `lastTransition`, `lastActivity`, start and estimate of a wake, poll intervals. A timeout is an answer that a step may get.
- The cancel function of a wake and its context: a cancelled call shows as a failing or expiring one, which any thread may meet at any time.
- Deployment and StatefulSet functions that are equal up to the type they fetch are one method each, with the kind as part of the key.
- Creation of the proxy Deployment, ServiceAccount, Role and RoleBinding, finalizers, owner references, deletion.
- Idle timeout and `reconcileHibernate`, which decide only when to come back.
- HTTP serving, templates, JSON, the wire format of the event stream, logging.
- Printing and parsing of durations; the two timeouts are passed as text.
- Polling and scaling helpers of the proxy's client that the proxy does not call.
- Locks are not modelled as such: in `ProxySystem` and `SseRegistry` each locked section, and each API request, is one atomic step. The classes prove what one section does when nothing comes between.
- A wake that a request triggers is a thread spawned at any time, so the model has every interleaving of the code and more.
- Objects have the fields that scaling and readiness read. An update conflict on an object is a failing update.
- Controller.SleepyServiceReconciler.Reconcile: starts after fetch, deletion, finalizer, proxy resources and status names, and leaves out the requeue for the idle timeout.
- Controller.SleepyServiceReconciler.UpdateComponentStatuses: leaves out component messages and `lastTransition`.
- StatusCell.SharedStatus.WriteDesired: leaves out `lastActivity`, a time that the same call writes.
- PortWiring.LoadConfig: the two timeouts reach the environment as text and are not parsed.
- Wakeup.HibernateThenWake: assumes distinct resources and explicit replica counts, as the API server's defaulting provides; for the others `ReconcileLaws.ScaleDownTurnsOff` says what happens.
- Hibernation.SleepsAfterWaking: assumes explicit counts, and no negative declarations, as the API server enforces; what declares zero is on.
- Wakeup.WakesIff: assumes distinct resources, and explicit counts where zero is declared, as the API server's defaulting provides.
- Routing.RequestReachesDeclaredTarget: follows port numbers and not protocols, and Services that translate ports, not headless ones; nothing but the proxy takes addresses in its container, and the main component is not the proxy. For a spec that is not wired, where the requests go in a given cluster is `Routing.ArrivesIff`.
- Routing.ServiceWriter.EnsureBackendService: leaves out annotations, Service type and the optional fields of the managed Service.
- Routing.ServiceWriter.EnsureServices: leaves out the account, role and Deployment steps around the two Services.
- In a reconcile an API write that returns an error has not been made; only the proxy's status write may have been accepted without the proxy knowing.
- `ProxySystem` follows one proxy process in full; other proxy processes appear by what they read and write in the stored status, which is all that they share.
