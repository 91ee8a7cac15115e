# Verified model of the container updater

This Dafny project models the decision logic of a container-update orchestrator and proves what it
promises, whatever the Docker daemon, the compose updater or the self-updater do in between.

- `Deps.dfy` reads a container's dependencies off its settings and sorts containers by them with a three-colour
  depth-first search that reports a real cycle when there is one.
- `Matching.dfy`, `RestartScanning.dfy` and `RestartOrder.dfy` find the containers due for an update, mark
  everything that depends on them, and order what is marked.
- `ComposeGroups.dfy`, `Compat.dfy`, `Recreate.dfy`, `StandalonePhase.dfy` and `RestartRunning.dfy` carry a run
  out: compose projects first, standalone containers stopped backward and created forward with rollback,
  self-updates last. `RunTheorems.dfy`, `RestartService.dfy`, `HostTheorems.dfy` and `Convergence.dfy` state what a
  whole run guarantees and what running it again does; `ChainedKeys.dfy` is a run that leaves its host unsettled.
- `PendingStore.dfy`, `Results.dfy` and `Apply.dfy` apply pending updates: pull, restart, keep or clear the
  records, account for everything.
- `StatusSet.dfy` and `ClientProvider.dfy` are the two lock-free protocols, as interleavings of atomic
  steps of any number of calls.
- `Challenge.dfy` reads a registry's Bearer challenge.

`Host.dfy` is the environment: a daemon with unique container names whose calls may fail at any time, a
failed start that may have started, a failed stop or remove that may have happened (unless
`atomicFailures`), reads that may fail (unless `reliableReads`), a compose updater and a self-updater that may
each change any container, and an image puller. Its ghost trace lists the calls that may change a
container, each with the candidate it was made for; theorems about runs are theorems about this trace.
Reference normalization and the label predicates are uninterpreted functions of the configuration.

`HostTheorems.dfy` says it in the terms of the host alone, its containers' names, settings, images and labels and
the policy's answers: which containers take part, which are due and restart, what each is moved to, in what order,
and that all others are left as they are.

What holds of a whole run is collected in `RestartService.RunHolds`, which the method for a restart run
ensures of every run that comes through; the theorems about runs take it as their premise. As the
self-updater may change anything, what results say of containers is stated of the containers as the
standalone phase left them, which are those at the end if no self-update was triggered. Methods with
many invariants are verified with all definitions hidden, so the short lemmas beside them each open one
definition for one step.

Where an expected property is not true of the code, the project has the counterexample and the exact
condition:

- The status is a set and not a counter (`OverlapDropsId`): all along a run it lists an ID if and only if the ID is
  begun and not ended, if and only if no end of the ID takes effect while another begin of it is held
  (`CountsExactly`); begins that do not overlap are enough (`HeldIffListed`).
- Dependency order holds if and only if the dependency is of no later class (`DependencyOrder`); a container that
  depends on an agent is handled before it (`LaterClassGoesFirst`).
- A project ID shared by two names loses the first (`SharedProjectLosesContributor`): a contributor finds its group
  if and only if the last contributor to its ID gives the same project name (`ContributorFindsGroup`).
- A compose candidate that could be inspected only after the groups were built has its project updated by a list
  that may lack its service (`UninspectedServiceIsMissed`): the list has it if and only if some candidate
  contributed it, as this one did if it was inspected by then (`ComposeCandidateIsServed`).
- The host's own container, when known only by its ID, is left to the self-updater, but its service still is in
  the list its project is updated with (`SelfByIDStillContributes`); a contributor is left to the self-updater if
  and only if that is so (`ContributorIsRouted`, `ContributorsInRun`).
- A second run may move a container on when update keys chain (`ChainedKeysMoveOn`): a successful standalone run
  settles the host if and only if every plan it carried out stays put, a test on the plans and images of before
  the run (`SuccessSettlesExactly`). This takes refreshed labels to keep the policy and the compose labels, as
  `container.go:465-499` does for policies that ignore the image labels it touches.

The comment at `restart.go:168-169` puts self-update targets last; the code orders by the agent and server
labels only, so the model's classes are those (`restart_helpers.go:37-61`). The comment at `restart.go:287-289`
says the server, which hosts the process, is handled last; a host known only by its container ID and without a
server label is of the normal class, and its self-update is triggered before those of agents and servers
(`SelfUpdateOrder`).

## Model

| member | source | states |
|---|---|---|
| Deps.ExtractContainerDeps | internal/deps/sorter.go:63-101 | the dependencies in the order of the links, the label's pieces and the shared network, as `DependenciesExact` characterizes them |
| Deps.DependenciesExact | internal/deps/sorter.go:63-101 | a container depends on exactly the names its settings spell: by a link, with or without a slash before and an alias after the name; between the commas of the depends-on label, white space aside; or as the container whose network it shares |
| Strings.SplitOnIs | internal/deps/sorter.go:82 | splitting gives exactly the stretches between separators |
| Deps.ContainerSorter.constructor | internal/deps/sorter.go:34-46 | a fresh sorter; of two containers with one name the index keeps the last |
| Deps.GetAllDependencies | internal/deps/sorter.go:153-165 | exactly the dependencies of all three kinds, each once, in the order of first mention |
| Deps.FirstOccurrencesExact | internal/deps/sorter.go:153-165 | dropping repeats loses no name and keeps no repeat |
| Deps.ContainerSorter.Visit | internal/deps/sorter.go:123-151 | terminates by the names not yet marked; restores the marks on every return; either reports a simple cycle of real edges or ends with the container visited after everything it reaches |
| Deps.ContainerSorter.VisitDependencies | internal/deps/sorter.go:140-146 | all listed dependencies are visited unless one closes a cycle; only what the container reaches is appended |
| Deps.ContainerSorter.Sort | internal/deps/sorter.go:49-58 | a reported cycle is a simple cycle of real dependency edges; otherwise the output lists dependencies first and moves nothing without a dependency to justify it; with unique names it is a permutation, and success means the graph is acyclic |
| Deps.WalkGoesBack | internal/deps/sorter.go:123-151 | in an ordered list every indirect dependency stands strictly before its dependents |
| Deps.OrderedIsAcyclic | internal/deps/sorter.go:123-151 | an order with dependencies first exists only if no cycle does |
| Deps.OrderedIsKept | internal/deps/sorter.go:49-58 | containers already in dependency order come out exactly as they went in |
| Deps.SortIsIdempotent | internal/deps/sorter.go:49-58 | sorting a sorted list changes nothing |
| Matching.VerifyComposeServiceUpdatedImage | internal/match/matching.go:81-115 | passes only if some container of the service runs and none runs the old image (or a name is blank); with reliable reads passes exactly then |
| Matching.ImageIDLikeIs | internal/match/matching.go:117-131 | a reference is taken for an image ID exactly if, trimmed, it begins with `sha256:` in either case |
| Matching.MatchedByFirst | internal/match/matching.go:30-56 | a container is matched by the first of its image IDs that is keyed, else by the first of its references that is, by none only if none is |
| Matching.CurrentImageIs | internal/match/matching.go:70-79 | the image a container is on is the listed one unless that is blank, else the inspected one |
| RestartScanning.SkippedExactly | restart_helpers.go:14-25 | a listed container is skipped exactly if any of its names, slash aside, is excluded or the proxy's, its labels opt out, or it is a swarm's task and no self-update target |
| RestartScanning.DisplayedAs | container.go:440-451 | a container is displayed as its first name without the slash, or without a name by the first twelve characters of its ID |
| RestartScanning.RestartScan.Scan | restart.go:69-100 | a plan for exactly the summaries that are not skipped, which on the host are the containers of `HostTheorems.DiscoveredExactly`, marked exactly if their plan names an update |
| RestartScanning.PlanContainer | restart.go:86-96 | the plan is explicit exactly if it names a reference, and with reliable reads names exactly the reference the container is due, blank when it is already on it |
| RestartScanning.RestartScan.ResolveRestartDependencies | restart.go:128-148 | dependencies come from the inspect response of the same container, so are those of `HostTheorems.DiscoveredDependencies`; only inspect responses are added to plans; without marks nothing is read |
| RestartScanning.RestartScan.UpdateImplicitRestart | internal/deps/sorter.go:106-121 | returns exactly the names newly marked, each once; none only when the marks are closed under dependents; never marks outside a closed superset |
| RestartScanning.RestartScan.PropagateImplicitRestarts | restart.go:152-166 | ends within one round more than there were unmarked names, in the least closed set of marks; exactly the newly marked plans without a reference become implicit, on their own image |
| RestartScanning.FallbackIs | restart_helpers.go:27-35 | an implicit restart is from the inspected configured image, or from the listed one if that is blank |
| RestartScanning.ClosureIsReachability | internal/deps/sorter.go:103-121 | the closure is exactly the initial marks and all containers that reach one through scanned containers |
| RestartScanning.ClosureIgnoresOrder | restart.go:152-166 | the closure does not depend on the order of the containers |
| RestartOrder.OrderSelfUpdateLast | restart_helpers.go:37-61 | the stable partition into normal, agent and server containers |
| RestartOrder.LaterLabelsWin | restart_helpers.go:63-83 | of the labels of a candidate's four sources the later source's wins, and none is lost |
| RestartOrder.PartitionIsPermutation | restart_helpers.go:37-61 | the partition loses, adds and repeats nothing |
| RestartOrder.PartitionKeepsOrder | restart_helpers.go:37-61 | order is kept inside a class; normal before agent before server across classes |
| RestartOrder.SortRestartCandidates | restart.go:170-183 | a permutation of the marked containers: the partition of the marked containers in dependency order, or in discovery order when their dependencies form a cycle |
| RestartOrder.DependencyOrder | restart.go:168-183 | without a cycle, a candidate comes after an indirect dependency if and only if that dependency is of no later class |
| RestartOrder.LaterClassGoesFirst | restart_helpers.go:37-61 | a concrete container handled before the agent it depends on, in whichever order they were found |
| Host.Host.ImageIDs | internal/digestcheck/digestcheck.go:143-169 | the image a reference names, else the images with a tag that normalizes alike, or nothing on failure |
| Host.Host.ContainerRunning | container.go:324-331 | an answer is the true state of an existing container |
| Compat.ResolvePrimaryNetwork | internal/compat/compat.go:207-223 | the network mode's own endpoint if it has settings, else the first network by name |
| Compat.PrepareCreateOptions | internal/compat/compat.go:98-135 | splits only for old daemons with several endpoints, into the primary and all the others |
| Compat.SplitIsPartition | internal/compat/compat.go:98-135 | the two parts are disjoint and together exactly the requested endpoints with their settings |
| Compat.ConnectExtraNetworks | internal/compat/compat.go:138-159 | nothing without an ID or extras; no success on a container that does not exist; otherwise on success all extras are attached; on failure a name-sorted proper prefix of them is; only connect calls are made |
| Compat.ContainerCreate | internal/compat/compat.go:68-85 | on success the container is exactly as requested; on a connect failure its ID is still returned and it holds the primary and a name-sorted prefix of the extras; a failed create leaves nothing |
| Compat.SplitRefinesSingleCall | internal/compat/compat.go:64-85 | the old-daemon path ends in the same containers as one create call, up to the network mode it fills in when that was blank |
| Recreate.StopAndRemove | container.go:221-244 | no other container is touched; success means the old one existed and is gone; a failed stop, or a failure-atomic failed removal, leaves it |
| Recreate.WantedKeepsNetworks | container.go:411-440 | unless another container's network is shared, exactly the old networks are asked for, a given endpoint with all its settings, its MAC address only on a recent API, and a nil one blank; else none |
| Recreate.CreateAndStart | container.go:246-322 | success means exactly one container more, running, on the new image, under the old name, with the old host configuration and kept or refreshed labels, on exactly the old networks with their settings; otherwise any created one is named by the returned ID |
| Recreate.RemoveFailedCreated | container.go:333-346 | a blank ID does nothing; otherwise one forced removal of the trimmed ID is attempted and no other container is touched |
| Recreate.Rollback | container.go:348-364 | success means a container on the old image runs; failure leaves no created container without an attempted forced removal |
| Recreate.RolledBackHolds | container.go:202-212 | a rollback under the old name can only have succeeded if the failed container was gone, so the survivor is the only container added |
| Recreate.CreateStartOrRollback | container.go:202-212 | the outcome reported is what the daemon holds, for every pattern of failures; everything else is kept; calls are made only on containers it created; each created container survives by a success or had a forced removal attempted |
| Recreate.UpdateStandaloneContainer | container.go:185-200 | refusals touch nothing; stop and remove errors create nothing and keep the old container; otherwise the old one is gone and the outcome says what took its place, on the old networks and with the old host configuration |
| ComposeGroups.BuildComposeGroups | compose_groups.go:16-52 | a group for exactly the projects contributed to, listing each contributed service once, in the order of first mention, under the project name the last contributor gave; no other candidate contributes |
| ComposeGroups.ComposeProjectID | compose_groups.go:54-64 | some group of that name, whichever the map's order gives first, or blank when none has it |
| ComposeGroups.SearchFindsGroup | compose_groups.go:54-64 | in a run's own groups a name leads to one group at most, so the order of the search does not matter |
| ComposeGroups.ContributorFindsGroup | compose_groups.go:16-64 | a contributor finds its group if and only if the last contributor to its ID among the sorted candidates gives the same project name, always when project lookup is injective; its service is in the list |
| ComposeGroups.SharedProjectLosesContributor | compose_groups.go:36-41 | two project names with one ID: in all groups the builder may return, the later contributor finds the group and the earlier one does not |
| StandalonePhase.StopPass | restart.go:331-343 | last to first, one stop call each and a removal unless it failed; only the candidates' containers are touched; failures are of the stop or the removal and leave the container as they say |
| StandalonePhase.CreatePass | restart.go:345-375 | first to last; a candidate whose stop failed stays failed and gets no call; the one created container exempt from clean-up is the running replacement or the old one restored, as its result says, and there is none after any other failure |
| StandalonePhase.UpdateStandaloneRestartCandidates | restart.go:318-384 | one result per candidate in order; all stops and removals before all creations, none of the latter after a failed stop or removal; every other container is kept; results tell how things stand; if none failed, every candidate's container was replaced |
| StandalonePhase.DependsOnTheSame | container.go:265-300 | a container in another's place depends on exactly the same names, if refreshed labels keep the depends-on label and no network is named like a shared one |
| RestartRunning.RestartRun.ApplyComposeServiceUpdate | restart.go:386-428 | the project is updated exactly if it was not before, with its group's services; updated is reported only for a service verified to have moved on, and with reliable reads for every such service, whatever the project update reported |
| RestartRunning.RestartRun.DispatchRestartCandidate | restart.go:232-285 | exactly one result is appended; the candidate is settled or queued by its route; the only call is the update of a compose-routed candidate's project, made exactly if that was not made before; only its plan's inspect response may change |
| RestartRunning.RestartRun.RouteCandidate | restart.go:242-284 | the result, queue and calls of each route: skipped, compose, self-update, refused, recreate |
| RestartRunning.RestartRun.Record | restart.go:260-284 | results, queues and saved indexes stay aligned |
| RestartRunning.RestartRun.PatchStandalone | restart.go:216-223 | each standalone result replaces exactly its own candidate's open result |
| RestartRunning.RestartRun.TriggerDeferredSelfUpdates | restart.go:290-309 | each queued self-update is triggered once, in order, and its own result filled in; without a self-updater all fail and none is triggered |
| RestartRunning.ExecuteRestartPlans | restart.go:199-227 | one final result per sorted candidate with a plan, in order; the calls are exactly the compose, stop, create and self-update blocks, with a compose call for the project of every compose-routed candidate and for no other; a candidate whose stop or removal failed gets no creation call; plans change only by inspect responses |
| RestartRunning.DispatchAll | restart.go:208-214 | the candidates with a plan are dispatched in order; if all are standalone, nothing is called yet |
| RestartRunning.FinishRun | restart.go:216-226 | patching by saved index puts every phase's results at their candidates and leaves none open; each standalone result tells the calls made for it and what they left |
| RunTheorems.RunIsPhased | restart.go:199-227 | in every run compose updates precede all standalone work, every stop and removal every creation, and self-updates come last |
| RunTheorems.StopsGoBackward | restart.go:332-343 | of two standalone candidates the later one is stopped first |
| RunTheorems.CreatesGoForward | restart.go:345-375 | of two standalone candidates everything to create the earlier one comes first |
| RunTheorems.EveryStandaloneIsStopped | restart.go:332-343 | each standalone candidate's own container is asked to stop |
| RunTheorems.DependentsStopFirst | restart.go:312-384 | without a cycle, a standalone dependent is stopped before and created after everything standalone it depends on that is of no later class |
| RunTheorems.SelfUpdateOrder | restart.go:287-309 | of two self-updates the first triggered is the one of the earlier class, or of the same class and earlier in base order; so the host's own goes last only if no other comes after it so |
| RunTheorems.ServersUpdateLast | restart.go:287-309 | in particular normal containers and agents come before servers |
| RunTheorems.ResultsAreFinal | restart.go:208-226 | every result is updated, restarted, skipped or failed, under its candidate's name, ID and images, with flags that agree; a standalone success is restarted exactly for an implicit plan, and nothing else is; skipped exactly when the plan named no reference |
| RunTheorems.RouteIs | restart.go:242-284 | a candidate with an update goes to the self-updater if and only if it is a target by label or the host's own container by ID, else through compose if and only if it is a service of a project with a group, else it is recreated; none is refused |
| RunTheorems.OnlyStandaloneIsRecreated | restart.go:232-285 | every stop, removal and creation is made for a standalone candidate, on its own container or on one created for it; so no container that is a self-update target by label or by ID, and none of a found compose group, is ever stopped, removed or recreated |
| RunTheorems.ComposeProjectsOnce | restart.go:397-406 | over a whole run each project is updated at most once, with a service list free of repeats that only eligible candidates asked for |
| RunTheorems.ComposeCandidateIsServed | restart.go:242-284 | each compose-routed candidate's project is updated by exactly one call of the run; its list holds the candidate's service if and only if some candidate contributed it, and whenever this one was inspected before grouping |
| RunTheorems.UninspectedServiceIsMissed | compose_groups.go:24-26 | a candidate inspected only at dispatch is routed through the update of a project whose list lacks its service, whatever groups are built |
| RunTheorems.ContributorIsRouted | restart.go:251-284 | a contributor goes to the self-updater if and only if it is the host's own container by ID, else through compose if the last contributor gives its project the same name, else it is recreated |
| RunTheorems.ContributorsInRun | restart.go:199-285 | the same over a whole run: its kind, the update of its project, and its service in every update of that project |
| RunTheorems.SelfByIDStillContributes | compose_groups.go:28-30 | a concrete candidate, self-updating by container ID only, whose service its compose group still lists |
| RestartService.RestartContainersUsingOldImages | restart.go:21-48 | an error leaves the host alone; otherwise everything proved of discovery, order and execution, compose calls included, holds of one run from the host it found; what that is for the host's containers is in `HostTheorems.dfy` |
| RestartService.ScanHost | restart.go:34-42 | with the daemon's unique names the scanned containers are uniquely named, before and after their dependencies are read |
| RestartService.Discover | restart.go:34-46 | reads only; the sorted candidates are exactly the marked containers |
| RestartService.FoundContainer | restart.go:78-92 | each discovered container is an eligible running one, under its daemon name, with the plan made for it |
| RestartService.PlanReason | restart.go:93-98 | a marked plan is exactly one of explicit and implicit, an unmarked one neither and without a reference; explicit exactly if the container was due |
| RestartService.ResultsNameTheClosure | restart.go:21-48 | there is exactly one result for each name in the closure and none for any other |
| RestartService.RunStopsDependentsFirst | restart.go:21-48 | the dependency order of stops and creations, for whole runs |
| RestartService.StandaloneIDsDiffer | restart.go:280-281 | no two standalone candidates of a run stand for one container |
| RestartService.ResultsTellHowThingsStand | restart.go:331-375 | after the standalone phase a success means a running container on the new image under the old name, with the old host configuration, on the old networks with their settings, and with kept or refreshed labels; a successful rollback one on the old image, likewise; a failed stop that the old container is still there |
| RestartService.FailedStopCreatesNothing | restart.go:345-361 | a candidate whose stop or removal failed has no calls in the whole run but the stop and, after a stop that worked, the unforced removal |
| RestartService.EveryCreationIsAccountedFor | container.go:202-212 | every container a run created stood after the standalone phase as its candidate's result says, or had a forced removal attempted |
| HostTheorems.DiscoveredExactly | restart_helpers.go:14-25 | exactly the running containers are discovered whose names are neither excluded nor the proxy's, whose labels do not opt out, and that are no swarm's task unless a self-update target |
| HostTheorems.LeftAloneIsUntouched | restart.go:78-80 | any other container has no result and no call made for it, is not stopped, removed or handed to the self-updater, and stands after the standalone phase as before |
| HostTheorems.CallerIsCandidate | restart.go:199-227 | every call is made for a candidate; a stop, an unforced removal and a self-update are on its own container, a forced removal, a connect and a start on one created for it |
| HostTheorems.SelfUpdateIsOn | restart.go:290-309 | a self-update is of the candidate's container, to its plan's reference, with the labels of its inspect response |
| HostTheorems.MatchedIs | internal/match/matching.go:30-68 | the update a container matches and by which key: its image ID, else the reference it was created from, else, when the listing is inconclusive, its image taken as a reference |
| HostTheorems.DueExactly | restart.go:86-98 | a container is due to move to a reference if and only if it matches it and the reference does not resolve to the image it is on |
| HostTheorems.PlansOnHost | restart_helpers.go:27-35 | an implicit plan is to the container's own configured image, by a dependency restart; with reliable reads an explicit one is to the reference the container is due to move to, by its key |
| HostTheorems.DiscoveredDependencies | restart.go:128-148 | with reliable reads and something due, a discovered container depends on a name if and only if the host's container of that ID does, by its own settings |
| HostTheorems.MarkedExactly | restart.go:152-166 | with reliable reads a container is marked if and only if a chain of containers that take part, each depending on the next, leads from it to one that is due |
| HostTheorems.ResultsAreOfTheRestarted | restart.go:21-48 | with reliable reads a whole run has a result for a container if and only if it restarts so |
| HostTheorems.LabelsAreTheContainers | restart_helpers.go:63-83 | the labels merged for a candidate are those of the host's container |
| HostTheorems.HandledByClass | restart_helpers.go:37-61 | normal containers are handled before agents, and agents before servers, as the policy answers on the containers' labels |
| HostTheorems.CyclesAgree | internal/deps/sorter.go:123-151 | the candidates have a cycle if and only if the dependencies of the containers that restart do |
| HostTheorems.DependentsStopFirstOnHost | restart.go:21-48 | if those have no cycle and lead from one container to another of no later class, a whole run stops the first before the other and creates it after |
| Convergence.NoCandidatesNoCalls | restart.go:199-227 | a run without candidates makes no call of any phase |
| Convergence.SettledRunDoesNothing | restart.go:88-97 | when no eligible container is due, a run returns no results, makes no call and changes no container |
| Convergence.OnTargetIsNotDue | restart.go:88-90 | a container is not due exactly if its match, if any, resolves to the image it is on |
| Convergence.SuccessSettlesExactly | restart.go:21-48 | after a standalone-only run without failures the host is settled if and only if, for every marked plan, the container moved to the plan's reference and its image has no match or one that resolves to that image |
| Convergence.MatchIsTarget | internal/match/matching.go:30-55 | a match comes from the image ID, the image reference or the image taken as a reference |
| Convergence.SuccessSettles | restart.go:21-48 | convergence: if keys matching a recreated container's image map to a reference with the same image, a successful standalone run settles the host |
| Convergence.SecondRunIsIdle | restart.go:21-48 | under the same proviso, running again returns nothing and makes no call |
| ChainedKeys.ChainedKeysMoveOn | restart.go:120-123 | a concrete run that replaces its container without a failure and leaves it due to move again, so its plan does not stay put |
| StatusSet.BuildSnapshot | status.go:61-86 | the slice to publish is the sorted set with the ID added or removed, built in fresh memory while the published one is only read, or there is nothing to publish |
| StatusSet.StatusSnapshot | status.go:44-53 | a caller gets a copy of its own |
| StatusSet.StepsAreDetermined | status.go:55-91 | an atomic step has one outcome: the slice to publish is unique |
| StatusSet.BeginIsTrimmed | status.go:32-36 | a begin with a blank ID does nothing; any other is for the ID without the white space around it |
| StatusSet.OnlyTrimmedAreListed | status.go:32-42 | so in every run no blank or padded ID is ever listed |
| StatusSet.NextKeepsInv | status.go:55-91 | every atomic step keeps sortedness, linearization, ownership and the charging of failed swaps |
| StatusSet.StepLinearizes | status.go:59-90 | a step leaves the published set alone or is the moment exactly one call takes effect |
| StatusSet.RunKeepsInv | status.go:55-91 | the invariant holds in every reachable state of any number of calls |
| StatusSet.SlicesAreImmutable | status.go:72-86 | published slices are only ever added to, each strictly increasing, and a returned call stays as it was; that the code does not write into one is `BuildSnapshot` |
| StatusSet.RunIsLinearizable | status.go:55-91 | the published set is that of the completed calls run one at a time, in an order that respects real time |
| StatusSet.AllEndedIsEmpty | status.go:32-42 | once every begin has been ended the set is empty |
| StatusSet.FailuresAreBounded | status.go:59-90 | a call's failed swaps never outnumber the successful swaps of the other calls |
| StatusSet.ThreadFailuresAreBounded | status.go:59-90 | the failed swaps of a thread's calls together never outnumber the successful swaps of the calls of other threads |
| StatusSet.ListedExactly | status.go:66-81 | an ID is listed exactly if the last call on it to take effect is a begin |
| StatusSet.CountsExactly | status.go:32-42 | all along a run an ID is listed if and only if it is begun and not ended, if and only if whenever an end of the ID takes effect every other begin of it to have taken effect has been ended |
| StatusSet.HeldIffListed | status.go:32-42 | in particular when the begins of the ID do not overlap in effect, as when a run begins an ID again after its end |
| StatusSet.HeldIsListed | status.go:32-42 | and when no ID is begun twice |
| StatusSet.OverlapDropsId | status.go:66-81 | with two overlapping begins the first end removes the ID: a set, not a counter |
| ClientProvider.ActionFits | defaults.go:60-111 | how each step of a call moves ownership of a client; what a call answers is below |
| ClientProvider.StepKeepsInv | defaults.go:60-111 | every atomic step keeps the ownership invariant |
| ClientProvider.ExactlyOnePlace | defaults.go:60-111 | each opened client is installed, owned by one call, or closed, and only one of these; none is installed or closed twice |
| ClientProvider.ReturnedOwnsNothing | defaults.go:60-98 | a returned call owns no client, and a client it returned was installed |
| ClientProvider.QuietLeavesAtMostOneOpen | defaults.go:87-97 | when all calls have returned at most the installed client is open |
| ClientProvider.FinalCloseLeavesNoneOpen | defaults.go:102-111 | after a final close every client ever opened has been closed exactly once |
| ClientProvider.LiveClientIsReturned | defaults.go:64-74 | a call on its own while a client is installed that answers the ping returns it and changes nothing else |
| ClientProvider.DeadClientIsRetired | defaults.go:64-74 | if the ping fails, it takes the client out, closes it and returns none |
| ClientProvider.FreshClientIsInstalled | defaults.go:77-89 | with none installed, it opens a client and, if that answers, installs and returns it |
| ClientProvider.DeadFreshClientIsClosed | defaults.go:81-86 | a fresh client that does not answer is closed and not installed |
| ClientProvider.LoserReturnsTheWinner | defaults.go:87-97 | a call that comes to install its client when another is installed, and is left to itself, closes its own and returns the installed one |
| ClientProvider.OnlyLiveClientsAreReturned | defaults.go:60-98 | in every run, the client a call returns answered the call's last ping, or the call's own fresh client did, which it closed on losing to the one it returns |
| ClientProvider.ClientExactlyOnSuccess | defaults.go:60-98 | in every run, whatever the other calls do meanwhile, a call returns a client if and only if none of its pings, opens and closes fails |
| ClientProvider.LoneClose | defaults.go:102-111 | a close on its own takes out and closes the installed client, if any |
| PendingStore.RefsExactly | types.go:91-111 | a record is about its trimmed repository and tag, neither blank; it leads to the repository with the latest version, if it is a tag update that knows one, and else to what it is about |
| PendingStore.MemoryPendingStore.constructor | memory_store.go:15-21 | the store holds, for each key, the last record given under it |
| PendingStore.RecordsAreFound | memory_store.go:58-63 | a record with an ID is found under it, unless a later record takes that key |
| PendingStore.NamedRecordsAreFound | memory_store.go:58-63 | a record without one is found under the image it is about, likewise |
| Strings.LessByFirstDifference | memory_store.go:36 | the key order is that of the first differing character, an end being smaller than any |
| PendingStore.MemoryPendingStore.PendingImageUpdates | memory_store.go:23-43 | every stored record once, in strictly increasing key order, unless cancelled |
| PendingStore.MemoryPendingStore.ClearImageUpdateRecord | memory_store.go:45-56 | removes exactly the record's key, or nothing if cancelled |
| PendingStore.ClearPendingRecord | container.go:161-182 | clears exactly the records whose new reference normalizes like the applied one; a cancellation can only keep more |
| PendingStore.AppliedExactly | container.go:161-182 | exactly which stored records that is, by their fields |
| Results.RunResult.AddPlanItem | apply.go:64-79 | keeps every counter equal to the number of items with its status |
| Results.RunResult.ApplyResultCount | results.go:20-33 | counts the item under exactly its own status |
| Results.RunResult.AddContainerItems | apply.go:149-153 | restart results are all counted and never as checked |
| Results.RunResult.Finish | results.go:14-17 | success exactly without an error and without a failed item |
| Results.CountsAddUp | results.go:20-33 | each item falls under exactly one status |
| Apply.BuildUpdatePlans | apply.go:229-257 | a plan for exactly the records with an update whose image is used, in store order, from the image each is about to the one it leads to, with the images its old reference stands for and the record's own ID if it looks like one |
| Apply.ImageIDsOverlap | apply.go:259-276 | exactly whether two IDs agree once trimmed, blanks aside |
| Apply.ExecuteUpdatePlan | apply.go:94-138 | a dry run skips; otherwise skipped exactly if unforced and the registry says that it is current; all else is asked of the puller, once and for the new reference, if there is one; pulled exactly if the item is updated or up to date; up to date only if the pulled image is one of the old ones |
| Apply.PointOldIDs | apply.go:72-74 | every old image ID of the plan points at its new reference |
| Apply.NormalizeMapKeys | refs/reference.go:66-74 | the map under normalized keys, values from a key that normalizes so, none lost |
| Apply.RestartFailedImageRefs | apply.go:189-200 | the normal forms of the references named by failed results |
| Apply.MarkRestartFailedPlans | apply.go:172-187 | exactly the pulled plans whose reference a container failed to move to are marked |
| Apply.ClearAppliedPlanRecords | apply.go:157-170 | removes the records of exactly the pulled plans that are not marked, unless cancelled |
| Apply.ExecutePlans | apply.go:61-81 | one item per plan in order, all counted; exactly the new references of the plans that get to the puller are asked of it, in order; the updates asked of the restart are exactly those of the updated plans |
| Apply.RestartAfterApply | apply.go:143-155 | no restart without an updated plan; its results are appended and counted; its failures mark the plans |
| Apply.PreparePlans | apply.go:21-46 | fails only on a cancelled context or unknown used images; otherwise a plan for exactly the relevant records, none when nothing is stored or used |
| Apply.ApplyPlans | apply.go:48-88 | an error or a dry run leaves the store alone; otherwise it loses exactly the records that are done with |
| Apply.ApplyPending | apply.go:17-89 | items are the plan items then the container results; checked counts the plans and every other counter its items; success exactly without error and failed item; the puller is asked for what the items say; the store keeps all but the done records |
| Apply.DoneExactly | apply.go:157-200 | a stored record is cleared exactly if it was relevant, its image was pulled and no failed container result names its new reference |
| Apply.FailedRefsExactly | apply.go:172-200 | the references held back are exactly those some inspected container failed to move to; a failed inspect holds back none |
| Challenge.SplitAuthParams | registry/registry_http.go:259-283 | the trimmed pieces between the commas outside quotes, a last empty piece dropped |
| Challenge.PiecesAreSplit | registry/registry_http.go:259-283 | the pieces joined by commas are the text; no piece has a comma outside quotes and all but the last close their quotes |
| Challenge.SplitIsUnique | registry/registry_http.go:259-283 | no other list of pieces has these properties |
| Challenge.ParseWWWAuth | registry/registry_http.go:223-243 | nothing without the Bearer scheme; otherwise the last value given for each of the two keys |
| Challenge.OnlyBearerIsRead | registry/registry_http.go:224-228 | a challenge is looked into exactly if, trimmed, it begins with the word Bearer, each letter in either case, and a space |
| Challenge.CoreIsRead | registry/registry_http.go:231-236 | a printed parameter is read back as its key in lower case and its value |
| Challenge.RoundTrip | registry/registry_http.go:223-243 | parsing a printed Bearer challenge gives back each value under its key, so the realm and the service, for any order, spacing around commas and letter case of scheme and keys |

## Left out

- Docker, registry and compose I/O: HTTP, TLS, tokens, credentials and the compose command are the abstract calls of `Host.dfy`.
- Reference, digest and URL parsing: they rest on a library that is not part of this model; normalization is an uninterpreted function.
- API version parsing: reduced to whether the daemon takes several endpoints and per-network MAC addresses.
- Host configuration: only its network mode and links; engine detection, cloning of container configs and the clearing of hostnames and ports are copying of fields.
- Image label refresh: the labels a container is recreated with are an uninterpreted function of the old labels and the new reference; one theorem assumes that it keeps the policy's answers and the compose labels.
- Memoized image lookups: lookups of one scan are taken from one fixed set of images.
- Status bookkeeping inside runs: runs do not record which containers they mark as updating; the protocol itself is `StatusSet.dfy`.
- Notifications, events, timestamps, contexts and log lines: no effect on the properties, save that a recorder error after a successful start is a failure point of `CreateAndStart` and that a cancelled context is one of the store.
- `UpdateContainer`: its counters are set unevenly across its early returns; only the steps it shares with a run are modelled.
- Error texts: a result's error is one of a fixed list, not its wording.
- Host.Host.Create: a failed create call leaves no container behind, so the model does not cover a daemon that creates one and then reports an error without its ID.
- Challenge.RoundTrip: values contain no quote; the parser does not undo the quoted pairs of section 5.6.4 of RFC 9110, and text is taken as characters, not bytes.
- Apply.ApplyPending: registry digest checks are arbitrary answers; used and excluded containers are given or cannot be determined.
- Deps.ContainerSorter.Sort: with repeated names the permutation clause is not claimed, for the last container of a name stands for all of them.
