/**
 What a restart run does, told by the host's own containers, their settings and the policy's answers: which
 containers take part, which of them restart, in what order, and what each is moved to.
 */
module HostTheorems {
  import opened Wrappers
  import opened DockerTypes
  import opened Strings
  import opened Settings
  import opened Deps
  import opened Host
  import opened Matching
  import opened RestartTypes
  import opened RestartScanning
  import opened RestartOrder
  import opened ComposeGroups
  import opened StandalonePhase
  import opened RestartRunning
  import opened RunTheorems
  import opened RestartService

  // ---------- Who takes part ----------

  /** Containers a run does not touch: named in the request, opted out by label, or a swarm's to replace. */
  ghost predicate LeftAlone(cfg: UpdaterConfig, request: Request, c: Container) {
    || c.name in request.excluded || c.name == request.proxyName
    || cfg.policy.isUpdateDisabled(c.config.labels)
    || (cfg.policy.isSwarmTask(c.config.labels) && !cfg.policy.isSelfUpdateTarget(c.config.labels))
  }

  ghost predicate TakesPart(cfg: UpdaterConfig, request: Request, containers: Containers, id: string) {
    id in containers && containers[id].running && !LeftAlone(cfg, request, containers[id])
  }

  lemma EligibleIs(cfg: UpdaterConfig, request: Request, id: string, c: Container)
    ensures IsEligible(cfg, request, id, c) <==> c.running && !LeftAlone(cfg, request, c)
  {
    var summary := SummaryOf(id, c);
    TrimPrefixIs(c.name, "/");
    assert summary.names[0] == "/" + c.name && |summary.names| == 1;
    hide TrimPrefix;
  }

  /** Discovery finds exactly the containers that take part. */
  lemma DiscoveredExactly(view: View, cfg: UpdaterConfig, request: Request, d: Discovery, id: string)
    requires Discovered(view, cfg, request, d)
    ensures TakesPart(cfg, request, view.containers, id) <==> exists c :: c in d.containers && c.container.id == id
  {
    hide Discovered, IsEligible, LeftAlone, SummaryOf;
    if id in view.containers {
      EligibleIs(cfg, request, id, view.containers[id]);
    }
    if TakesPart(cfg, request, view.containers, id) {
      var c := EligibleIsFound(view, cfg, request, d, id);
    }
    if c :| c in d.containers && c.container.id == id {
      FoundContainer(view, cfg, request, d, c);
    }
  }

  /** A candidate of a run stands for a container that takes part, and carries its name. */
  lemma CandidateTakesPart(cfg: UpdaterConfig, projects: map<string, string>, request: Request, view: View,
                           d: Discovery, log: RunLog, results: seq<ResourceResult>, c: ContainerWithDeps)
    requires Discovered(view, cfg, request, d) && Executed(cfg, projects, d, log, results) && c in log.handled
    ensures c in d.containers && c.name in d.marked && c.name in log.plans && c.name in d.plans
    ensures log.plans[c.name].cnt == c.container == d.plans[c.name].cnt
    ensures TakesPart(cfg, request, view.containers, c.container.id)
    ensures view.containers[c.container.id].name == c.name
  {
    HandledAreSorted(cfg, projects, d, log, results);
    assert UniqueNames(d.containers) && IsBaseOrder(Candidates(d.containers, d.marked), d.base);
    hide Discovered, Executed, Sorted, IsEligible, LeftAlone, SummaryOf, UniqueNames, IsBaseOrder, Candidates;
    CandidatesAreSorted(cfg, d);
    FoundContainer(view, cfg, request, d, c);
    EligibleIs(cfg, request, c.container.id, view.containers[c.container.id]);
  }

  lemma HandledAreSorted(cfg: UpdaterConfig, projects: map<string, string>, d: Discovery, log: RunLog,
                         results: seq<ResourceResult>)
    requires Executed(cfg, projects, d, log, results)
    ensures log.handled == Sorted(cfg, d) && PlansInspected(d.plans, log.plans)
  {
    hide Sorted, PlansInspected, GroupsFit, AllFinished, CallsFit, ComposeFits;
  }

  /** Every call is made for a candidate; those on a container that the run did not create, on the candidate's. */
  lemma CallerIsCandidate(cfg: UpdaterConfig, projects: map<string, string>, log: RunLog, results: seq<ResourceResult>,
                          n: nat)
    returns (c: ContainerWithDeps)
    requires AllFinished(cfg, projects, log, results) && CallsFit(cfg, log) && ComposeFits(cfg, projects, log)
    requires n < |Calls(log)|
    ensures c in log.handled && c.name == Calls(log)[n].owner && c.name in log.plans
    ensures var op := Calls(log)[n];
      && (op.Stop? || (op.Remove? && !op.force) || op.SelfUpdate? ==> op.id == log.plans[c.name].cnt.id)
      && ((op.Remove? && op.force) || op.Connect? || op.Start? ==> CreatedFor(log, op.owner, op.id))
  {
    var op := Calls(log)[n];
    hide *;
    match op
    case UpdateServices(_, _, _) =>
      c := ComposeCaller(cfg, projects, log, results, n);
    case SelfUpdate(_, _, _, _) =>
      c := SelfUpdateIsOn(cfg, projects, log, results, n);
    case _ =>
      IsStandalonePhase(op);
      var k := OnlyStandaloneIsRecreated(cfg, projects, log, results, n);
      c := log.handled[k];
  }

  lemma IsStandalonePhase(op: Op)
    requires !op.UpdateServices? && !op.SelfUpdate?
    ensures 1 <= Phase(op) <= 2
  {
  }

  lemma ComposeCaller(cfg: UpdaterConfig, projects: map<string, string>, log: RunLog, results: seq<ResourceResult>,
                      n: nat)
    returns (c: ContainerWithDeps)
    requires AllFinished(cfg, projects, log, results) && CallsFit(cfg, log) && ComposeFits(cfg, projects, log)
    requires n < |Calls(log)| && Calls(log)[n].UpdateServices?
    ensures c in log.handled && c.name == Calls(log)[n].owner && c.name in log.plans
  {
    var op := Calls(log)[n];
    hide CallsFit, Calls, Finished, ComposeTarget;
    var processed := ComposeCall(cfg, log, n);
    assert CalledFor(cfg, projects, log.groups, log.plans, log.handled, op);
    c :| c in log.handled && c.name == op.owner &&
      ComposeTarget(cfg, projects, log.groups, log.plans, c) == Some(op.projectID);
  }

  lemma SelfUpdateIsOn(cfg: UpdaterConfig, projects: map<string, string>, log: RunLog, results: seq<ResourceResult>,
                       n: nat)
    returns (c: ContainerWithDeps)
    requires AllFinished(cfg, projects, log, results) && CallsFit(cfg, log)
    requires n < |Calls(log)| && Calls(log)[n].SelfUpdate?
    ensures c in log.handled && c.name == Calls(log)[n].owner && c.name in log.plans
    ensures var op, plan := Calls(log)[n], log.plans[c.name];
      && op.id == plan.cnt.id && op.newRef == plan.newRef && plan.inspect.Some?
      && op.labels == InspectLabels(plan.inspect.value)
  {
    RunPhases(cfg, log);
    SelectMembers(log.handled, log.kinds, SelfUpdating);
    var waiting := SelfUpdatesOf(log);
    var queue :| QueueFits(log.plans, waiting, queue) &&
      log.selfUpdates == if cfg.hasSelfUpdater then SelfOps(queue) else [];
    hide CallsFit, Calls, Phase, JoinBack, Join, SelfUpdatesOf, SelfOps, Finished, Select;
    var k := SelfUpdatePart(log, n);
    SelfOpAt(queue, k);
    c := waiting[k];
    assert c in waiting;
  }

  /** A container that does not take part has no result and no call made for it, is not stopped, removed or
      handed to the self-updater, and stands after the standalone phase as it did before. */
  lemma LeftAloneIsUntouched(cfg: UpdaterConfig, projects: map<string, string>, request: Request, atomicFailures: bool,
                             run: RunRecord, after: Containers, results: seq<ResourceResult>, id: string)
    requires RunHolds(cfg, projects, request, atomicFailures, run, after, results)
    requires id in run.view.containers && !TakesPart(cfg, request, run.view.containers, id)
    ensures forall i :: 0 <= i < |results| ==>
              results[i].resourceID != id && results[i].resourceName != run.view.containers[id].name
    ensures forall n :: 0 <= n < |Calls(run.log)| ==>
              var op := Calls(run.log)[n];
              && op.owner != run.view.containers[id].name
              && (op.Stop? || (op.Remove? && !op.force) || op.SelfUpdate? ==> op.id != id)
    ensures id in run.log.found ==> id in run.log.left && run.log.left[id] == run.log.found[id]
    ensures run.log.compose == [] ==> id in run.log.left && run.log.left[id] == run.view.containers[id]
  {
    var log, view := run.log, run.view;
    assert AllFinished(cfg, projects, log, results) && CallsFit(cfg, log) && ComposeFits(cfg, projects, log);
    assert UniqueContainerNames(view.containers);
    hide Discovered, Executed, AllFinished, CallsFit, ComposeFits, TakesPart, StandaloneOf, StandaloneReported, Calls;
    forall i | 0 <= i < |results|
      ensures results[i].resourceID != id && results[i].resourceName != view.containers[id].name
    {
      ResultsAreFinal(cfg, projects, log, results, i);
      CandidateTakesPart(cfg, projects, request, view, run.d, log, results, log.handled[i]);
    }
    forall n | 0 <= n < |Calls(log)|
      ensures var op := Calls(log)[n];
        && op.owner != view.containers[id].name
        && (op.Stop? || (op.Remove? && !op.force) || op.SelfUpdate? ==> op.id != id)
    {
      var c := CallerIsCandidate(cfg, projects, log, results, n);
      CandidateTakesPart(cfg, projects, request, view, run.d, log, results, c);
    }
    StandaloneAreHandled(cfg, projects, run.d, log, results);
    forall k | 0 <= k < |StandaloneOf(log)| && Planned(StandaloneOf(log), log.plans)
      ensures OldID(StandaloneOf(log), log.plans, k) != id
    {
      CandidateTakesPart(cfg, projects, request, view, run.d, log, results, StandaloneOf(log)[k]);
    }
  }

  // ---------- Who is due ----------

  ghost predicate LabelGiven(labels: Labels, key: string) {
    key in labels && TrimSpace(labels[key]) != ""
  }

  /** A container's listing does not tell its image, so its inspect response is consulted. */
  ghost predicate IsInconclusive(cfg: UpdaterConfig, c: Container) {
    var image := TrimSpace(c.config.image);
    || image == "" || NamesImageID(c.config.image)
    || (cfg.hasDigestSuffix(image) && (LabelGiven(c.config.labels, "com.docker.compose.project") ||
                                       LabelGiven(c.config.labels, "com.docker.compose.service")))
  }

  /** The update a container matches, with the key that matches it: by its image ID, else by the reference it was
      created from, else by its image taken as a reference. */
  ghost predicate Matches(cfg: UpdaterConfig, updates: Updates, c: Container, ref: string, key: string) {
    if c.imageID != "" && c.imageID in updates.oldIDToNewRef then
      key == c.imageID && ref == updates.oldIDToNewRef[c.imageID]
    else if HasMatch(cfg, updates.updatedNorm, c.config.image) then
      key == cfg.normalize(TrimSpace(c.config.image)) && ref == updates.updatedNorm[key]
    else if IsInconclusive(cfg, c) && HasMatch(cfg, updates.updatedNorm, c.imageID) then
      key == cfg.normalize(TrimSpace(c.imageID)) && ref == updates.updatedNorm[key]
    else ref == ""
  }

  /** A reference resolves to this image: by naming it, or else by a tag of it that normalizes alike. */
  ghost predicate ResolvesToImage(images: map<string, string>, norm: string -> string, ref: string, id: string) {
    if ref in images then images[ref] == id
    else exists tag :: tag in images && images[tag] == id && tag != id && norm(tag) == norm(ref)
  }

  /** Due to move: matching an update whose reference does not resolve to the image it is on. */
  ghost predicate IsDue(cfg: UpdaterConfig, images: map<string, string>, updates: Updates, c: Container, ref: string,
                        key: string)
  {
    ref != "" && Matches(cfg, updates, c, ref, key) &&
    (TrimSpace(c.imageID) == "" || !ResolvesToImage(images, cfg.normalize, ref, TrimSpace(c.imageID)))
  }

  lemma InconclusiveIs(cfg: UpdaterConfig, id: string, c: Container)
    ensures ShouldInspectUnmatched(cfg, SummaryOf(id, c)) <==> IsInconclusive(cfg, c)
  {
    ImageIDLikeIs(c.config.image);
    hide TrimSpace, IsImageIDLike, NamesImageID;
  }

  lemma MatchedIs(cfg: UpdaterConfig, updates: Updates, id: string, c: Container)
    ensures var m := MatchedUpdate(cfg, SummaryOf(id, c), InspectOf(c), updates); Matches(cfg, updates, c, m.0, m.1)
  {
    RefMatchIs(cfg, c.config.image, updates.updatedNorm);
    RefMatchIs(cfg, c.imageID, updates.updatedNorm);
    InconclusiveIs(cfg, id, c);
    hide ShouldInspectUnmatched, IsInconclusive, ResolveImageRefMatch, TrimSpace, NamesImageID;
  }

  lemma MatchIsUnique(cfg: UpdaterConfig, updates: Updates, c: Container, a: string, k: string, b: string, l: string)
    requires Matches(cfg, updates, c, a, k) && Matches(cfg, updates, c, b, l)
    ensures a == b && (a != "" ==> k == l)
  {
    hide IsInconclusive, HasMatch, TrimSpace;
  }

  lemma ResolvesIs(images: map<string, string>, norm: string -> string, ref: string, id: string)
    ensures id in RefIDs(images, norm, ref) <==> ResolvesToImage(images, norm, ref, id)
  {
  }

  /** The reference a container is due to move to is the one that it matches and is not yet on. */
  lemma DueExactly(cfg: UpdaterConfig, images: map<string, string>, request: Request, id: string, c: Container,
                   ref: string)
    ensures ref != "" && DueRef(cfg, images, request, id, c) == ref <==>
            exists key :: IsDue(cfg, images, request.updates, c, ref, key)
  {
    var m := MatchedUpdate(cfg, SummaryOf(id, c), InspectOf(c), request.updates);
    MatchedIs(cfg, request.updates, id, c);
    ResolvesIs(images, cfg.normalize, m.0, TrimSpace(c.imageID));
    DueIs(cfg, images, request, id, c);
    hide Matches, MatchedUpdate, ResolvesToImage, RefIDs, TrimSpace, DueRef;
    assert ref != "" && DueRef(cfg, images, request, id, c) == ref ==>
        IsDue(cfg, images, request.updates, c, ref, m.1);
    if key :| IsDue(cfg, images, request.updates, c, ref, key) {
      MatchIsUnique(cfg, request.updates, c, ref, key, m.0, m.1);
    }
  }

  lemma DueIs(cfg: UpdaterConfig, images: map<string, string>, request: Request, id: string, c: Container)
    ensures var ref, current := MatchedUpdate(cfg, SummaryOf(id, c), InspectOf(c), request.updates).0,
              TrimSpace(c.imageID);
      DueRef(cfg, images, request, id, c) ==
      if ref != "" && current != "" && current in RefIDs(images, cfg.normalize, ref) then "" else ref
  {
    hide MatchedUpdate, RefIDs, TrimSpace;
  }

  ghost predicate IsDueOnHost(view: View, cfg: UpdaterConfig, request: Request, id: string) {
    id in view.containers &&
    exists ref, key :: IsDue(cfg, view.images, request.updates, view.containers[id], ref, key)
  }

  lemma DueOnHostIs(view: View, cfg: UpdaterConfig, request: Request, id: string)
    requires id in view.containers
    ensures IsDueOnHost(view, cfg, request, id) <==>
            DueRef(cfg, view.images, request, id, view.containers[id]) != ""
  {
    var c := view.containers[id];
    DueExactly(cfg, view.images, request, id, c, DueRef(cfg, view.images, request, id, c));
    hide IsDue, DueRef;
    if ref, key :| IsDue(cfg, view.images, request.updates, c, ref, key) {
      DueExactly(cfg, view.images, request, id, c, ref);
    }
  }

  // ---------- Who restarts ----------

  /** A container depends on `dep`: by a link, its depends-on label, or the network it shares. */
  ghost predicate HostDependsOn(c: Container, dep: Name) {
    SettingsName(c.hostConfig, c.config.labels, dep)
  }

  /** One container depends on another of them. */
  ghost predicate Follows(containers: Containers, id: string, on: string) {
    id in containers && on in containers && HostDependsOn(containers[id], containers[on].name)
  }

  /** What discovery knows of dependencies is what the host's containers spell out. */
  lemma DiscoveredDependencies(view: View, cfg: UpdaterConfig, request: Request, d: Discovery, c: ContainerWithDeps,
                               dep: Name)
    requires Discovered(view, cfg, request, d) && c in d.containers
    ensures c.container.id in view.containers
    ensures DependsOn(c, dep) ==> HostDependsOn(view.containers[c.container.id], dep)
    ensures view.reliable && d.initial != {} && HostDependsOn(view.containers[c.container.id], dep) ==>
              DependsOn(c, dep)
  {
    FoundContainer(view, cfg, request, d, c);
    ReadOff(view, cfg, request, d, c);
    hide Discovered, SettingsName, WithDependencies, DependsOn, IsEligible;
    DependenciesExact(c.name, c.container, InspectOf(view.containers[c.container.id]), dep);
    NoDependencies(c.container, dep);
  }

  lemma NoDependencies(c: Summary, dep: Name)
    ensures !DependsOn(Unresolved(c), dep)
  {
  }

  /** A discovered container has no dependencies yet, or those of its inspect response. */
  lemma ReadOff(view: View, cfg: UpdaterConfig, request: Request, d: Discovery, c: ContainerWithDeps)
    requires Discovered(view, cfg, request, d) && c in d.containers && c.container.id in view.containers
    ensures
      || (c == Unresolved(c.container) && (d.initial == {} || !view.reliable))
      || c == WithDependencies(c.name, c.container, InspectOf(view.containers[c.container.id]))
  {
    var k := FoundAt(d.containers, c);
    ScannedUnresolved(view, cfg, request, d, k);
    assert d.initial != {} ==>
        Resolved(view, d.scanned, d.containers, d.scannedPlans, d.resolvedPlans, |d.scanned|);
    hide Discovered, WithDependencies, Unresolved, InspectOf;
    assert d.initial == {} || ResolvesTo(view, d.scanned[k], d.containers[k]);
  }

  lemma ScannedUnresolved(view: View, cfg: UpdaterConfig, request: Request, d: Discovery, k: nat)
    requires Discovered(view, cfg, request, d) && k < |d.containers|
    ensures |d.scanned| == |d.containers| && d.scanned[k] == Unresolved(d.scanned[k].container)
    ensures d.initial == {} ==> d.containers == d.scanned
  {
    hide PlanFits, Eligible, ResolvesTo;
  }

  lemma FoundAt(cs: seq<ContainerWithDeps>, c: ContainerWithDeps) returns (k: nat)
    requires c in cs
    ensures k < |cs| && cs[k] == c
  {
    k :| 0 <= k < |cs| && cs[k] == c;
  }

  /** A chain of containers that take part, each depending on the next, to one that is due itself. */
  ghost predicate DueChain(view: View, cfg: UpdaterConfig, request: Request, chain: seq<string>) {
    && chain != [] && (forall i :: 0 <= i < |chain| ==> TakesPart(cfg, request, view.containers, chain[i]))
    && (forall i :: 0 <= i < |chain| - 1 ==>
          Follows(view.containers, chain[i], chain[i + 1]))
    && IsDueOnHost(view, cfg, request, chain[|chain| - 1])
  }

  /** Restarting: due, or depending on a container that restarts. */
  ghost predicate Restarts(view: View, cfg: UpdaterConfig, request: Request, id: string) {
    exists chain :: DueChain(view, cfg, request, chain) && chain[0] == id
  }

  lemma DueRestarts(view: View, cfg: UpdaterConfig, request: Request, id: string)
    requires TakesPart(cfg, request, view.containers, id) && IsDueOnHost(view, cfg, request, id)
    ensures Restarts(view, cfg, request, id)
  {
    assert DueChain(view, cfg, request, [id]) && [id][0] == id;
  }

  lemma DependentRestarts(view: View, cfg: UpdaterConfig, request: Request, id: string, on: string)
    requires TakesPart(cfg, request, view.containers, id) && Restarts(view, cfg, request, on)
    requires on in view.containers && HostDependsOn(view.containers[id], view.containers[on].name)
    ensures Restarts(view, cfg, request, id)
  {
    hide TakesPart, HostDependsOn, IsDueOnHost;
    var chain :| DueChain(view, cfg, request, chain) && chain[0] == on;
    var longer := [id] + chain;
    forall i | 0 <= i < |longer| ensures TakesPart(cfg, request, view.containers, longer[i]) {
      if i > 0 { assert longer[i] == chain[i - 1]; }
    }
    TakesPartIs(cfg, request, view.containers, id);
    forall i | 0 <= i < |longer| - 1 ensures Follows(view.containers, longer[i], longer[i + 1]) {
      if i > 0 { assert longer[i] == chain[i - 1] && longer[i + 1] == chain[i]; }
    }
    assert longer[|longer| - 1] == chain[|chain| - 1];
    assert DueChain(view, cfg, request, longer) && longer[0] == id;
  }

  lemma TakesPartIs(cfg: UpdaterConfig, request: Request, containers: Containers, id: string)
    requires TakesPart(cfg, request, containers, id)
    ensures id in containers && containers[id].running
  {
  }

  /** The discovered container of an ID, with what discovery knows of it. */
  lemma FoundOf(view: View, cfg: UpdaterConfig, request: Request, d: Discovery, id: string)
    returns (c: ContainerWithDeps)
    requires Discovered(view, cfg, request, d) && view.reliable && TakesPart(cfg, request, view.containers, id)
    ensures c in d.containers && c.container.id == id && id in view.containers && c.name == view.containers[id].name
    ensures c.name in d.initial <==> IsDueOnHost(view, cfg, request, id)
    ensures d.initial <= d.marked
  {
    DiscoveredExactly(view, cfg, request, d, id);
    c :| c in d.containers && c.container.id == id;
    FoundContainer(view, cfg, request, d, c);
    PlanReason(view, cfg, request, d, c.name);
    PlanOrigin(view, cfg, request, d, c.name);
    DueOnHostIs(view, cfg, request, id);
    hide *;
  }

  /** The marked containers are exactly those that restart. */
  lemma {:induction false} ChainIsRestarted(view: View, cfg: UpdaterConfig, request: Request, d: Discovery,
                                            chain: seq<string>)
    requires Discovered(view, cfg, request, d) && view.reliable && DueChain(view, cfg, request, chain)
    ensures chain[0] in view.containers && view.containers[chain[0]].name in d.marked && d.initial != {}
    decreases |chain|
  {
    hide Discovered, TakesPart, HostDependsOn, IsDueOnHost, DependsOn;
    var c := FoundOf(view, cfg, request, d, chain[0]);
    if |chain| > 1 {
      TailIsDueChain(view, cfg, request, chain);
      ChainIsRestarted(view, cfg, request, d, chain[1..]);
      DiscoveredDependencies(view, cfg, request, d, c, view.containers[chain[1]].name);
      DependentIsMarked(view, cfg, request, d, c, view.containers[chain[1]].name);
    }
  }

  lemma TailIsDueChain(view: View, cfg: UpdaterConfig, request: Request, chain: seq<string>)
    requires DueChain(view, cfg, request, chain) && |chain| > 1
    ensures DueChain(view, cfg, request, chain[1..]) && chain[1..][0] == chain[1]
    ensures Follows(view.containers, chain[0], chain[1])
  {
    hide Follows, IsDueOnHost, LeftAlone;
    var tail := chain[1..];
    forall i | 0 <= i < |tail| ensures TakesPart(cfg, request, view.containers, tail[i]) {
      assert tail[i] == chain[i + 1];
    }
    forall i | 0 <= i < |tail| - 1 ensures Follows(view.containers, tail[i], tail[i + 1]) {
      assert tail[i] == chain[i + 1] && tail[i + 1] == chain[i + 2];
    }
    assert Follows(view.containers, chain[0], chain[0 + 1]);
  }

  lemma DependentIsMarked(view: View, cfg: UpdaterConfig, request: Request, d: Discovery, c: ContainerWithDeps,
                          dep: Name)
    requires Discovered(view, cfg, request, d) && c in d.containers && DependsOn(c, dep) && dep in d.marked
    ensures c.name in d.marked
  {
    assert ClosedUnderDependents(d.containers, d.marked);
    hide Discovered;
    var k := FoundAt(d.containers, c);
    DependencyIsMarked(c, d.marked);
  }

  lemma {:induction false} MarkedRestarts(view: View, cfg: UpdaterConfig, request: Request, d: Discovery,
                                          chain: seq<Name>, id: string)
    requires Discovered(view, cfg, request, d) && view.reliable && ReachesMark(d.containers, d.initial, chain)
    requires TakesPart(cfg, request, view.containers, id) && view.containers[id].name == chain[0]
    ensures Restarts(view, cfg, request, id)
    decreases |chain|
  {
    hide Discovered, TakesPart, HostDependsOn, IsDueOnHost, DependsOn, Restarts;
    var c := FoundOf(view, cfg, request, d, id);
    if |chain| == 1 {
      DueRestarts(view, cfg, request, id);
    } else {
      TailReachesMark(d.containers, d.initial, chain);
      MarksAreNamed(view, cfg, request, d, chain[1..]);
      var on := NamedTakesPart(view, cfg, request, d, chain[1]);
      MarkedRestarts(view, cfg, request, d, chain[1..], on);
      FirstDepends(view, cfg, request, d, chain[0], chain[1], id);
      TakesPartIs(cfg, request, view.containers, on);
      DependentRestarts(view, cfg, request, id, on);
    }
  }

  lemma TailReachesMark(cs: seq<ContainerWithDeps>, initial: set<Name>, chain: seq<Name>)
    requires ReachesMark(cs, initial, chain) && |chain| > 1
    ensures ReachesMark(cs, initial, chain[1..]) && chain[1..][0] == chain[1] && DependsOnName(cs, chain[0], chain[1])
  {
    hide DependsOnName;
    var tail := chain[1..];
    forall i | 0 <= i < |tail| - 1 ensures DependsOnName(cs, tail[i], tail[i + 1]) {
      assert tail[i] == chain[i + 1] && tail[i + 1] == chain[i + 2];
    }
    assert DependsOnName(cs, chain[0], chain[0 + 1]);
  }

  /** A discovered name is that of a container that takes part. */
  lemma NamedTakesPart(view: View, cfg: UpdaterConfig, request: Request, d: Discovery, n: Name) returns (id: string)
    requires Discovered(view, cfg, request, d) && n in NameSet(d.containers)
    ensures TakesPart(cfg, request, view.containers, id) && view.containers[id].name == n
  {
    hide Discovered, LeftAlone;
    var k :| 0 <= k < |d.containers| && d.containers[k].name == n;
    FoundContainer(view, cfg, request, d, d.containers[k]);
    id := d.containers[k].container.id;
    EligibleIs(cfg, request, id, view.containers[id]);
    hide IsEligible, SummaryOf;
  }

  lemma MarksAreNamed(view: View, cfg: UpdaterConfig, request: Request, d: Discovery, chain: seq<Name>)
    requires Discovered(view, cfg, request, d)
    ensures d.initial <= d.marked <= NameSet(d.containers)
    ensures ReachesMark(d.containers, d.initial, chain) ==> chain[0] in NameSet(d.containers)
  {
    PlanOrigin(view, cfg, request, d, "");
    hide Discovered, DependsOn, PlanFits, MadeImplicit;
    if ReachesMark(d.containers, d.initial, chain) && |chain| > 1 {
      assert DependsOnName(d.containers, chain[0], chain[0 + 1]);
    }
  }

  lemma FirstDepends(view: View, cfg: UpdaterConfig, request: Request, d: Discovery, n: Name, dep: Name, id: string)
    requires Discovered(view, cfg, request, d) && DependsOnName(d.containers, n, dep)
    requires id in view.containers && view.containers[id].name == n
    ensures HostDependsOn(view.containers[id], dep)
  {
    assert UniqueContainerNames(view.containers);
    hide Discovered, DependsOn, HostDependsOn;
    var i :| 0 <= i < |d.containers| && d.containers[i].name == n && DependsOn(d.containers[i], dep);
    FoundContainer(view, cfg, request, d, d.containers[i]);
    DiscoveredDependencies(view, cfg, request, d, d.containers[i], dep);
    hide IsEligible, SummaryOf;
  }

  /** With reliable reads the marked names are exactly those of the containers that restart. */
  lemma MarkedExactly(view: View, cfg: UpdaterConfig, request: Request, d: Discovery, id: string)
    requires Discovered(view, cfg, request, d) && view.reliable && id in view.containers
    ensures view.containers[id].name in d.marked <==> Restarts(view, cfg, request, id)
    ensures Restarts(view, cfg, request, id) ==> d.initial != {} && TakesPart(cfg, request, view.containers, id)
  {
    var n := view.containers[id].name;
    assert UniqueContainerNames(view.containers) && IsRestartClosure(d.containers, d.initial, d.marked);
    hide Discovered, TakesPart, HostDependsOn, IsDueOnHost, IsRestartClosure;
    if Restarts(view, cfg, request, id) {
      var chain :| DueChain(view, cfg, request, chain) && chain[0] == id;
      ChainIsRestarted(view, cfg, request, d, chain);
    }
    if n in d.marked {
      ClosureIsReachability(d.containers, d.initial, d.marked, n);
      var chain :| ReachesMark(d.containers, d.initial, chain) && chain[0] == n;
      MarksAreNamed(view, cfg, request, d, chain);
      var named := NamedTakesPart(view, cfg, request, d, n);
      TakesPartIs(cfg, request, view.containers, named);
      MarkedRestarts(view, cfg, request, d, chain, id);
    }
  }

  /** With reliable reads a run has a result for a container if and only if the container restarts. */
  lemma ResultsAreOfTheRestarted(cfg: UpdaterConfig, projects: map<string, string>, request: Request,
                                 atomicFailures: bool, run: RunRecord, after: Containers,
                                 results: seq<ResourceResult>, id: string)
    requires RunHolds(cfg, projects, request, atomicFailures, run, after, results) && run.view.reliable
    requires id in run.view.containers
    ensures Restarts(run.view, cfg, request, id) <==>
              exists i :: 0 <= i < |results| && results[i].resourceID == id &&
                          results[i].resourceName == run.view.containers[id].name
    ensures forall i, j :: 0 <= i < j < |results| ==> results[i].resourceID != results[j].resourceID
  {
    var log, view := run.log, run.view;
    var n := view.containers[id].name;
    assert AllFinished(cfg, projects, log, results) && UniqueContainerNames(view.containers);
    hide RunHolds, Discovered, Executed, AllFinished, TakesPart, Restarts;
    MarkedExactly(view, cfg, request, run.d, id);
    ResultsNameTheClosure(view, cfg, projects, request, run.d, log, results, n);
    forall i | 0 <= i < |results|
      ensures results[i].resourceID in view.containers
      ensures view.containers[results[i].resourceID].name == results[i].resourceName
    {
      ResultsAreFinal(cfg, projects, log, results, i);
      CandidateTakesPart(cfg, projects, request, view, run.d, log, results, log.handled[i]);
      TakesPartIs(cfg, request, view.containers, log.handled[i].container.id);
    }
  }

  // ---------- In what order ----------

  /** By the policy's answers on two containers' labels: the first is normal, or an agent and the second is not
      normal, or the second is a server and no agent. */
  predicate NotLater(policy: LabelPolicy, first: Labels, second: Labels) {
    || (!policy.isAgent(first) && !policy.isServer(first))
    || (policy.isAgent(first) && (policy.isAgent(second) || policy.isServer(second)))
    || (policy.isServer(second) && !policy.isAgent(second))
  }

  /** All labels discovery knows of a container are the labels the container has. */
  lemma LabelsAreTheContainers(view: View, cfg: UpdaterConfig, request: Request, d: Discovery, c: ContainerWithDeps)
    requires Discovered(view, cfg, request, d) && c in d.containers
    ensures c.container.id in view.containers
    ensures RestartCandidateLabels(c, PlanOf(d.plans, c.name)) == view.containers[c.container.id].config.labels
  {
    FoundContainer(view, cfg, request, d, c);
    ReadOff(view, cfg, request, d, c);
    PlanKnowsTrueLabels(view, cfg, request, d, c.name);
    hide Discovered, IsEligible, WithDependencies, RestartCandidateLabels, SummaryOf, InspectOf;
    assert c.inspect.Some? ==> c.inspect.value == InspectOf(view.containers[c.container.id]) by {
      assert c == Unresolved(c.container) || c.inspect == Some(InspectOf(view.containers[c.container.id])) by {
        ResolvedInspect(c.name, c.container, InspectOf(view.containers[c.container.id]));
      }
    }
    LabelsAgree(c, d.plans[c.name], c.container.id, view.containers[c.container.id]);
  }

  lemma ResolvedInspect(name: Name, c: Summary, inspect: Inspect)
    ensures WithDependencies(name, c, inspect).inspect == Some(inspect)
  {
  }

  lemma LabelsAgree(c: ContainerWithDeps, plan: Plan, id: string, host: Container)
    requires c.container == plan.cnt == SummaryOf(id, host)
    requires c.inspect.Some? ==> c.inspect.value == InspectOf(host)
    requires plan.inspect.Some? ==> plan.inspect.value == InspectOf(host)
    ensures RestartCandidateLabels(c, Some(plan)) == host.config.labels
  {
  }

  lemma PlanKnowsTrueLabels(view: View, cfg: UpdaterConfig, request: Request, d: Discovery, n: Name)
    requires Discovered(view, cfg, request, d) && n in d.plans
    ensures d.plans[n].cnt.id in view.containers
    ensures d.plans[n].inspect.Some? ==> d.plans[n].inspect.value == InspectOf(view.containers[d.plans[n].cnt.id])
  {
    PlanOrigin(view, cfg, request, d, n);
    InspectOrigin(view, cfg, request, d, n);
    hide Discovered, InspectOf, ExplicitRef, SummaryOf, ContainerSummaryName, FallbackImageForPlan;
  }

  /** A plan's inspect response is the scan's, or was read since. */
  lemma InspectOrigin(view: View, cfg: UpdaterConfig, request: Request, d: Discovery, n: Name)
    requires Discovered(view, cfg, request, d) && n in d.plans
    ensures n in d.scannedPlans
    ensures
      || d.plans[n].inspect == d.scannedPlans[n].inspect
      || (d.scannedPlans[n].cnt.id in view.containers &&
          d.plans[n].inspect == Some(InspectOf(view.containers[d.scannedPlans[n].cnt.id])))
  {
    assert d.initial != {} ==>
        Resolved(view, d.scanned, d.containers, d.scannedPlans, d.resolvedPlans, |d.scanned|);
    ImplicitKeepsInspect(d, n);
    assert d.initial == {} ==> d.resolvedPlans == d.scannedPlans;
    hide Discovered, ResolvesTo, InspectOf, ImplicitPlans;
    assert d.initial != {} ==> PlanResolvesTo(view.containers, d.scannedPlans[n], d.resolvedPlans[n]);
  }

  lemma RankIs(cfg: UpdaterConfig, view: View, request: Request, d: Discovery, x: ContainerWithDeps,
               y: ContainerWithDeps)
    requires Discovered(view, cfg, request, d) && x in d.containers && y in d.containers
    ensures x.container.id in view.containers && y.container.id in view.containers
    ensures Rank(ClassOf(cfg, d.plans, x)) <= Rank(ClassOf(cfg, d.plans, y)) <==>
            NotLater(cfg.policy, view.containers[x.container.id].config.labels,
                     view.containers[y.container.id].config.labels)
  {
    LabelsAreTheContainers(view, cfg, request, d, x);
    LabelsAreTheContainers(view, cfg, request, d, y);
    hide Discovered, RestartCandidateLabels;
  }

  /** Normal containers are handled before agents, and agents before servers, as the policy answers on the labels
      that the host's containers have. */
  lemma HandledByClass(cfg: UpdaterConfig, projects: map<string, string>, request: Request, view: View, d: Discovery,
                       log: RunLog, results: seq<ResourceResult>, i: nat, j: nat)
    requires Discovered(view, cfg, request, d) && Executed(cfg, projects, d, log, results)
    requires i < j < |log.handled|
    ensures var x, y := log.handled[i].container.id, log.handled[j].container.id;
      && x in view.containers && y in view.containers
      && NotLater(cfg.policy, view.containers[x].config.labels, view.containers[y].config.labels)
  {
    var x, y := log.handled[i], log.handled[j];
    CandidateTakesPart(cfg, projects, request, view, d, log, results, x);
    CandidateTakesPart(cfg, projects, request, view, d, log, results, y);
    RankIs(cfg, view, request, d, x, y);
    AllHavePlans(view, cfg, request, d);
    SortedIsUnique(view, cfg, request, d);
    CandidatesAreSorted(cfg, d);
    assert log.handled == Sorted(cfg, d);
    hide Discovered, Executed, NotLater, ClassOf, Rank, TakesPart;
    PartitionByRank(cfg, d.plans, d.base, i, j);
  }

  lemma PartitionByRank(cfg: UpdaterConfig, plans: map<Name, Plan>, s: seq<ContainerWithDeps>, i: nat, j: nat)
    requires i < j < |Partition(cfg, plans, s)|
    ensures var p := Partition(cfg, plans, s); Rank(ClassOf(cfg, plans, p[i])) <= Rank(ClassOf(cfg, plans, p[j]))
  {
    RankAt(cfg, plans, s, i);
    RankAt(cfg, plans, s, j);
    hide Partition, OfClass, ClassOf;
  }

  /** The rank of an element of the partition, by its position. */
  lemma RankAt(cfg: UpdaterConfig, plans: map<Name, Plan>, s: seq<ContainerWithDeps>, i: nat)
    requires i < |Partition(cfg, plans, s)|
    ensures var n, a := |OfClass(cfg, plans, s, Normal)|, |OfClass(cfg, plans, s, Agent)|;
      Rank(ClassOf(cfg, plans, Partition(cfg, plans, s)[i])) == if i < n then 0 else if i < n + a then 1 else 2
  {
    var n, a, v := OfClass(cfg, plans, s, Normal), OfClass(cfg, plans, s, Agent), OfClass(cfg, plans, s, Server);
    PartitionIs(cfg, plans, s);
    hide Partition, OfClass, ClassOf;
    InThree(n, a, v, i);
    if i < |n| {
      PartOfClass(cfg, plans, s, Normal, i);
    } else if i < |n| + |a| {
      PartOfClass(cfg, plans, s, Agent, i - |n|);
    } else {
      PartOfClass(cfg, plans, s, Server, i - |n| - |a|);
    }
  }

  lemma InThree<T>(n: seq<T>, a: seq<T>, v: seq<T>, i: nat)
    requires i < |n + a + v|
    ensures (n + a + v)[i] ==
            if i < |n| then n[i] else if i < |n| + |a| then a[i - |n|] else v[i - |n| - |a|]
  {
  }

  lemma PartOfClass(cfg: UpdaterConfig, plans: map<Name, Plan>, s: seq<ContainerWithDeps>, k: Class, i: nat)
    requires i < |OfClass(cfg, plans, s, k)|
    ensures ClassOf(cfg, plans, OfClass(cfg, plans, s, k)[i]) == k
  {
    var c := OfClass(cfg, plans, s, k)[i];
    assert c in OfClass(cfg, plans, s, k);
    OfClassExact(cfg, plans, s, k, c);
  }

  /** A walk along dependencies through containers that restart. */
  ghost predicate IsHostWalk(view: View, cfg: UpdaterConfig, request: Request, walk: seq<string>) {
    && walk != [] && (forall i :: 0 <= i < |walk| ==> Restarts(view, cfg, request, walk[i]))
    && forall i :: 0 <= i < |walk| - 1 ==> Follows(view.containers, walk[i], walk[i + 1])
  }

  /** No such walk comes back to where it began. */
  ghost predicate NoHostCycle(view: View, cfg: UpdaterConfig, request: Request) {
    forall walk :: |walk| >= 2 && IsHostWalk(view, cfg, request, walk) ==> walk[0] != walk[|walk| - 1]
  }

  lemma RestartsIs(view: View, cfg: UpdaterConfig, request: Request, id: string)
    requires Restarts(view, cfg, request, id)
    ensures id in view.containers && TakesPart(cfg, request, view.containers, id)
  {
    var chain :| DueChain(view, cfg, request, chain) && chain[0] == id;
    hide LeftAlone;
  }

  /** The candidate of a container that restarts. */
  lemma CandidateOf(view: View, cfg: UpdaterConfig, request: Request, d: Discovery, id: string)
    returns (c: ContainerWithDeps)
    requires Discovered(view, cfg, request, d) && view.reliable && Restarts(view, cfg, request, id)
    ensures c in Candidates(d.containers, d.marked) && c in d.containers && d.initial != {}
    ensures c.container.id == id && id in view.containers && c.name == view.containers[id].name
  {
    assert UniqueNames(d.containers);
    hide Discovered, TakesPart, Restarts, Candidates, UniqueNames;
    RestartsIs(view, cfg, request, id);
    MarkedExactly(view, cfg, request, d, id);
    c := FoundOf(view, cfg, request, d, id);
    CandidatesUnique(d.containers, d.marked);
  }

  /** A dependency between two containers that restart is an edge between their candidates. */
  lemma FollowsIsEdge(view: View, cfg: UpdaterConfig, request: Request, d: Discovery, id: string, on: string)
    requires Discovered(view, cfg, request, d) && view.reliable && Follows(view.containers, id, on)
    requires Restarts(view, cfg, request, id) && Restarts(view, cfg, request, on)
    ensures HasEdge(Candidates(d.containers, d.marked), view.containers[id].name, view.containers[on].name)
  {
    hide Discovered, Restarts, Candidates, HostDependsOn, DependsOn;
    var c := CandidateOf(view, cfg, request, d, id);
    var e := CandidateOf(view, cfg, request, d, on);
    DiscoveredDependencies(view, cfg, request, d, c, e.name);
    var candidates := Candidates(d.containers, d.marked);
    var i := FoundAt(candidates, c);
    var j := FoundAt(candidates, e);
    assert candidates[j].name in NameSet(candidates);
  }

  /** An edge between candidates is a dependency between the containers of those names. */
  lemma EdgeIsFollows(view: View, cfg: UpdaterConfig, request: Request, d: Discovery, a: Name, b: Name)
    returns (id: string, on: string)
    requires Discovered(view, cfg, request, d) && view.reliable && HasEdge(Candidates(d.containers, d.marked), a, b)
    ensures Restarts(view, cfg, request, id) && Restarts(view, cfg, request, on) && Follows(view.containers, id, on)
    ensures view.containers[id].name == a && view.containers[on].name == b
  {
    var candidates := Candidates(d.containers, d.marked);
    assert UniqueNames(d.containers);
    hide Discovered, Restarts, Candidates, HostDependsOn, DependsOn, UniqueNames, TakesPart;
    var c, e := EdgeEnds(candidates, a, b);
    hide HasEdge;
    id := CandidateRestarts(view, cfg, request, d, c);
    on := CandidateRestarts(view, cfg, request, d, e);
    DiscoveredDependencies(view, cfg, request, d, c, b);
  }

  lemma EdgeEnds(cs: seq<ContainerWithDeps>, a: Name, b: Name) returns (c: ContainerWithDeps, e: ContainerWithDeps)
    requires HasEdge(cs, a, b)
    ensures c in cs && c.name == a && DependsOn(c, b) && e in cs && e.name == b
  {
    hide DependsOn;
    var i :| 0 <= i < |cs| && cs[i].name == a && DependsOn(cs[i], b);
    var j :| 0 <= j < |cs| && cs[j].name == b;
    c, e := cs[i], cs[j];
  }

  lemma CandidateRestarts(view: View, cfg: UpdaterConfig, request: Request, d: Discovery, c: ContainerWithDeps)
    returns (id: string)
    requires Discovered(view, cfg, request, d) && view.reliable && c in Candidates(d.containers, d.marked)
    ensures id == c.container.id && id in view.containers && view.containers[id].name == c.name && c in d.containers
    ensures Restarts(view, cfg, request, id)
  {
    assert UniqueNames(d.containers);
    hide Discovered, Restarts, Candidates, UniqueNames, IsEligible, SummaryOf;
    CandidatesUnique(d.containers, d.marked);
    FoundContainer(view, cfg, request, d, c);
    id := c.container.id;
    MarkedExactly(view, cfg, request, d, id);
  }

  /** A walk of names is one of the containers that bear them. */
  lemma {:induction false} WalkOnHost(view: View, cfg: UpdaterConfig, request: Request, d: Discovery, p: seq<Name>)
    returns (walk: seq<string>)
    requires Discovered(view, cfg, request, d) && view.reliable
    requires |p| >= 2 && IsWalk(Candidates(d.containers, d.marked), p)
    ensures walk != [] && IsHostWalk(view, cfg, request, walk) && BearNames(view.containers, walk, p)
    decreases |p|
  {
    var candidates := Candidates(d.containers, d.marked);
    assert UniqueContainerNames(view.containers);
    assert HasEdge(candidates, p[0], p[0 + 1]);
    hide *;
    var id, on := EdgeIsFollows(view, cfg, request, d, p[0], p[1]);
    FollowsIs(view.containers, id, on);
    var rest := [on];
    if |p| == 2 {
      OneStepWalk(view, cfg, request, on);
      BearsName(view.containers, on, p[1..]);
    } else {
      TailIsWalk(candidates, p);
      rest := WalkOnHost(view, cfg, request, d, p[1..]);
      SameName(view.containers, on, rest, p[1..]);
    }
    walk := [id] + rest;
    ConsWalk(view, cfg, request, id, rest);
    ConsNames(view.containers, id, rest, p);
  }

  /** The containers of a walk bear these names. */
  ghost predicate BearNames(containers: Containers, walk: seq<string>, p: seq<Name>) {
    |walk| == |p| && forall i :: 0 <= i < |walk| ==> walk[i] in containers && containers[walk[i]].name == p[i]
  }

  lemma FollowsIs(containers: Containers, id: string, on: string)
    requires Follows(containers, id, on)
    ensures id in containers && on in containers
  {
  }

  lemma BearsName(containers: Containers, id: string, p: seq<Name>)
    requires id in containers && |p| == 1 && p[0] == containers[id].name
    ensures BearNames(containers, [id], p)
  {
  }

  lemma SameName(containers: Containers, id: string, walk: seq<string>, p: seq<Name>)
    requires UniqueContainerNames(containers) && BearNames(containers, walk, p) && walk != []
    requires id in containers && containers[id].name == p[0]
    ensures walk[0] == id
  {
  }

  lemma OneStepWalk(view: View, cfg: UpdaterConfig, request: Request, id: string)
    requires Restarts(view, cfg, request, id)
    ensures IsHostWalk(view, cfg, request, [id])
  {
    hide Restarts;
  }

  lemma ConsWalk(view: View, cfg: UpdaterConfig, request: Request, id: string, rest: seq<string>)
    requires IsHostWalk(view, cfg, request, rest) && Restarts(view, cfg, request, id)
    requires rest != [] && Follows(view.containers, id, rest[0])
    ensures IsHostWalk(view, cfg, request, [id] + rest)
  {
    hide Restarts, Follows;
    var walk := [id] + rest;
    forall i | 0 <= i < |walk| ensures Restarts(view, cfg, request, walk[i]) {
      if i > 0 { assert walk[i] == rest[i - 1]; }
    }
    forall i | 0 <= i < |walk| - 1 ensures Follows(view.containers, walk[i], walk[i + 1]) {
      if i > 0 { assert walk[i] == rest[i - 1] && walk[i + 1] == rest[i]; }
    }
  }

  lemma ConsNames(containers: Containers, id: string, rest: seq<string>, p: seq<Name>)
    requires p != [] && id in containers && containers[id].name == p[0] && BearNames(containers, rest, p[1..])
    ensures BearNames(containers, [id] + rest, p)
  {
  }

  lemma TailIsWalk(cs: seq<ContainerWithDeps>, p: seq<Name>)
    requires IsWalk(cs, p) && |p| > 1
    ensures IsWalk(cs, p[1..])
  {
    hide HasEdge;
    var tail := p[1..];
    forall i | 0 <= i < |tail| - 1 ensures HasEdge(cs, tail[i], tail[i + 1]) {
      assert tail[i] == p[i + 1] && tail[i + 1] == p[i + 2];
    }
  }

  /** The candidates have a cycle if and only if the containers that restart have one. */
  lemma CyclesAgree(view: View, cfg: UpdaterConfig, request: Request, d: Discovery)
    requires Discovered(view, cfg, request, d) && view.reliable
    ensures Acyclic(Candidates(d.containers, d.marked)) <==> NoHostCycle(view, cfg, request)
  {
    var candidates := Candidates(d.containers, d.marked);
    hide Discovered, Candidates, IsWalk, IsHostWalk;
    if p :| |p| >= 2 && IsWalk(candidates, p) && p[0] == p[|p| - 1] {
      CycleOnHost(view, cfg, request, d, p);
    }
    if walk :| |walk| >= 2 && IsHostWalk(view, cfg, request, walk) && walk[0] == walk[|walk| - 1] {
      var p := NamesOfWalk(view, cfg, request, d, walk);
      EndsBearNames(view.containers, walk, p);
      NotAcyclic(candidates, p);
    }
  }

  lemma NotAcyclic(cs: seq<ContainerWithDeps>, p: seq<Name>)
    requires |p| >= 2 && IsWalk(cs, p) && p[0] == p[|p| - 1]
    ensures !Acyclic(cs)
  {
    hide IsWalk;
  }

  lemma CycleOnHost(view: View, cfg: UpdaterConfig, request: Request, d: Discovery, p: seq<Name>)
    requires Discovered(view, cfg, request, d) && view.reliable
    requires |p| >= 2 && IsWalk(Candidates(d.containers, d.marked), p) && p[0] == p[|p| - 1]
    ensures !NoHostCycle(view, cfg, request)
  {
    assert UniqueContainerNames(view.containers);
    hide Discovered, Candidates, IsWalk, IsHostWalk, BearNames;
    var walk := WalkOnHost(view, cfg, request, d, p);
    EndsBearNames(view.containers, walk, p);
  }

  lemma NamesOfWalk(view: View, cfg: UpdaterConfig, request: Request, d: Discovery, walk: seq<string>)
    returns (p: seq<Name>)
    requires Discovered(view, cfg, request, d) && view.reliable && IsHostWalk(view, cfg, request, walk)
    ensures IsWalk(Candidates(d.containers, d.marked), p) && BearNames(view.containers, walk, p)
  {
    hide Discovered, Restarts, Candidates, HasEdge, TakesPart;
    forall i | 0 <= i < |walk| ensures walk[i] in view.containers {
      RestartsIs(view, cfg, request, walk[i]);
    }
    p := seq(|walk|, i requires 0 <= i < |walk| => view.containers[walk[i]].name);
    forall i | 0 <= i < |p| - 1 ensures HasEdge(Candidates(d.containers, d.marked), p[i], p[i + 1]) {
      FollowsIsEdge(view, cfg, request, d, walk[i], walk[i + 1]);
    }
  }

  /** The dependency order of a whole run, on the host's containers. If no walk along dependencies of containers
      that restart comes back, and one leads from `walk[0]` to another container of no later class, then the run
      stops and removes the first before the other, and does everything to bring the other back before anything
      to bring back the first. */
  lemma DependentsStopFirstOnHost(cfg: UpdaterConfig, projects: map<string, string>, request: Request,
                                  atomicFailures: bool, run: RunRecord, after: Containers,
                                  results: seq<ResourceResult>, walk: seq<string>, i: nat, j: nat)
    requires RunHolds(cfg, projects, request, atomicFailures, run, after, results) && run.view.reliable
    requires NoHostCycle(run.view, cfg, request) && IsHostWalk(run.view, cfg, request, walk) && |walk| >= 2
    requires var u, v := walk[0], walk[|walk| - 1];
      && u in run.view.containers && v in run.view.containers
      && NotLater(cfg.policy, run.view.containers[v].config.labels, run.view.containers[u].config.labels)
      && i < |Calls(run.log)| && Calls(run.log)[i].owner == run.view.containers[u].name
      && j < |Calls(run.log)| && Calls(run.log)[j].owner == run.view.containers[v].name
    ensures Phase(Calls(run.log)[i]) == 1 == Phase(Calls(run.log)[j]) ==> i < j
    ensures Phase(Calls(run.log)[i]) == 2 == Phase(Calls(run.log)[j]) ==> j < i
  {
    var view, d, log := run.view, run.d, run.log;
    var u, v := walk[0], walk[|walk| - 1];
    assert u != v;
    assert Discovered(view, cfg, request, d) && Executed(cfg, projects, d, log, results) && CallsFit(cfg, log);
    assert UniqueContainerNames(view.containers);
    if 1 <= Phase(Calls(log)[i]) <= 2 && 1 <= Phase(Calls(log)[j]) <= 2 {
      hide *;
      var p := NamesOfWalk(view, cfg, request, d, walk);
      CyclesAgree(view, cfg, request, d);
      WalkReaches(Candidates(d.containers, d.marked), p);
      EndsBearNames(view.containers, walk, p);
      var x := CallerOnHost(cfg, projects, request, view, d, log, results, u, i);
      var y := CallerOnHost(cfg, projects, request, view, d, log, results, v, j);
      RankIs(cfg, view, request, d, y, x);
      RunStopsDependentsFirst(cfg, projects, request, atomicFailures, run, after, results, x, y, i, j);
    }
  }

  lemma EndsBearNames(containers: Containers, walk: seq<string>, p: seq<Name>)
    requires BearNames(containers, walk, p) && walk != []
    ensures |walk| == |p| && walk[0] in containers && containers[walk[0]].name == p[0]
    ensures var n := |walk| - 1; n < |p| && walk[n] in containers && containers[walk[n]].name == p[n]
  {
  }

  lemma WalkReaches(cs: seq<ContainerWithDeps>, p: seq<Name>)
    requires IsWalk(cs, p)
    ensures p != [] && Reaches(cs, p[0], p[|p| - 1])
  {
  }

  /** The standalone candidate whose call this is stands for the container of its owner's name. */
  lemma CallerOnHost(cfg: UpdaterConfig, projects: map<string, string>, request: Request, view: View, d: Discovery,
                     log: RunLog, results: seq<ResourceResult>, id: string, n: nat)
    returns (c: ContainerWithDeps)
    requires Discovered(view, cfg, request, d) && Executed(cfg, projects, d, log, results) && id in view.containers
    requires n < |Calls(log)| && 1 <= Phase(Calls(log)[n]) <= 2 && Calls(log)[n].owner == view.containers[id].name
    ensures c in StandaloneOf(log) && c in d.containers && c.container.id == id && c.name == view.containers[id].name
  {
    assert UniqueContainerNames(view.containers) && CallsFit(cfg, log);
    hide Discovered, Executed, Calls, CallsFit, StandaloneOf, Phase, TakesPart;
    var k := StandaloneCaller(cfg, log, n);
    StandaloneAreHandled(cfg, projects, d, log, results);
    c := StandaloneOf(log)[k];
    CandidateTakesPart(cfg, projects, request, view, d, log, results, c);
    TakesPartIs(cfg, request, view.containers, c.container.id);
  }

  // ---------- What plans move to ----------

  /** What a run's plans move containers to: one that is due, to the reference that it matches; one that restarts
      only for a dependency, to the reference it was created from. */
  lemma PlansOnHost(view: View, cfg: UpdaterConfig, request: Request, d: Discovery, n: Name)
    requires Discovered(view, cfg, request, d) && n in d.plans
    ensures d.plans[n].cnt.id in view.containers
    ensures var plan, c := d.plans[n], view.containers[d.plans[n].cnt.id];
      && (plan.implicit ==> plan.newRef == TrimSpace(c.config.image) && plan.matched == "dependency_restart")
      && (view.reliable && plan.explicit ==>
            IsDue(cfg, view.images, request.updates, c, plan.newRef, plan.matched))
  {
    PlanOrigin(view, cfg, request, d, n);
    PlanReason(view, cfg, request, d, n);
    PlanKnowsTrueLabels(view, cfg, request, d, n);
    var plan := d.plans[n];
    var c := view.containers[plan.cnt.id];
    OwnImage(plan, plan.cnt.id, c);
    hide Discovered, ExplicitRef, InspectOf, SummaryOf, TrimSpace, FallbackImageForPlan, IsDue, ContainerSummaryName,
      MatchedUpdate, DueRef;
    if view.reliable && plan.explicit {
      MatchedIs(cfg, request.updates, plan.cnt.id, c);
      DueOfMatch(cfg, view.images, request, plan.cnt.id, c);
    }
  }

  lemma OwnImage(plan: Plan, id: string, c: Container)
    requires plan.cnt == SummaryOf(id, c) && (plan.inspect.Some? ==> plan.inspect.value == InspectOf(c))
    ensures FallbackImageForPlan(plan) == TrimSpace(c.config.image)
  {
    hide TrimSpace;
  }

  lemma DueOfMatch(cfg: UpdaterConfig, images: map<string, string>, request: Request, id: string, c: Container)
    requires DueRef(cfg, images, request, id, c) != ""
    ensures IsDue(cfg, images, request.updates, c, DueRef(cfg, images, request, id, c),
                  MatchedUpdate(cfg, SummaryOf(id, c), InspectOf(c), request.updates).1)
  {
    var m := MatchedUpdate(cfg, SummaryOf(id, c), InspectOf(c), request.updates);
    MatchedIs(cfg, request.updates, id, c);
    ResolvesIs(images, cfg.normalize, m.0, TrimSpace(c.imageID));
    DueIs(cfg, images, request, id, c);
    hide Matches, MatchedUpdate, ResolvesToImage, RefIDs, TrimSpace, DueRef;
  }
}
