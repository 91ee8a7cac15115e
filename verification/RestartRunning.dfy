/**
 Executing the sorted restart plans: compose projects are updated as their first candidate comes up,
 standalone containers and self-updates are queued, then the standalone phase runs and the
 self-updates are triggered last. Results keep the candidates' order.
 */
module RestartRunning {
  import opened Wrappers
  import opened DockerTypes
  import opened Strings
  import opened Settings
  import opened Deps
  import opened Host
  import opened Matching
  import opened RestartTypes
  import opened Results
  import opened ComposeGroups
  import opened StandalonePhase

  // ---------- Routing ----------

  /** The container must be left to the host's self-updater: its labels say so, or it is the one the
      host runs in, known by a full or abbreviated ID. */
  predicate IsSelfUpdateCandidate(cfg: UpdaterConfig, containerID: string, labels: Labels) {
    cfg.policy.isSelfUpdateTarget(labels) ||
    var selfID := TrimSpace(cfg.selfContainerID);
    selfID != "" && (selfID <= containerID || containerID <= selfID)
  }

  datatype Route = NoUpdate | ViaCompose(projectID: string) | ViaSelfUpdate | Refused | ViaRecreate

  function RouteOf(cfg: UpdaterConfig, projects: map<string, string>, groups: Groups, plan: Plan): Route
    requires plan.inspect.Some?
  {
    var labels := InspectLabels(plan.inspect.value);
    var projectID := GroupOf(projects, groups, ProjectLabel(labels));
    var selfUpdate := IsSelfUpdateCandidate(cfg, plan.cnt.id, labels);
    if plan.newRef == "" then NoUpdate
    else if projectID != "" && ServiceLabel(labels) != "" && !selfUpdate then ViaCompose(projectID)
    else if selfUpdate then ViaSelfUpdate
    else if cfg.policy.isSelfUpdateTarget(labels) then Refused
    else ViaRecreate
  }

  /** How a dispatched candidate stands: its result is final, or waits for a later phase. */
  datatype Kind = Settled | Standalone | SelfUpdating

  function KindOf(route: Route): Kind {
    match route
    case ViaRecreate => Standalone
    case ViaSelfUpdate => SelfUpdating
    case _ => Settled
  }

  datatype SelfUpdatePlan = SelfUpdatePlan(containerID: string, name: Name, newRef: string, labels: Labels)

  function SelfPlanOf(c: ContainerWithDeps, plan: Plan): SelfUpdatePlan
    requires plan.inspect.Some?
  {
    SelfUpdatePlan(plan.cnt.id, c.name, plan.newRef, InspectLabels(plan.inspect.value))
  }

  // ---------- The state of a run ----------

  /** The candidates of one kind, in their order. */
  ghost function Select(handled: seq<ContainerWithDeps>, kinds: seq<Kind>, k: Kind): seq<ContainerWithDeps>
    requires |handled| == |kinds|
  {
    if handled == [] then []
    else
      var n := |handled| - 1;
      Select(handled[..n], kinds[..n], k) + if kinds[n] == k then [handled[n]] else []
  }

  /** A candidate's kind and result after dispatch: settled by a failed inspect, a missing update, a
      compose update or a refusal; otherwise its open base result waits for its phase. */
  ghost predicate Dispatched(cfg: UpdaterConfig, projects: map<string, string>, groups: Groups, c: ContainerWithDeps,
                             plan: Plan, kind: Kind, r: ResourceResult)
  {
    if plan.inspect.None? then
      kind == Settled && r == FailedContainerResult(plan.cnt.id, c.name, InspectFailure)
    else
      var route, base := RouteOf(cfg, projects, groups, plan), StandaloneRestartResult(cfg, c, plan);
      && kind == KindOf(route)
      && match route
         case NoUpdate => r == base.(status := Skipped, error := NoMatchingImage)
         case ViaCompose(_) => r == ComposeUpdated(base) || r == FailedResult(cfg, c, plan, r.error)
         case Refused => r == FailedResult(cfg, c, plan, SelfUpdaterRequired)
         case ViaSelfUpdate => r == base
         case ViaRecreate => r == base
  }

  function ComposeUpdated(base: ResourceResult): ResourceResult {
    base.(status := Updated, updateAvailable := true, updateApplied := true)
  }

  /** `index` maps exactly the names of the candidates of kind `k` to their positions. */
  ghost predicate IndexFits(handled: seq<ContainerWithDeps>, kinds: seq<Kind>, k: Kind, index: map<Name, nat>)
    requires |handled| == |kinds|
  {
    && (forall n :: n in index ==> index[n] < |handled| && handled[index[n]].name == n && kinds[index[n]] == k)
    && (forall i :: 0 <= i < |handled| && kinds[i] == k ==> handled[i].name in index && index[handled[i].name] == i)
  }

  ghost predicate QueueFits(plans: map<Name, Plan>, waiting: seq<ContainerWithDeps>, queue: seq<SelfUpdatePlan>) {
    && |queue| == |waiting|
    && forall k :: 0 <= k < |queue| ==>
         waiting[k].name in plans && plans[waiting[k].name].inspect.Some? &&
         queue[k] == SelfPlanOf(waiting[k], plans[waiting[k].name])
  }

  /** The projects some call updates. */
  ghost function UpdatedProjects(ops: seq<Op>): set<string> {
    set op | op in ops && op.UpdateServices? :: op.projectID
  }

  /** The call a route makes at dispatch: the update of its project, unless that was made before. */
  ghost function ComposeCalls(route: Route, owner: Name, groups: Groups, processed: set<string>): seq<Op> {
    if route.ViaCompose? && route.projectID in groups && route.projectID !in processed
    then [Op.UpdateServices(owner, route.projectID, groups[route.projectID].services)] else []
  }

  /** The project a candidate is updated through, if its route is the compose updater's. */
  function ComposeTarget(cfg: UpdaterConfig, projects: map<string, string>, groups: Groups, plans: map<Name, Plan>,
                         c: ContainerWithDeps): Option<string>
  {
    if c.name !in plans || plans[c.name].inspect.None? then None
    else
      var route := RouteOf(cfg, projects, groups, plans[c.name]);
      if route.ViaCompose? then Some(route.projectID) else None
  }

  /** Every compose-routed candidate's project is updated, and every call is made for such a candidate. */
  ghost predicate ComposeRouted(cfg: UpdaterConfig, projects: map<string, string>, groups: Groups,
                                plans: map<Name, Plan>, handled: seq<ContainerWithDeps>, ops: seq<Op>)
  {
    && (forall c :: c in handled && ComposeTarget(cfg, projects, groups, plans, c).Some? ==>
          ComposeTarget(cfg, projects, groups, plans, c).value in UpdatedProjects(ops))
    && (forall op :: op in ops ==> CalledFor(cfg, projects, groups, plans, handled, op))
  }

  ghost predicate CalledFor(cfg: UpdaterConfig, projects: map<string, string>, groups: Groups, plans: map<Name, Plan>,
                            handled: seq<ContainerWithDeps>, op: Op)
  {
    op.UpdateServices? &&
    exists c :: c in handled && c.name == op.owner &&
      ComposeTarget(cfg, projects, groups, plans, c) == Some(op.projectID)
  }

  /** Each project is updated at most once, with its group's services, and exactly the processed ones are. */
  ghost predicate ComposeOpsFit(groups: Groups, processed: set<string>, ops: seq<Op>) {
    && processed == UpdatedProjects(ops)
    && (forall i :: 0 <= i < |ops| ==>
          && ops[i].UpdateServices? && ops[i].projectID in processed
          && ops[i].projectID in groups && ops[i].services == groups[ops[i].projectID].services)
    && (forall i, j :: 0 <= i < j < |ops| ==> ops[i].projectID != ops[j].projectID)
  }

  ghost predicate RunFits(cfg: UpdaterConfig, projects: map<string, string>, groups: Groups, plans: map<Name, Plan>,
                          handled: seq<ContainerWithDeps>, kinds: seq<Kind>, results: seq<ResourceResult>)
  {
    && |handled| == |kinds| == |results| && UniqueNames(handled)
    && forall i :: 0 <= i < |handled| ==>
         && handled[i].name in plans
         && Dispatched(cfg, projects, groups, handled[i], plans[handled[i].name], kinds[i], results[i])
  }

  /** The candidates waiting for a later phase, and where their results stand. */
  datatype Queues = Queues(
    standalone: seq<ContainerWithDeps>,
    standaloneIndexes: map<Name, nat>,
    selfUpdates: seq<SelfUpdatePlan>,
    selfUpdateIndexes: map<Name, nat>)

  ghost predicate QueuesFit(plans: map<Name, Plan>, handled: seq<ContainerWithDeps>, kinds: seq<Kind>, queues: Queues) {
    && |handled| == |kinds|
    && queues.standalone == Select(handled, kinds, Standalone)
    && IndexFits(handled, kinds, Standalone, queues.standaloneIndexes)
    && QueueFits(plans, Select(handled, kinds, SelfUpdating), queues.selfUpdates)
    && IndexFits(handled, kinds, SelfUpdating, queues.selfUpdateIndexes)
  }

  /** The queues after one more candidate, whose result is appended at `position`. */
  function Enqueued(queues: Queues, c: ContainerWithDeps, plan: Plan, kind: Kind, position: nat): Queues
    requires kind.SelfUpdating? ==> plan.inspect.Some?
  {
    match kind
    case Settled => queues
    case Standalone =>
      queues.(standalone := queues.standalone + [c], standaloneIndexes := queues.standaloneIndexes[c.name := position])
    case SelfUpdating =>
      queues.(selfUpdates := queues.selfUpdates + [SelfPlanOf(c, plan)],
              selfUpdateIndexes := queues.selfUpdateIndexes[c.name := position])
  }

  /** The service the plan's inspect response names has moved on from the image the plan found it on. */
  ghost predicate PlanVerified(containers: Containers, plan: Plan)
    requires plan.inspect.Some?
  {
    var labels := InspectLabels(plan.inspect.value);
    ServiceVerified(containers, ProjectLabel(labels), ServiceLabel(labels),
                    CurrentContainerImageID(plan.cnt, plan.inspect))
  }

  class RestartRun {
    const cfg: UpdaterConfig
    const h: Host
    const composeGroups: Groups
    ghost const grouped: seq<ContainerWithDeps>
    ghost const groupedPlans: map<Name, Plan>
    var plans: map<Name, Plan>
    var processedProjects: set<string>
    var failedProjects: set<string>
    var queues: Queues
    var results: seq<ResourceResult>
    ghost var handled: seq<ContainerWithDeps>
    ghost var kinds: seq<Kind>
    ghost var composeOps: seq<Op>

    ghost predicate Fits()
      reads this
    {
      && RunFits(cfg, h.projects, composeGroups, plans, handled, kinds, results)
      && QueuesFit(plans, handled, kinds, queues)
      && ComposeOpsFit(composeGroups, processedProjects, composeOps)
      && ComposeRouted(cfg, h.projects, composeGroups, plans, handled, composeOps)
      && GroupsFit(cfg, h.projects, groupedPlans, grouped, composeGroups)
    }

    constructor (cfg: UpdaterConfig, h: Host, sorted: seq<ContainerWithDeps>, plans: map<Name, Plan>, groups: Groups)
      requires GroupsFit(cfg, h.projects, plans, sorted, groups)
      ensures Fits() && this.cfg == cfg && this.h == h && this.composeGroups == groups && this.plans == plans
      ensures handled == [] && results == [] && kinds == [] && composeOps == [] && processedProjects == {}
    {
      this.cfg, this.h, this.composeGroups, this.plans := cfg, h, groups, plans;
      grouped, groupedPlans := sorted, plans;
      processedProjects, failedProjects := {}, {};
      queues := Queues([], map[], [], map[]);
      results, handled, kinds, composeOps := [], [], [], [];
    }

    /** Updates the candidate's project unless that was done already, then checks that its service no
        longer runs the old image, whatever the project update reported. */
    method ApplyComposeServiceUpdate(c: ContainerWithDeps, plan: Plan, projectID: string)
      returns (res: ResourceResult, ghost ops: seq<Op>)
      requires h.Valid() && plan.inspect.Some? && projectID in composeGroups
      requires ComposeOpsFit(composeGroups, processedProjects, composeOps)
      modifies this`processedProjects, this`failedProjects, h`containers, h`usedIDs, h`trace
      ensures h.Valid() && h.trace == old(h.trace) + ops
      ensures ops == if projectID in old(processedProjects) then []
                     else [Op.UpdateServices(c.name, projectID, composeGroups[projectID].services)]
      ensures ComposeOpsFit(composeGroups, processedProjects, composeOps + ops)
      ensures processedProjects == old(processedProjects) + {projectID}
      ensures res == ComposeUpdated(StandaloneRestartResult(cfg, c, plan)) ||
                res == FailedResult(cfg, c, plan, res.error)
      ensures ops == [] ==> h.containers == old(h.containers)
      ensures res.status == Updated ==> PlanVerified(h.containers, plan)
      ensures h.reliableReads && PlanVerified(h.containers, plan) ==> res.status == Updated
    {
      hide *;
      res := StandaloneRestartResult(cfg, c, plan);
      ops := [];
      OneMoreCompose(composeGroups, processedProjects, composeOps, c.name, projectID);
      var labels := InspectLabels(plan.inspect.value);
      if projectID !in processedProjects {
        var group := composeGroups[projectID];
        var updated := h.UpdateServices(projectID, group.services, c.name);
        ops := [Op.UpdateServices(c.name, projectID, group.services)];
        processedProjects := processedProjects + {projectID};
        if !updated {
          failedProjects := failedProjects + {projectID};
        }
      }
      assert composeOps + [] == composeOps;
      var verified := VerifyComposeServiceUpdatedImage(h, ProjectLabel(labels), ServiceLabel(labels),
                                                       CurrentContainerImageID(plan.cnt, plan.inspect));
      PlanVerifiedIs(h.containers, plan);
      var error := if projectID in failedProjects then ProjectUpdateFailure else VerificationFailure;
      ComposeStatus(cfg, c, plan, error);
      if !verified {
        return FailedResult(cfg, c, plan, error), ops;
      }
      return ComposeUpdated(res), ops;
    }

    /** Settles the candidate or queues it for the phase it waits for, fetching its inspect response
        if the scan could not. */
    method DispatchRestartCandidate(candidate: ContainerWithDeps) returns (ghost ops: seq<Op>)
      requires Fits() && h.Valid() && candidate.name in plans && candidate.name !in NameSet(handled)
      modifies this, h`containers, h`usedIDs, h`trace
      ensures Fits() && h.Valid() && h.trace == old(h.trace) + ops
      ensures handled == old(handled) + [candidate] && composeOps == old(composeOps) + ops
      ensures |kinds| == |old(kinds)| + 1 && old(kinds) <= kinds && old(results) <= results
      ensures OnlyInspects(old(plans), plans, candidate.name)
      ensures ops != [] ==> kinds[|old(kinds)|] == Settled
      ensures ops == [] ==> h.containers == old(h.containers)
      ensures ops == if plans[candidate.name].inspect.None? then []
                     else ComposeCalls(RouteOf(cfg, h.projects, composeGroups, plans[candidate.name]), candidate.name,
                                       composeGroups, old(processedProjects))
    {
      hide *;
      FitsParts();
      ghost var was, called, processed := plans, composeOps, processedProjects;
      ops := [];
      NoComposeOps(composeOps);
      OnlyInspectsOne(was, candidate.name);
      if plans[candidate.name].inspect.None? {
        var inspect := h.Inspect(plans[candidate.name].cnt.id);
        if inspect.None? {
          var failed := FailedContainerResult(plans[candidate.name].cnt.id, candidate.name, InspectFailure);
          DispatchedUninspected(cfg, h.projects, composeGroups, candidate, plans[candidate.name]);
          ComposeRoutedSnoc(cfg, h.projects, composeGroups, was, plans, handled, processed, called, candidate, []);
          Record(was, candidate, Settled, failed);
          return;
        }
        plans := plans[candidate.name := plans[candidate.name].(inspect := inspect)];
      }
      var kind, res;
      kind, res, ops := RouteCandidate(candidate);
      ComposeRoutedSnoc(cfg, h.projects, composeGroups, was, plans, handled, processed, called, candidate, ops);
      Record(was, candidate, kind, res);
    }

    /** Takes the route of an inspected candidate. */
    method RouteCandidate(candidate: ContainerWithDeps) returns (kind: Kind, res: ResourceResult, ghost ops: seq<Op>)
      requires h.Valid() && candidate.name in plans && plans[candidate.name].inspect.Some?
      requires ComposeOpsFit(composeGroups, processedProjects, composeOps)
      requires GroupsFit(cfg, h.projects, groupedPlans, grouped, composeGroups)
      modifies this`processedProjects, this`failedProjects, this`composeOps, h`containers, h`usedIDs, h`trace
      ensures h.Valid() && h.trace == old(h.trace) + ops && composeOps == old(composeOps) + ops
      ensures ComposeOpsFit(composeGroups, processedProjects, composeOps)
      ensures Dispatched(cfg, h.projects, composeGroups, candidate, plans[candidate.name], kind, res)
      ensures ops != [] ==> kind == Settled
      ensures ops == [] ==> h.containers == old(h.containers)
      ensures ops == ComposeCalls(RouteOf(cfg, h.projects, composeGroups, plans[candidate.name]), candidate.name,
                                  composeGroups, old(processedProjects))
    {
      hide *;
      ops := [];
      NoComposeOps(composeOps);
      ghost var processed := processedProjects;
      var plan := plans[candidate.name];
      res := StandaloneRestartResult(cfg, candidate, plan);
      var labels := InspectLabels(plan.inspect.value);
      var projectID := ComposeProjectID(ProjectLabel(labels), composeGroups);
      SearchFindsGroup(cfg, h.projects, groupedPlans, grouped, ProjectLabel(labels), composeGroups, projectID);
      var selfUpdate := IsSelfUpdateCandidate(cfg, plan.cnt.id, labels);
      FailureKeepsError(cfg, candidate, plan, SelfUpdaterRequired);
      kind := Settled;
      if plan.newRef == "" {
        res := res.(status := Skipped, error := NoMatchingImage);
      } else if projectID != "" && ServiceLabel(labels) != "" && !selfUpdate {
        GroupOfIsGroup(h.projects, composeGroups, ProjectLabel(labels));
        res, ops := ApplyComposeServiceUpdate(candidate, plan, projectID);
        composeOps := composeOps + ops;
      } else if selfUpdate {
        kind := SelfUpdating;
      } else if cfg.policy.isSelfUpdateTarget(labels) {
        res := FailedResult(cfg, candidate, plan, SelfUpdaterRequired);
      } else {
        kind := Standalone;
      }
      DispatchedAs(cfg, h.projects, composeGroups, candidate, plan, projectID, kind, res);
      CallsAsRouted(cfg, h.projects, composeGroups, candidate.name, plan, projectID, processed, ops);
    }

    /** Appends a candidate's result, remembering its position if a later phase is to fill it in. */
    method Record(ghost was: map<Name, Plan>, candidate: ContainerWithDeps, kind: Kind, res: ResourceResult)
      requires RunFits(cfg, h.projects, composeGroups, was, handled, kinds, results)
      requires QueuesFit(was, handled, kinds, queues)
      requires ComposeOpsFit(composeGroups, processedProjects, composeOps)
      requires GroupsFit(cfg, h.projects, groupedPlans, grouped, composeGroups)
      requires ComposeRouted(cfg, h.projects, composeGroups, plans, handled + [candidate], composeOps)
      requires OnlyInspects(was, plans, candidate.name) && candidate.name in plans
      requires candidate.name !in NameSet(handled)
      requires Dispatched(cfg, h.projects, composeGroups, candidate, plans[candidate.name], kind, res)
      modifies this`results, this`handled, this`kinds, this`queues
      ensures Fits() && handled == old(handled) + [candidate] && kinds == old(kinds) + [kind]
      ensures results == old(results) + [res]
    {
      hide *;
      WaitingIsInspected(cfg, h.projects, composeGroups, candidate, plans[candidate.name], kind, res);
      SameLengths(cfg, h.projects, composeGroups, was, handled, kinds, results);
      RunSnoc(cfg, h.projects, composeGroups, was, plans, handled, kinds, results, candidate, kind, res);
      QueuesSnoc(was, plans, handled, kinds, queues, candidate, kind);
      queues := Enqueued(queues, candidate, plans[candidate.name], kind, |results|);
      results := results + [res];
      handled, kinds := handled + [candidate], kinds + [kind];
      FitsAgain();
    }

    /** Overwrites each queued result at its remembered position. */
    method PatchStandalone(patches: seq<ResourceResult>)
      requires |results| == |handled| == |kinds| && QueuesFit(plans, handled, kinds, queues) && UniqueNames(handled)
      requires Names(patches, queues.standalone)
      modifies this`results
      ensures Patched(results, old(results), queues.standaloneIndexes, queues.standalone, patches, |patches|)
    {
      hide *;
      NothingPatched(plans, handled, kinds, queues, results, patches);
      ghost var before := results;
      for k := 0 to |patches|
        invariant Patched(results, before, queues.standaloneIndexes, queues.standalone, patches, k)
      {
        PatchPosition(plans, handled, kinds, queues, results, before, patches, k);
        var name := patches[k].resourceName;
        if name in queues.standaloneIndexes {
          results := results[queues.standaloneIndexes[name] := patches[k]];
        }
      }
    }

    /** Triggers the queued self-updates in order. */
    method TriggerDeferredSelfUpdates() returns (ghost ops: seq<Op>, ghost patches: seq<ResourceResult>)
      requires h.Valid() && |results| == |handled| == |kinds| && QueuesFit(plans, handled, kinds, queues)
      requires UniqueNames(handled)
      requires SelfResultsOpen(cfg, plans, handled, kinds, results)
      modifies this`results, h`containers, h`usedIDs, h`trace
      ensures h.Valid() && h.trace == old(h.trace) + ops
      ensures ops == if cfg.hasSelfUpdater then SelfOps(queues.selfUpdates) else []
      ensures ops == [] ==> h.containers == old(h.containers)
      ensures SelfPatches(cfg, plans, Select(handled, kinds, SelfUpdating), patches)
      ensures Patched(results, old(results), queues.selfUpdateIndexes, Select(handled, kinds, SelfUpdating),
                      patches, |patches|)
      ensures !cfg.hasSelfUpdater ==> forall k :: 0 <= k < |patches| ==> patches[k].status == Failed
    {
      hide *;
      ghost var waiting, before := Select(handled, kinds, SelfUpdating), results;
      ops, patches := [], [];
      NothingTriggered(cfg, plans, handled, kinds, queues, results);
      for k := 0 to |queues.selfUpdates|
        invariant h.Valid() && h.trace == old(h.trace) + ops && (ops == [] ==> h.containers == old(h.containers))
        invariant ops == if cfg.hasSelfUpdater then SelfOps(queues.selfUpdates[..k]) else []
        invariant |patches| == k && SelfPatchesUpTo(cfg, plans, waiting, k, patches)
        invariant Patched(results, before, queues.selfUpdateIndexes, waiting, patches, k)
        invariant !cfg.hasSelfUpdater ==> forall j :: 0 <= j < |patches| ==> patches[j].status == Failed
      {
        var target := queues.selfUpdates[k];
        SelfPosition(cfg, plans, handled, kinds, queues, results, before, patches, k);
        if target.name !in queues.selfUpdateIndexes {
          continue;
        }
        var index := queues.selfUpdateIndexes[target.name];
        var res := results[index];
        var ok := false;
        OneMoreSelfOp(queues.selfUpdates, k);
        if cfg.hasSelfUpdater {
          ok := h.TriggerSelfUpdate(target.containerID, target.newRef, target.labels, target.name);
          ops := ops + [Op.SelfUpdate(target.name, target.containerID, target.newRef, target.labels)];
        }
        if ok {
          res := res.(status := Updated, updateAvailable := true, updateApplied := true);
        } else {
          res := res.(status := Failed, error := SelfUpdateFailure);
        }
        results := results[index := res];
        patches := patches + [res];
      }
      AllTriggered(cfg, plans, handled, kinds, queues, patches);
    }

    lemma FitsAgain()
      requires RunFits(cfg, h.projects, composeGroups, plans, handled, kinds, results)
      requires QueuesFit(plans, handled, kinds, queues)
      requires ComposeOpsFit(composeGroups, processedProjects, composeOps)
      requires ComposeRouted(cfg, h.projects, composeGroups, plans, handled, composeOps)
      requires GroupsFit(cfg, h.projects, groupedPlans, grouped, composeGroups)
      ensures Fits()
    {
    }

    lemma FitsParts()
      requires Fits()
      ensures |handled| == |kinds| == |results|
      ensures RunFits(cfg, h.projects, composeGroups, plans, handled, kinds, results)
      ensures QueuesFit(plans, handled, kinds, queues)
      ensures ComposeOpsFit(composeGroups, processedProjects, composeOps)
      ensures ComposeRouted(cfg, h.projects, composeGroups, plans, handled, composeOps)
      ensures GroupsFit(cfg, h.projects, groupedPlans, grouped, composeGroups)
    {
    }
  }

  lemma OneMoreCompose(groups: Groups, processed: set<string>, ops: seq<Op>, owner: Name, projectID: string)
    requires ComposeOpsFit(groups, processed, ops) && projectID in groups
    ensures projectID in processed ==> processed + {projectID} == processed
    ensures projectID !in processed ==>
      ComposeOpsFit(groups, processed + {projectID},
                    ops + [Op.UpdateServices(owner, projectID, groups[projectID].services)])
  {
  }

  lemma ComposeStatus(cfg: UpdaterConfig, c: ContainerWithDeps, plan: Plan, error: ResultError)
    ensures ComposeUpdated(StandaloneRestartResult(cfg, c, plan)).status == Updated
    ensures FailedResult(cfg, c, plan, error).status == Failed && FailedResult(cfg, c, plan, error).error == error
  {
  }

  lemma PlanVerifiedIs(containers: Containers, plan: Plan)
    requires plan.inspect.Some?
    ensures var labels := InspectLabels(plan.inspect.value);
      PlanVerified(containers, plan) <==>
      ServiceVerified(containers, ProjectLabel(labels), ServiceLabel(labels),
                      CurrentContainerImageID(plan.cnt, plan.inspect))
  {
  }

  /** The plans differ at most in the inspect response of one. */
  ghost predicate OnlyInspects(before: map<Name, Plan>, after: map<Name, Plan>, name: Name) {
    && after.Keys == before.Keys
    && (forall n :: n in before && n != name ==> after[n] == before[n])
    && (name in before ==>
          after[name] == before[name] ||
          (before[name].inspect.None? && after[name].inspect.Some? &&
           after[name] == before[name].(inspect := after[name].inspect)))
  }

  lemma NoComposeOps(ops: seq<Op>)
    ensures ops + [] == ops
  {
  }

  lemma OnlyInspectsOne(plans: map<Name, Plan>, name: Name)
    requires name in plans
    ensures OnlyInspects(plans, plans, name)
    ensures plans[name].inspect.None? ==> forall inspect: Option<Inspect> :: inspect.Some? ==>
              OnlyInspects(plans, plans[name := plans[name].(inspect := inspect)], name)
  {
  }

  lemma DispatchedUninspected(cfg: UpdaterConfig, projects: map<string, string>, groups: Groups,
                              c: ContainerWithDeps, plan: Plan)
    requires plan.inspect.None?
    ensures Dispatched(cfg, projects, groups, c, plan, Settled,
                       FailedContainerResult(plan.cnt.id, c.name, InspectFailure))
  {
  }

  lemma DispatchedAs(cfg: UpdaterConfig, projects: map<string, string>, groups: Groups, c: ContainerWithDeps,
                     plan: Plan, projectID: string, kind: Kind, r: ResourceResult)
    requires plan.inspect.Some?
    requires projectID == GroupOf(projects, groups, ProjectLabel(InspectLabels(plan.inspect.value)))
    requires var labels, base := InspectLabels(plan.inspect.value), StandaloneRestartResult(cfg, c, plan);
      if plan.newRef == "" then
        kind == Settled && r == base.(status := Skipped, error := NoMatchingImage)
      else if projectID != "" && ServiceLabel(labels) != "" && !IsSelfUpdateCandidate(cfg, plan.cnt.id, labels) then
        kind == Settled && (r == ComposeUpdated(base) || r == FailedResult(cfg, c, plan, r.error))
      else if IsSelfUpdateCandidate(cfg, plan.cnt.id, labels) then kind == SelfUpdating && r == base
      else if cfg.policy.isSelfUpdateTarget(labels) then
        kind == Settled && r == FailedResult(cfg, c, plan, SelfUpdaterRequired)
      else kind == Standalone && r == base
    ensures Dispatched(cfg, projects, groups, c, plan, kind, r)
  {
    hide GroupOf, StandaloneRestartResult, FailedResult, IsSelfUpdateCandidate, ProjectLabel, ServiceLabel;
  }

  lemma CallsAsRouted(cfg: UpdaterConfig, projects: map<string, string>, groups: Groups, owner: Name, plan: Plan,
                      projectID: string, processed: set<string>, ops: seq<Op>)
    requires plan.inspect.Some?
    requires projectID == GroupOf(projects, groups, ProjectLabel(InspectLabels(plan.inspect.value)))
    requires projectID != "" ==> projectID in groups
    requires var labels := InspectLabels(plan.inspect.value);
      if plan.newRef != "" && projectID != "" && ServiceLabel(labels) != "" &&
         !IsSelfUpdateCandidate(cfg, plan.cnt.id, labels) && projectID !in processed
      then ops == [Op.UpdateServices(owner, projectID, groups[projectID].services)]
      else ops == []
    ensures ops == ComposeCalls(RouteOf(cfg, projects, groups, plan), owner, groups, processed)
  {
    hide GroupOf, IsSelfUpdateCandidate, ProjectLabel, ServiceLabel;
  }

  /** One more candidate, with the calls its route makes. */
  lemma ComposeRoutedSnoc(cfg: UpdaterConfig, projects: map<string, string>, groups: Groups, before: map<Name, Plan>,
                          plans: map<Name, Plan>, handled: seq<ContainerWithDeps>, processed: set<string>,
                          ops: seq<Op>, c: ContainerWithDeps, calls: seq<Op>)
    requires ComposeRouted(cfg, projects, groups, before, handled, ops) && ComposeOpsFit(groups, processed, ops)
    requires OnlyInspects(before, plans, c.name) && c.name in plans && c.name !in NameSet(handled)
    requires calls == if plans[c.name].inspect.None? then []
                      else ComposeCalls(RouteOf(cfg, projects, groups, plans[c.name]), c.name, groups, processed)
    ensures ComposeRouted(cfg, projects, groups, plans, handled + [c], ops + calls)
  {
    RouteIsGrouped(cfg, projects, groups, plans, c);
    SameTargets(cfg, projects, groups, before, plans, handled, c);
    hide ComposeTarget, RouteOf, OnlyInspects, NameSet, ComposeOpsFit;
    var all, more := ops + calls, handled + [c];
    assert forall op :: op in all <==> op in ops || op in calls;
    forall d | d in more && ComposeTarget(cfg, projects, groups, plans, d).Some?
      ensures ComposeTarget(cfg, projects, groups, plans, d).value in UpdatedProjects(all)
    {
      if d in handled { assert ComposeTarget(cfg, projects, groups, before, d).value in UpdatedProjects(ops); }
    }
    forall op | op in all ensures CalledFor(cfg, projects, groups, plans, more, op) {
      if op in ops {
        var d :| d in handled && d.name == op.owner &&
          ComposeTarget(cfg, projects, groups, before, d) == Some(op.projectID);
        assert d in more;
      } else {
        assert c in more;
      }
    }
  }

  lemma RouteIsGrouped(cfg: UpdaterConfig, projects: map<string, string>, groups: Groups, plans: map<Name, Plan>,
                       c: ContainerWithDeps)
    ensures var target := ComposeTarget(cfg, projects, groups, plans, c); target.Some? ==>
      && target.value in groups && c.name in plans && plans[c.name].inspect.Some?
      && RouteOf(cfg, projects, groups, plans[c.name]) == ViaCompose(target.value)
    ensures c.name in plans && plans[c.name].inspect.Some? ==>
      var route := RouteOf(cfg, projects, groups, plans[c.name]);
      ComposeTarget(cfg, projects, groups, plans, c) == if route.ViaCompose? then Some(route.projectID) else None
    ensures c.name in plans && plans[c.name].inspect.None? ==> ComposeTarget(cfg, projects, groups, plans, c) == None
  {
    hide IsSelfUpdateCandidate, ProjectLabel, ServiceLabel;
  }

  lemma SameTargets(cfg: UpdaterConfig, projects: map<string, string>, groups: Groups, before: map<Name, Plan>,
                    plans: map<Name, Plan>, handled: seq<ContainerWithDeps>, c: ContainerWithDeps)
    requires OnlyInspects(before, plans, c.name) && c.name !in NameSet(handled)
    ensures forall d :: d in handled ==>
              ComposeTarget(cfg, projects, groups, plans, d) == ComposeTarget(cfg, projects, groups, before, d)
  {
    hide RouteOf;
    forall d | d in handled ensures d.name != c.name {
      var i :| 0 <= i < |handled| && handled[i] == d;
    }
  }

  lemma RunSnoc(cfg: UpdaterConfig, projects: map<string, string>, groups: Groups, before: map<Name, Plan>,
                plans: map<Name, Plan>, handled: seq<ContainerWithDeps>, kinds: seq<Kind>, results: seq<ResourceResult>,
                c: ContainerWithDeps, kind: Kind, r: ResourceResult)
    requires RunFits(cfg, projects, groups, before, handled, kinds, results)
    requires OnlyInspects(before, plans, c.name) && c.name in plans && c.name !in NameSet(handled)
    requires Dispatched(cfg, projects, groups, c, plans[c.name], kind, r)
    ensures RunFits(cfg, projects, groups, plans, handled + [c], kinds + [kind], results + [r])
    ensures NameSet(handled + [c]) == NameSet(handled) + {c.name}
  {
    hide Dispatched;
    NameSetSnoc(handled, c);
    forall i | 0 <= i < |handled|
      ensures handled[i].name != c.name && plans[handled[i].name] == before[handled[i].name]
    {
      assert handled[i].name in NameSet(handled);
    }
  }

  lemma {:induction false} SelectMembers(handled: seq<ContainerWithDeps>, kinds: seq<Kind>, k: Kind)
    requires |handled| == |kinds|
    ensures forall c :: c in Select(handled, kinds, k) <==>
              exists i :: 0 <= i < |handled| && handled[i] == c && kinds[i] == k
    ensures UniqueNames(handled) ==> UniqueNames(Select(handled, kinds, k))
  {
    if handled != [] {
      var n := |handled| - 1;
      SelectMembers(handled[..n], kinds[..n], k);
      var rest, whole := Select(handled[..n], kinds[..n], k), Select(handled, kinds, k);
      forall c ensures c in whole <==> exists i :: 0 <= i < |handled| && handled[i] == c && kinds[i] == k {
        if c in rest {
          var i :| 0 <= i < n && handled[..n][i] == c && kinds[..n][i] == k;
          assert handled[i] == c && kinds[i] == k;
        }
        if i :| 0 <= i < |handled| && handled[i] == c && kinds[i] == k {
          if i < n { assert handled[..n][i] == c && kinds[..n][i] == k; }
        }
      }
      forall i | 0 <= i < |rest| ensures rest[i] in handled[..n] {
        assert rest[i] in rest;
      }
    }
  }

  lemma SelectedNames(handled: seq<ContainerWithDeps>, kinds: seq<Kind>, k: Kind)
    requires |handled| == |kinds|
    ensures forall j :: 0 <= j < |Select(handled, kinds, k)| ==> Select(handled, kinds, k)[j].name in NameSet(handled)
  {
    SelectMembers(handled, kinds, k);
    var chosen := Select(handled, kinds, k);
    forall j | 0 <= j < |chosen| ensures chosen[j].name in NameSet(handled) {
      assert chosen[j] in chosen;
    }
  }

  lemma SelectSnoc(handled: seq<ContainerWithDeps>, kinds: seq<Kind>, k: Kind, c: ContainerWithDeps, kind: Kind)
    requires |handled| == |kinds|
    ensures Select(handled + [c], kinds + [kind], k) ==
            if kind == k then Select(handled, kinds, k) + [c] else Select(handled, kinds, k)
  {
    assert (handled + [c])[..|handled|] == handled && (kinds + [kind])[..|handled|] == kinds;
  }

  lemma IndexSnoc(handled: seq<ContainerWithDeps>, kinds: seq<Kind>, k: Kind, index: map<Name, nat>,
                  c: ContainerWithDeps, kind: Kind)
    requires |handled| == |kinds| && IndexFits(handled, kinds, k, index) && c.name !in NameSet(handled)
    ensures IndexFits(handled + [c], kinds + [kind], k, if kind == k then index[c.name := |handled|] else index)
  {
    assert forall i :: 0 <= i < |handled| ==> handled[i].name in NameSet(handled);
  }

  lemma QueuesSnoc(before: map<Name, Plan>, plans: map<Name, Plan>, handled: seq<ContainerWithDeps>, kinds: seq<Kind>,
                   queues: Queues, c: ContainerWithDeps, kind: Kind)
    requires QueuesFit(before, handled, kinds, queues)
    requires OnlyInspects(before, plans, c.name) && c.name in plans && c.name !in NameSet(handled)
    requires !kind.Settled? ==> plans[c.name].inspect.Some?
    ensures QueuesFit(plans, handled + [c], kinds + [kind], Enqueued(queues, c, plans[c.name], kind, |handled|))
  {
    SelectSnoc(handled, kinds, Standalone, c, kind);
    SelectSnoc(handled, kinds, SelfUpdating, c, kind);
    IndexSnoc(handled, kinds, Standalone, queues.standaloneIndexes, c, kind);
    IndexSnoc(handled, kinds, SelfUpdating, queues.selfUpdateIndexes, c, kind);
    SelectedNames(handled, kinds, SelfUpdating);
    WaitingSnoc(before, plans, Select(handled, kinds, SelfUpdating), queues.selfUpdates, c);
    hide Select, IndexFits, QueueFits, OnlyInspects, NameSet, SelfPlanOf;
  }

  lemma WaitingSnoc(before: map<Name, Plan>, plans: map<Name, Plan>, waiting: seq<ContainerWithDeps>,
                    queue: seq<SelfUpdatePlan>, c: ContainerWithDeps)
    requires QueueFits(before, waiting, queue) && OnlyInspects(before, plans, c.name) && c.name in plans
    requires forall k :: 0 <= k < |waiting| ==> waiting[k].name != c.name
    ensures QueueFits(plans, waiting, queue)
    ensures plans[c.name].inspect.Some? ==> QueueFits(plans, waiting + [c], queue + [SelfPlanOf(c, plans[c.name])])
  {
    hide SelfPlanOf;
  }

  lemma WaitingIsInspected(cfg: UpdaterConfig, projects: map<string, string>, groups: Groups, c: ContainerWithDeps,
                           plan: Plan, kind: Kind, r: ResourceResult)
    requires Dispatched(cfg, projects, groups, c, plan, kind, r)
    ensures !kind.Settled? ==> plan.inspect.Some?
  {
  }

  lemma SameLengths(cfg: UpdaterConfig, projects: map<string, string>, groups: Groups, plans: map<Name, Plan>,
                    handled: seq<ContainerWithDeps>, kinds: seq<Kind>, results: seq<ResourceResult>)
    requires RunFits(cfg, projects, groups, plans, handled, kinds, results)
    ensures |handled| == |kinds| == |results|
  {
  }

  lemma GroupOfIsGroup(projects: map<string, string>, groups: Groups, projectName: string)
    requires GroupOf(projects, groups, projectName) != ""
    ensures GroupOf(projects, groups, projectName) in groups
  {
  }

  // ---------- Filling in the later phases' results ----------

  ghost predicate Names(patches: seq<ResourceResult>, waiting: seq<ContainerWithDeps>) {
    |patches| == |waiting| && forall k :: 0 <= k < |patches| ==> patches[k].resourceName == waiting[k].name
  }

  /** The first `n` patches stand at their candidates' positions; every other result is as before. */
  ghost predicate Patched(results: seq<ResourceResult>, before: seq<ResourceResult>, index: map<Name, nat>,
                          waiting: seq<ContainerWithDeps>, patches: seq<ResourceResult>, n: nat)
  {
    && |results| == |before| && n <= |patches| && n <= |waiting|
    && (forall k :: 0 <= k < |waiting| ==> waiting[k].name in index && index[waiting[k].name] < |results|)
    && (forall k :: 0 <= k < n ==> results[index[waiting[k].name]] == patches[k])
    && (forall i :: 0 <= i < |results| && (forall k :: 0 <= k < n ==> index[waiting[k].name] != i) ==>
          results[i] == before[i])
  }

  /** The waiting candidates of one kind stand at distinct positions of that kind. */
  lemma WaitingPositions(handled: seq<ContainerWithDeps>, kinds: seq<Kind>, k: Kind, index: map<Name, nat>)
    requires |handled| == |kinds| && UniqueNames(handled) && IndexFits(handled, kinds, k, index)
    ensures var waiting := Select(handled, kinds, k);
      && UniqueNames(waiting)
      && (forall j :: 0 <= j < |waiting| ==>
            waiting[j].name in index && index[waiting[j].name] < |handled| &&
            handled[index[waiting[j].name]] == waiting[j] && kinds[index[waiting[j].name]] == k)
      && (forall j, l :: 0 <= j < l < |waiting| ==> index[waiting[j].name] != index[waiting[l].name])
  {
    SelectMembers(handled, kinds, k);
    var waiting := Select(handled, kinds, k);
    forall j | 0 <= j < |waiting|
      ensures waiting[j].name in index && index[waiting[j].name] < |handled| &&
              handled[index[waiting[j].name]] == waiting[j] && kinds[index[waiting[j].name]] == k
    {
      assert waiting[j] in waiting;
      var i :| 0 <= i < |handled| && handled[i] == waiting[j] && kinds[i] == k;
    }
  }

  lemma NothingPatched(plans: map<Name, Plan>, handled: seq<ContainerWithDeps>, kinds: seq<Kind>, queues: Queues,
                       results: seq<ResourceResult>, patches: seq<ResourceResult>)
    requires |results| == |handled| == |kinds| && QueuesFit(plans, handled, kinds, queues) && UniqueNames(handled)
    ensures Patched(results, results, queues.standaloneIndexes, queues.standalone, patches, 0)
  {
    WaitingPositions(handled, kinds, Standalone, queues.standaloneIndexes);
  }

  lemma PatchPosition(plans: map<Name, Plan>, handled: seq<ContainerWithDeps>, kinds: seq<Kind>, queues: Queues,
                      results: seq<ResourceResult>, before: seq<ResourceResult>, patches: seq<ResourceResult>, k: nat)
    requires |before| == |handled| == |kinds| && QueuesFit(plans, handled, kinds, queues) && UniqueNames(handled)
    requires Names(patches, queues.standalone) && k < |patches|
    requires Patched(results, before, queues.standaloneIndexes, queues.standalone, patches, k)
    ensures var index, name := queues.standaloneIndexes, patches[k].resourceName;
      && name in index && index[name] < |results|
      && Patched(results[index[name] := patches[k]], before, index, queues.standalone, patches, k + 1)
  {
    WaitingPositions(handled, kinds, Standalone, queues.standaloneIndexes);
    OneMorePatch(results, before, queues.standaloneIndexes, queues.standalone, patches, k, patches[k]);
    assert patches[..k] + [patches[k]] + patches[k + 1..] == patches;
  }

  lemma OneMorePatch(results: seq<ResourceResult>, before: seq<ResourceResult>, index: map<Name, nat>,
                     waiting: seq<ContainerWithDeps>, patches: seq<ResourceResult>, k: nat, patch: ResourceResult)
    requires Patched(results, before, index, waiting, patches, k) && k < |waiting|
    requires forall j, l :: 0 <= j < l < |waiting| ==> index[waiting[j].name] != index[waiting[l].name]
    ensures Patched(results[index[waiting[k].name] := patch], before, index, waiting,
                    patches[..k] + [patch] + (if k < |patches| then patches[k + 1..] else []), k + 1)
  {
  }

  function SelfOp(target: SelfUpdatePlan): Op {
    Op.SelfUpdate(target.name, target.containerID, target.newRef, target.labels)
  }

  ghost function SelfOps(queue: seq<SelfUpdatePlan>): seq<Op> {
    if queue == [] then []
    else
      var last := queue[|queue| - 1];
      SelfOps(queue[..|queue| - 1]) + [SelfOp(last)]
  }

  lemma OneMoreSelfOp(queue: seq<SelfUpdatePlan>, k: nat)
    requires k < |queue|
    ensures SelfOps(queue[..k + 1]) == SelfOps(queue[..k]) +
            [Op.SelfUpdate(queue[k].name, queue[k].containerID, queue[k].newRef, queue[k].labels)]
  {
    assert queue[..k + 1][..k] == queue[..k];
  }

  /** Before the self-updates, their results are still the open base results. */
  ghost predicate SelfResultsOpen(cfg: UpdaterConfig, plans: map<Name, Plan>, handled: seq<ContainerWithDeps>,
                                  kinds: seq<Kind>, results: seq<ResourceResult>)
    requires |handled| == |kinds| == |results|
  {
    forall i :: 0 <= i < |handled| && kinds[i] == SelfUpdating ==>
      handled[i].name in plans && results[i] == StandaloneRestartResult(cfg, handled[i], plans[handled[i].name])
  }

  /** A self-update either was triggered or failed. */
  predicate IsSelfResult(cfg: UpdaterConfig, c: ContainerWithDeps, plan: Plan, r: ResourceResult) {
    r == ComposeUpdated(StandaloneRestartResult(cfg, c, plan)) || r == FailedResult(cfg, c, plan, SelfUpdateFailure)
  }

  ghost predicate SelfPatchesUpTo(cfg: UpdaterConfig, plans: map<Name, Plan>, waiting: seq<ContainerWithDeps>, n: nat,
                                  patches: seq<ResourceResult>)
  {
    n <= |waiting| && n <= |patches| &&
    forall k :: 0 <= k < n ==>
      waiting[k].name in plans && IsSelfResult(cfg, waiting[k], plans[waiting[k].name], patches[k])
  }

  ghost predicate SelfPatches(cfg: UpdaterConfig, plans: map<Name, Plan>, waiting: seq<ContainerWithDeps>,
                              patches: seq<ResourceResult>)
  {
    |patches| == |waiting| && SelfPatchesUpTo(cfg, plans, waiting, |waiting|, patches)
  }

  lemma NothingTriggered(cfg: UpdaterConfig, plans: map<Name, Plan>, handled: seq<ContainerWithDeps>, kinds: seq<Kind>,
                         queues: Queues, results: seq<ResourceResult>)
    requires |results| == |handled| == |kinds| && QueuesFit(plans, handled, kinds, queues) && UniqueNames(handled)
    ensures SelfOps(queues.selfUpdates[..0]) == []
    ensures var waiting := Select(handled, kinds, SelfUpdating);
      SelfPatchesUpTo(cfg, plans, waiting, 0, []) && Patched(results, results, queues.selfUpdateIndexes, waiting, [], 0)
  {
    WaitingPositions(handled, kinds, SelfUpdating, queues.selfUpdateIndexes);
  }

  lemma SelfPosition(cfg: UpdaterConfig, plans: map<Name, Plan>, handled: seq<ContainerWithDeps>, kinds: seq<Kind>,
                     queues: Queues, results: seq<ResourceResult>, before: seq<ResourceResult>,
                     patches: seq<ResourceResult>, k: nat)
    requires |before| == |handled| == |kinds| && QueuesFit(plans, handled, kinds, queues) && UniqueNames(handled)
    requires SelfResultsOpen(cfg, plans, handled, kinds, before)
    requires k < |queues.selfUpdates| && |patches| == k
    requires var waiting := Select(handled, kinds, SelfUpdating);
      SelfPatchesUpTo(cfg, plans, waiting, k, patches) &&
      Patched(results, before, queues.selfUpdateIndexes, waiting, patches, k)
    ensures
      var waiting, index := Select(handled, kinds, SelfUpdating), queues.selfUpdateIndexes;
      var name := queues.selfUpdates[k].name;
      && name in index && index[name] < |results|
      && forall patch: ResourceResult ::
           (patch == results[index[name]].(status := Updated, updateAvailable := true, updateApplied := true) ||
            patch == results[index[name]].(status := Failed, error := SelfUpdateFailure)) ==>
             SelfPatchesUpTo(cfg, plans, waiting, k + 1, patches + [patch]) &&
             Patched(results[index[name] := patch], before, index, waiting, patches + [patch], k + 1)
  {
    var waiting, index := Select(handled, kinds, SelfUpdating), queues.selfUpdateIndexes;
    WaitingPositions(handled, kinds, SelfUpdating, index);
    var i := index[waiting[k].name];
    assert results[i] == before[i];
    hide SelfResultsOpen, QueuesFit, Select;
    forall patch: ResourceResult |
      patch == results[i].(status := Updated, updateAvailable := true, updateApplied := true) ||
      patch == results[i].(status := Failed, error := SelfUpdateFailure)
      ensures SelfPatchesUpTo(cfg, plans, waiting, k + 1, patches + [patch])
      ensures Patched(results[i := patch], before, index, waiting, patches + [patch], k + 1)
    {
      OneMorePatch(results, before, index, waiting, patches, k, patch);
      assert patches[..k] + [patch] + [] == patches + [patch];
      assert IsSelfResult(cfg, waiting[k], plans[waiting[k].name], patch);
    }
  }

  lemma AllTriggered(cfg: UpdaterConfig, plans: map<Name, Plan>, handled: seq<ContainerWithDeps>, kinds: seq<Kind>,
                     queues: Queues, patches: seq<ResourceResult>)
    requires |handled| == |kinds| && QueuesFit(plans, handled, kinds, queues)
    requires |patches| == |queues.selfUpdates|
    requires SelfPatchesUpTo(cfg, plans, Select(handled, kinds, SelfUpdating), |patches|, patches)
    ensures queues.selfUpdates[..|queues.selfUpdates|] == queues.selfUpdates
    ensures SelfPatches(cfg, plans, Select(handled, kinds, SelfUpdating), patches)
  {
  }

  // ---------- The whole execution ----------

  /** The record of an executed run: who was handled and how, the plans as last seen, the calls made,
      phase by phase, the containers and used IDs as the standalone phase found them, and the containers
      as it left them. */
  datatype RunLog = RunLog(
    groups: Groups,
    handled: seq<ContainerWithDeps>,
    kinds: seq<Kind>,
    plans: map<Name, Plan>,
    recentAPI: bool,
    compose: seq<Op>,
    stops: seq<seq<Op>>,
    creates: seq<seq<Op>>,
    survivors: seq<string>,
    selfUpdates: seq<Op>,
    found: Containers,
    used: set<string>,
    left: Containers)

  /** All calls of a run, in the order they were made. */
  ghost function Calls(log: RunLog): seq<Op> {
    log.compose + JoinBack(log.stops) + Join(log.creates) + log.selfUpdates
  }

  ghost function StandaloneOf(log: RunLog): seq<ContainerWithDeps> {
    if |log.handled| == |log.kinds| then Select(log.handled, log.kinds, Standalone) else []
  }

  ghost function SelfUpdatesOf(log: RunLog): seq<ContainerWithDeps> {
    if |log.handled| == |log.kinds| then Select(log.handled, log.kinds, SelfUpdating) else []
  }

  /** The sorted candidates that have a plan. */
  ghost function WithPlans(sorted: seq<ContainerWithDeps>, plans: map<Name, Plan>): seq<ContainerWithDeps> {
    if sorted == [] then []
    else
      var last := sorted[|sorted| - 1];
      WithPlans(sorted[..|sorted| - 1], plans) + if last.name in plans then [last] else []
  }

  /** A candidate's final result: of its own dispatch, its standalone phase or its self-update. */
  ghost predicate Finished(cfg: UpdaterConfig, projects: map<string, string>, groups: Groups, c: ContainerWithDeps,
                           plan: Plan, kind: Kind, r: ResourceResult)
  {
    match kind
    case Settled => Dispatched(cfg, projects, groups, c, plan, kind, r)
    case Standalone =>
      plan.inspect.Some? && RouteOf(cfg, projects, groups, plan).ViaRecreate? && IsStandaloneResult(cfg, c, plan, r)
    case SelfUpdating =>
      plan.inspect.Some? && RouteOf(cfg, projects, groups, plan).ViaSelfUpdate? && IsSelfResult(cfg, c, plan, r)
  }

  ghost predicate AllFinished(cfg: UpdaterConfig, projects: map<string, string>, log: RunLog,
                              results: seq<ResourceResult>) {
    && |log.handled| == |log.kinds| == |results| && UniqueNames(log.handled)
    && forall i :: 0 <= i < |results| ==>
         && log.handled[i].name in log.plans
         && Finished(cfg, projects, log.groups, log.handled[i], log.plans[log.handled[i].name],
                     log.kinds[i], results[i])
  }

  /** The calls of each phase are those its candidates call for. */
  ghost predicate CallsFit(cfg: UpdaterConfig, log: RunLog) {
    var standalone, waiting := StandaloneOf(log), SelfUpdatesOf(log);
    && (exists processed :: ComposeOpsFit(log.groups, processed, log.compose))
    && Planned(standalone, log.plans) && PhaseBlocks(standalone, log.plans, log.stops, log.creates, log.survivors)
    && exists queue :: QueueFits(log.plans, waiting, queue) &&
         log.selfUpdates == if cfg.hasSelfUpdater then SelfOps(queue) else []
  }

  /** The compose calls are made for the compose-routed candidates, and for every project one is routed to. */
  ghost predicate ComposeFits(cfg: UpdaterConfig, projects: map<string, string>, log: RunLog) {
    ComposeRouted(cfg, projects, log.groups, log.plans, log.handled, log.compose)
  }

  /** The run's plans differ from those it was given only by inspect responses fetched on the way. */
  ghost predicate PlansInspected(before: map<Name, Plan>, after: map<Name, Plan>) {
    && after.Keys == before.Keys
    && forall n :: n in before ==>
         after[n] == before[n] ||
         (before[n].inspect.None? && after[n].inspect.Some? && after[n] == before[n].(inspect := after[n].inspect))
  }

  /** Each standalone candidate's result says how its container stood after the standalone phase. */
  ghost predicate StandaloneReported(cfg: UpdaterConfig, images: map<string, string>, atomicFailures: bool,
                                     log: RunLog, results: seq<ResourceResult>)
  {
    |log.handled| == |log.kinds| == |results| && Planned(StandaloneOf(log), log.plans) &&
    forall i :: 0 <= i < |results| && log.kinds[i] == Standalone ==>
      StandsReported(cfg, images, atomicFailures, log, log.handled[i], results[i])
  }

  /** A standalone candidate's calls, the container left for it and its old container, as its result says. */
  ghost predicate StandsReported(cfg: UpdaterConfig, images: map<string, string>, atomicFailures: bool, log: RunLog,
                                 c: ContainerWithDeps, r: ResourceResult)
    requires Planned(StandaloneOf(log), log.plans)
  {
    && c.name in log.plans
    && (exists j :: 0 <= j < |StandaloneOf(log)| && StandaloneOf(log)[j] == c &&
                    SurvivorReported(cfg, images, log, c, r, j))
    && (UniqueIDs(StandaloneOf(log), log.plans) ==>
          StillThere(atomicFailures, log.found, log.left, log.plans[c.name], r))
  }

  ghost predicate SurvivorReported(cfg: UpdaterConfig, images: map<string, string>, log: RunLog, c: ContainerWithDeps,
                                   r: ResourceResult, j: nat)
    requires c.name in log.plans
  {
    && j < |log.survivors| && j < |log.stops| && j < |log.creates|
    && Stands(cfg, log.recentAPI, images, log.used, log.left, log.plans[c.name], r, log.survivors[j])
    && CallsTell(log.stops[j], log.creates[j], r)
  }

  method ExecuteRestartPlans(h: Host, cfg: UpdaterConfig, sorted: seq<ContainerWithDeps>, plans: map<Name, Plan>,
                             recentAPI: bool)
    returns (results: seq<ResourceResult>, ghost log: RunLog)
    requires h.Valid() && UniqueNames(sorted)
    modifies h`containers, h`usedIDs, h`trace
    ensures h.Valid() && h.trace == old(h.trace) + Calls(log)
    ensures log.handled == WithPlans(sorted, plans) && PlansInspected(plans, log.plans) && log.recentAPI == recentAPI
    ensures GroupsFit(cfg, h.projects, plans, sorted, log.groups)
    ensures AllFinished(cfg, h.projects, log, results)
    ensures CallsFit(cfg, log) && ComposeFits(cfg, h.projects, log)
    ensures StandaloneReported(cfg, h.images, h.atomicFailures, log, results)
    ensures KeepsOthers(log.found, log.left, StandaloneOf(log), log.plans)
    ensures log.selfUpdates == [] ==> h.containers == log.left
    ensures log.compose == [] ==> log.found == old(h.containers)
    ensures AllStandalone(log.kinds) && NoneFailed(results) ==>
              Planned(log.handled, log.plans) &&
              AllReplaced(cfg, recentAPI, h.images, old(h.containers), log.left, log.handled, log.plans)
  {
    hide *;
    ghost var before, start := h.containers, h.trace;
    var groups := BuildComposeGroups(cfg, h.projects, sorted, plans);
    var run := new RestartRun(cfg, h, sorted, plans, groups);
    DispatchAll(run, h, sorted);
    results, log := FinishRun(h, cfg, run, sorted, plans, recentAPI, before, start);
  }

  /** Dispatches the candidates that have a plan, in order. */
  method DispatchAll(run: RestartRun, h: Host, sorted: seq<ContainerWithDeps>)
    requires run.Fits() && h.Valid() && run.h == h && UniqueNames(sorted)
    requires run.handled == [] && run.kinds == [] && run.composeOps == []
    modifies run, h`containers, h`usedIDs, h`trace
    ensures run.Fits() && h.Valid() && h.trace == old(h.trace) + run.composeOps
    ensures run.handled == WithPlans(sorted, old(run.plans)) && PlansInspected(old(run.plans), run.plans)
    ensures AllStandalone(run.kinds) ==> run.composeOps == []
    ensures run.composeOps == [] ==> h.containers == old(h.containers)
  {
    hide *;
    ghost var before, start, plans := h.containers, h.trace, run.plans;
    NothingHandled(sorted, plans);
    for i := 0 to |sorted|
      invariant run.Fits() && h.Valid()
      invariant run.handled == WithPlans(sorted[..i], plans) && PlansInspected(plans, run.plans)
      invariant h.trace == start + run.composeOps
      invariant AllStandalone(run.kinds) ==> run.composeOps == []
      invariant run.composeOps == [] ==> h.containers == before
    {
      OneMoreHandled(sorted, plans, run.plans, i);
      var candidate := sorted[i];
      if candidate.name !in run.plans {
        continue;
      }
      ghost var was, kinds := run.plans, run.kinds;
      var ops := run.DispatchRestartCandidate(candidate);
      InspectedAlong(plans, was, run.plans, candidate.name);
      StandaloneAlong(kinds, run.kinds);
    }
    AllHandled(sorted, plans);
  }

  ghost predicate AllStandalone(kinds: seq<Kind>) {
    forall i :: 0 <= i < |kinds| ==> kinds[i] == Standalone
  }

  /** The phases after dispatch. */
  method FinishRun(h: Host, cfg: UpdaterConfig, run: RestartRun, ghost sorted: seq<ContainerWithDeps>,
                   ghost plans: map<Name, Plan>, recentAPI: bool, ghost before: Containers, ghost start: seq<Op>)
    returns (results: seq<ResourceResult>, ghost log: RunLog)
    requires run.Fits() && h.Valid() && run.cfg == cfg && run.h == h
    requires h.trace == start + run.composeOps
    requires AllStandalone(run.kinds) ==> run.composeOps == []
    requires run.composeOps == [] ==> h.containers == before
    modifies run, h`containers, h`usedIDs, h`trace
    ensures h.Valid() && h.trace == start + Calls(log)
    ensures log.handled == old(run.handled) && log.plans == old(run.plans) && log.groups == run.composeGroups
    ensures AllFinished(cfg, h.projects, log, results)
    ensures CallsFit(cfg, log) && ComposeFits(cfg, h.projects, log)
    ensures StandaloneReported(cfg, h.images, h.atomicFailures, log, results)
    ensures KeepsOthers(log.found, log.left, StandaloneOf(log), log.plans)
    ensures log.selfUpdates == [] ==> h.containers == log.left
    ensures log.found == old(h.containers) && log.compose == old(run.composeOps) && log.recentAPI == recentAPI
    ensures AllStandalone(log.kinds) && NoneFailed(results) ==>
              Planned(log.handled, log.plans) &&
              AllReplaced(cfg, recentAPI, h.images, before, log.left, log.handled, log.plans)
  {
    hide *;
    run.FitsParts();
    QueuedArePlanned(cfg, h.projects, run.composeGroups, run.plans, run.handled, run.kinds, run.results, run.queues);
    ghost var dispatched, found, used := run.results, h.containers, h.usedIDs;
    var patches, stops, creates, survivors :=
      UpdateStandaloneRestartCandidates(h, cfg, run.queues.standalone, run.plans, recentAPI);
    PhaseResultNames(cfg, run.queues.standalone, run.plans, patches);
    run.PatchStandalone(patches);
    ghost var patched, left := run.results, h.containers;
    StillOpen(cfg, h.projects, run.composeGroups, run.plans, run.handled, run.kinds, dispatched, run.queues,
              patched, patches);
    ghost var ops, selfPatches;
    ops, selfPatches := run.TriggerDeferredSelfUpdates();
    log := RunLog(run.composeGroups, run.handled, run.kinds, run.plans, recentAPI, run.composeOps, stops, creates,
                  survivors,
                  ops, found, used, left);
    results := run.results;
    AllPatched(cfg, h.projects, log, dispatched, run.queues, patched, patches, results, selfPatches);
    CallsGathered(cfg, log, run.processedProjects, run.queues, start);
    ComposeFitsLog(cfg, h.projects, log);
    StandaloneAllReported(h.images, h.atomicFailures, cfg, log, dispatched, run.queues, patched, patches,
                          results, selfPatches);
    SuccessIsEverywhere(log, run.queues, patched, patches, results, selfPatches);
  }

  lemma NothingHandled(sorted: seq<ContainerWithDeps>, plans: map<Name, Plan>)
    ensures WithPlans(sorted[..0], plans) == [] && PlansInspected(plans, plans)
    ensures forall ops: seq<Op> :: ops + [] == ops
  {
  }

  lemma {:induction false} WithPlansMembers(sorted: seq<ContainerWithDeps>, plans: map<Name, Plan>)
    ensures forall c :: c in WithPlans(sorted, plans) <==> c in sorted && c.name in plans
  {
    if sorted != [] {
      WithPlansMembers(sorted[..|sorted| - 1], plans);
      assert sorted == sorted[..|sorted| - 1] + [sorted[|sorted| - 1]];
    }
  }

  lemma OneMoreHandled(sorted: seq<ContainerWithDeps>, plans: map<Name, Plan>, now: map<Name, Plan>, i: nat)
    requires UniqueNames(sorted) && i < |sorted| && PlansInspected(plans, now)
    ensures sorted[i].name in now <==> sorted[i].name in plans
    ensures WithPlans(sorted[..i + 1], plans) ==
            if sorted[i].name in plans then WithPlans(sorted[..i], plans) + [sorted[i]]
            else WithPlans(sorted[..i], plans)
    ensures sorted[i].name !in NameSet(WithPlans(sorted[..i], plans))
  {
    assert sorted[..i + 1][..i] == sorted[..i];
    WithPlansMembers(sorted[..i], plans);
    var kept := WithPlans(sorted[..i], plans);
    forall k | 0 <= k < |kept| ensures kept[k].name != sorted[i].name {
      assert kept[k] in kept;
      var j :| 0 <= j < i && sorted[..i][j] == kept[k];
      assert sorted[j] == kept[k];
    }
  }

  lemma AllHandled(sorted: seq<ContainerWithDeps>, plans: map<Name, Plan>)
    ensures sorted[..|sorted|] == sorted
  {
  }

  lemma InspectedAlong(plans: map<Name, Plan>, was: map<Name, Plan>, now: map<Name, Plan>, name: Name)
    requires PlansInspected(plans, was) && OnlyInspects(was, now, name)
    ensures PlansInspected(plans, now)
  {
  }

  lemma StandaloneAlong(was: seq<Kind>, now: seq<Kind>)
    requires |now| == |was| + 1 && was <= now
    ensures AllStandalone(now) ==> AllStandalone(was) && now[|was|] == Standalone
  {
    if AllStandalone(now) {
      forall i | 0 <= i < |was| ensures was[i] == Standalone { assert was[i] == now[i]; }
    }
  }

  lemma QueuedArePlanned(cfg: UpdaterConfig, projects: map<string, string>, groups: Groups, plans: map<Name, Plan>,
                         handled: seq<ContainerWithDeps>, kinds: seq<Kind>, results: seq<ResourceResult>,
                         queues: Queues)
    requires RunFits(cfg, projects, groups, plans, handled, kinds, results) && QueuesFit(plans, handled, kinds, queues)
    ensures |handled| == |kinds| == |results| && UniqueNames(handled)
    ensures UniqueNames(queues.standalone) && Planned(queues.standalone, plans)
    ensures SelfResultsOpen(cfg, plans, handled, kinds, results)
  {
    WaitingPositions(handled, kinds, Standalone, queues.standaloneIndexes);
    var standalone := queues.standalone;
    forall j | 0 <= j < |standalone| ensures standalone[j].name in plans && plans[standalone[j].name].inspect.Some? {
      var i := queues.standaloneIndexes[standalone[j].name];
      assert Dispatched(cfg, projects, groups, handled[i], plans[handled[i].name], kinds[i], results[i]);
    }
    forall i | 0 <= i < |handled| && kinds[i] == SelfUpdating
      ensures handled[i].name in plans && results[i] == StandaloneRestartResult(cfg, handled[i], plans[handled[i].name])
    {
      assert Dispatched(cfg, projects, groups, handled[i], plans[handled[i].name], kinds[i], results[i]);
    }
  }

  lemma PhaseResultNames(cfg: UpdaterConfig, standalone: seq<ContainerWithDeps>, plans: map<Name, Plan>,
                         patches: seq<ResourceResult>)
    requires Planned(standalone, plans) && PhaseResults(cfg, standalone, plans, patches)
    ensures Names(patches, standalone) && |patches| == |standalone|
  {
  }

  /** The standalone results leave the self-updates' results open. */
  lemma StillOpen(cfg: UpdaterConfig, projects: map<string, string>, groups: Groups, plans: map<Name, Plan>,
                  handled: seq<ContainerWithDeps>, kinds: seq<Kind>, dispatched: seq<ResourceResult>, queues: Queues,
                  patched: seq<ResourceResult>, patches: seq<ResourceResult>)
    requires RunFits(cfg, projects, groups, plans, handled, kinds, dispatched)
    requires QueuesFit(plans, handled, kinds, queues)
    requires |patches| == |queues.standalone|
    requires Patched(patched, dispatched, queues.standaloneIndexes, queues.standalone, patches, |patches|)
    ensures |patched| == |handled| == |kinds| && SelfResultsOpen(cfg, plans, handled, kinds, patched)
    ensures forall i :: 0 <= i < |handled| && kinds[i] != Standalone ==> patched[i] == dispatched[i]
  {
    QueuedArePlanned(cfg, projects, groups, plans, handled, kinds, dispatched, queues);
    WaitingPositions(handled, kinds, Standalone, queues.standaloneIndexes);
    hide RunFits, QueuesFit, Select, StandaloneRestartResult;
  }

  /** After both phases every result is final. */
  lemma AllPatched(cfg: UpdaterConfig, projects: map<string, string>, log: RunLog, dispatched: seq<ResourceResult>,
                   queues: Queues, patched: seq<ResourceResult>, patches: seq<ResourceResult>,
                   results: seq<ResourceResult>, selfPatches: seq<ResourceResult>)
    requires RunFits(cfg, projects, log.groups, log.plans, log.handled, log.kinds, dispatched)
    requires QueuesFit(log.plans, log.handled, log.kinds, queues)
    requires Planned(queues.standalone, log.plans) && PhaseResults(cfg, queues.standalone, log.plans, patches)
    requires Patched(patched, dispatched, queues.standaloneIndexes, queues.standalone, patches, |patches|)
    requires SelfPatches(cfg, log.plans, Select(log.handled, log.kinds, SelfUpdating), selfPatches)
    requires Patched(results, patched, queues.selfUpdateIndexes, Select(log.handled, log.kinds, SelfUpdating),
                     selfPatches, |selfPatches|)
    ensures AllFinished(cfg, projects, log, results)
  {
    StillOpen(cfg, projects, log.groups, log.plans, log.handled, log.kinds, dispatched, queues, patched, patches);
    forall i | 0 <= i < |results|
      ensures log.handled[i].name in log.plans &&
              Finished(cfg, projects, log.groups, log.handled[i], log.plans[log.handled[i].name],
                       log.kinds[i], results[i])
    {
      EntryFinished(cfg, projects, log, dispatched, queues, patched, patches, results, selfPatches, i);
    }
  }

  lemma EntryFinished(cfg: UpdaterConfig, projects: map<string, string>, log: RunLog, dispatched: seq<ResourceResult>,
                      queues: Queues, patched: seq<ResourceResult>, patches: seq<ResourceResult>,
                      results: seq<ResourceResult>, selfPatches: seq<ResourceResult>, i: nat)
    requires RunFits(cfg, projects, log.groups, log.plans, log.handled, log.kinds, dispatched)
    requires QueuesFit(log.plans, log.handled, log.kinds, queues)
    requires Planned(queues.standalone, log.plans) && PhaseResults(cfg, queues.standalone, log.plans, patches)
    requires Patched(patched, dispatched, queues.standaloneIndexes, queues.standalone, patches, |patches|)
    requires SelfPatches(cfg, log.plans, Select(log.handled, log.kinds, SelfUpdating), selfPatches)
    requires Patched(results, patched, queues.selfUpdateIndexes, Select(log.handled, log.kinds, SelfUpdating),
                     selfPatches, |selfPatches|)
    requires i < |results| && |patched| == |log.handled| == |log.kinds|
    requires log.kinds[i] != Standalone ==> patched[i] == dispatched[i]
    ensures log.handled[i].name in log.plans
    ensures Finished(cfg, projects, log.groups, log.handled[i], log.plans[log.handled[i].name],
                     log.kinds[i], results[i])
  {
    var c, kind := log.handled[i], log.kinds[i];
    assert Dispatched(cfg, projects, log.groups, c, log.plans[c.name], kind, dispatched[i]);
    var waiting := Select(log.handled, log.kinds, SelfUpdating);
    var j := PatchedAt(log.handled, log.kinds, Standalone, queues.standaloneIndexes, patched, dispatched, patches, i);
    var k := PatchedAt(log.handled, log.kinds, SelfUpdating, queues.selfUpdateIndexes, results, patched,
                       selfPatches, i);
    hide Select, RouteOf, StandaloneRestartResult, FailedResult, IndexFits, QueueFits, UniqueNames, Patched;
    match kind
    case Settled =>
    case Standalone => assert IsStandaloneResult(cfg, queues.standalone[j], log.plans[c.name], patches[j]);
    case SelfUpdating => assert IsSelfResult(cfg, waiting[k], log.plans[c.name], selfPatches[k]);
  }

  /** A patched run of results, position by position: the patch of the candidate there if it waited for
      this phase, else the result from before. */
  lemma PatchedAt(handled: seq<ContainerWithDeps>, kinds: seq<Kind>, kind: Kind, index: map<Name, nat>,
                  results: seq<ResourceResult>, before: seq<ResourceResult>, patches: seq<ResourceResult>, i: nat)
    returns (k: nat)
    requires |handled| == |kinds| && UniqueNames(handled) && IndexFits(handled, kinds, kind, index) && i < |handled|
    requires |results| == |handled|
    requires Patched(results, before, index, Select(handled, kinds, kind), patches, |patches|)
    requires |patches| == |Select(handled, kinds, kind)|
    ensures if kinds[i] == kind then
              k < |patches| && Select(handled, kinds, kind)[k] == handled[i] && results[i] == patches[k]
            else results[i] == before[i]
  {
    WaitingPositions(handled, kinds, kind, index);
    SelectMembers(handled, kinds, kind);
    var waiting := Select(handled, kinds, kind);
    hide Select;
    k := 0;
    if kinds[i] == kind {
      assert handled[i] in waiting;
      k :| 0 <= k < |waiting| && waiting[k] == handled[i];
    }
  }

  lemma ComposeFitsLog(cfg: UpdaterConfig, projects: map<string, string>, log: RunLog)
    requires ComposeRouted(cfg, projects, log.groups, log.plans, log.handled, log.compose)
    ensures ComposeFits(cfg, projects, log)
  {
  }

  lemma CallsGathered(cfg: UpdaterConfig, log: RunLog, processed: set<string>, queues: Queues, start: seq<Op>)
    requires ComposeOpsFit(log.groups, processed, log.compose)
    requires QueuesFit(log.plans, log.handled, log.kinds, queues)
    requires Planned(queues.standalone, log.plans)
    requires PhaseBlocks(queues.standalone, log.plans, log.stops, log.creates, log.survivors)
    requires log.selfUpdates == if cfg.hasSelfUpdater then SelfOps(queues.selfUpdates) else []
    ensures CallsFit(cfg, log)
    ensures start + log.compose + JoinBack(log.stops) + Join(log.creates) + log.selfUpdates == start + Calls(log)
  {
    hide PhaseBlocks, ComposeOpsFit, QueueFits, Select, SelfOps, JoinBack, Join, IndexFits, Planned;
    assert StandaloneOf(log) == queues.standalone && QueueFits(log.plans, SelfUpdatesOf(log), queues.selfUpdates);
  }

  /** The standalone phase's reports stand at their candidates' positions. */
  lemma StandaloneAllReported(images: map<string, string>, atomicFailures: bool, cfg: UpdaterConfig, log: RunLog,
                              dispatched: seq<ResourceResult>, queues: Queues, patched: seq<ResourceResult>,
                              patches: seq<ResourceResult>, results: seq<ResourceResult>,
                              selfPatches: seq<ResourceResult>)
    requires QueuesFit(log.plans, log.handled, log.kinds, queues) && UniqueNames(log.handled)
    requires Planned(queues.standalone, log.plans)
    requires PhaseReported(cfg, log.recentAPI, images, atomicFailures, log.used, log.found, log.left, queues.standalone,
                           log.plans,
                           patches, log.survivors)
    requires CreatesFollowRemovals(log.stops, log.creates, patches)
    requires KeepsOthers(log.found, log.left, queues.standalone, log.plans)
    requires |patched| == |log.handled|
    requires Patched(patched, dispatched, queues.standaloneIndexes, queues.standalone, patches, |patches|)
    requires SelfPatches(cfg, log.plans, Select(log.handled, log.kinds, SelfUpdating), selfPatches)
    requires Patched(results, patched, queues.selfUpdateIndexes, Select(log.handled, log.kinds, SelfUpdating),
                     selfPatches, |selfPatches|)
    ensures StandaloneReported(cfg, images, atomicFailures, log, results)
    ensures KeepsOthers(log.found, log.left, StandaloneOf(log), log.plans)
  {
    hide KeepsOthers, Planned;
    assert StandaloneOf(log) == queues.standalone;
    forall i | 0 <= i < |results| && log.kinds[i] == Standalone
      ensures StandsReported(cfg, images, atomicFailures, log, log.handled[i], results[i])
    {
      var j := PatchedAt(log.handled, log.kinds, Standalone, queues.standaloneIndexes, patched, dispatched, patches, i);
      var k := PatchedAt(log.handled, log.kinds, SelfUpdating, queues.selfUpdateIndexes, results, patched,
                         selfPatches, i);
      hide *;
      ReportAt(cfg, images, atomicFailures, log, queues.standalone, patches, j);
    }
  }

  lemma ReportAt(cfg: UpdaterConfig, images: map<string, string>, atomicFailures: bool, log: RunLog,
                 standalone: seq<ContainerWithDeps>, patches: seq<ResourceResult>, j: nat)
    requires standalone == StandaloneOf(log) && Planned(standalone, log.plans) && j < |standalone|
    requires PhaseReported(cfg, log.recentAPI, images, atomicFailures, log.used, log.found, log.left, standalone,
                           log.plans, patches,
                           log.survivors)
    requires CreatesFollowRemovals(log.stops, log.creates, patches)
    ensures |patches| == |standalone| && StandsReported(cfg, images, atomicFailures, log, standalone[j], patches[j])
  {
    hide Stands, StillThere, UniqueIDs, CallsTell;
    assert SurvivorReported(cfg, images, log, standalone[j], patches[j], j);
  }

  /** If only standalone candidates ran and none failed, the standalone phase replaced them all. */
  lemma SuccessIsEverywhere(log: RunLog, queues: Queues, patched: seq<ResourceResult>, patches: seq<ResourceResult>,
                            results: seq<ResourceResult>, selfPatches: seq<ResourceResult>)
    requires QueuesFit(log.plans, log.handled, log.kinds, queues) && UniqueNames(log.handled)
    requires Planned(queues.standalone, log.plans) && |patches| == |queues.standalone| && |patched| == |log.handled|
    requires exists dispatched :: Patched(patched, dispatched, queues.standaloneIndexes, queues.standalone,
                                          patches, |patches|)
    requires Patched(results, patched, queues.selfUpdateIndexes, Select(log.handled, log.kinds, SelfUpdating),
                     selfPatches, |selfPatches|)
    ensures AllStandalone(log.kinds) && NoneFailed(results) ==>
              log.handled == queues.standalone && NoneFailed(patches)
  {
    WaitingPositions(log.handled, log.kinds, SelfUpdating, queues.selfUpdateIndexes);
    WaitingPositions(log.handled, log.kinds, Standalone, queues.standaloneIndexes);
    if AllStandalone(log.kinds) && NoneFailed(results) {
      SelectAll(log.handled, log.kinds);
      hide Select, IndexFits, QueueFits, UniqueNames, Planned;
      forall k | 0 <= k < |patches| ensures patches[k].status != Failed {
        var i := queues.standaloneIndexes[queues.standalone[k].name];
        assert results[i] == patched[i] == patches[k];
      }
    }
  }

  lemma {:induction false} SelectAll(handled: seq<ContainerWithDeps>, kinds: seq<Kind>)
    requires |handled| == |kinds| && AllStandalone(kinds)
    ensures Select(handled, kinds, Standalone) == handled
  {
    if handled != [] {
      var n := |handled| - 1;
      SelectAll(handled[..n], kinds[..n]);
      assert handled == handled[..n] + [handled[n]];
    }
  }
}
