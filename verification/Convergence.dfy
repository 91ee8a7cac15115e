/** Running restarts again: a settled host is left alone, and a successful run settles the host. */
module Convergence {
  import opened Wrappers
  import opened DockerTypes
  import opened Strings
  import opened Settings
  import opened Deps
  import opened Host
  import opened Matching
  import opened RestartTypes
  import opened Results
  import opened RestartScanning
  import opened ComposeGroups
  import opened StandalonePhase
  import opened RestartRunning
  import opened RestartService

  // ---------- A settled host is left alone ----------

  /** No eligible container is due to move. */
  ghost predicate NothingDue(containers: Containers, images: map<string, string>, cfg: UpdaterConfig,
                             request: Request) {
    forall id :: id in containers && IsEligible(cfg, request, id, containers[id]) ==>
      DueRef(cfg, images, request, id, containers[id]) == ""
  }

  /** With nothing due there is nothing to close over, and so no candidate. */
  lemma NothingMarked(cfg: UpdaterConfig, request: Request, view: View, d: Discovery)
    requires Discovered(view, cfg, request, d) && view.reliable
    requires NothingDue(view.containers, view.images, cfg, request)
    ensures Sorted(cfg, d) == []
  {
    forall n | n in d.initial ensures false {
      DueIsMarkedFirst(cfg, request, view, d, n);
    }
    assert ClosedUnderDependents(d.containers, {});
    assert d.marked == {};
    CandidatesAreSorted(cfg, d);
    hide Discovered, NothingDue, IsRestartClosure;
    EmptyOrNot(Sorted(cfg, d));
  }

  lemma EmptyOrNot(s: seq<ContainerWithDeps>)
    ensures s == [] || exists c :: c in s
  {
    if s != [] { assert s[0] in s; }
  }

  lemma DueIsMarkedFirst(cfg: UpdaterConfig, request: Request, view: View, d: Discovery, n: Name)
    requires Discovered(view, cfg, request, d) && view.reliable && n in d.initial
    ensures !NothingDue(view.containers, view.images, cfg, request)
  {
    PlanOrigin(view, cfg, request, d, n);
    PlanReason(view, cfg, request, d, n);
    var k :| 0 <= k < |d.containers| && d.containers[k].name == n;
    FoundContainer(view, cfg, request, d, d.containers[k]);
    hide Discovered, DueRef, IsEligible;
  }

  lemma GroupsNeedCandidates(cfg: UpdaterConfig, projects: map<string, string>, plans: map<Name, Plan>,
                             cs: seq<ContainerWithDeps>, groups: Groups)
    requires GroupsFit(cfg, projects, plans, cs, groups)
    ensures groups == map[] || cs != []
  {
    if groups != map[] {
      var id :| id in groups;
      assert GroupFits(cfg, projects, plans, cs, groups, id);
    }
  }

  lemma UpdatesNeedGroups(groups: Groups, processed: set<string>, ops: seq<Op>)
    requires ComposeOpsFit(groups, processed, ops)
    ensures ops == [] || groups != map[]
  {
    if ops != [] { assert ops[0].projectID in groups; }
  }

  /** A run with no candidates calls for nothing. */
  lemma NoCandidatesNoCalls(cfg: UpdaterConfig, projects: map<string, string>, d: Discovery, log: RunLog,
                            results: seq<ResourceResult>)
    requires Executed(cfg, projects, d, log, results) && Sorted(cfg, d) == []
    ensures results == [] && Calls(log) == [] && log.kinds == [] && log.compose == []
    ensures log.handled == [] && StandaloneOf(log) == []
  {
    assert log.handled == [] && results == [] && log.kinds == [];
    assert StandaloneOf(log) == [] && SelfUpdatesOf(log) == [];
    GroupsNeedCandidates(cfg, projects, d.plans, Sorted(cfg, d), log.groups);
    hide AllFinished, GroupsFit, Sorted;
    var processed :| ComposeOpsFit(log.groups, processed, log.compose);
    assert PhaseBlocks([], log.plans, log.stops, log.creates, log.survivors);
    assert log.stops == [] && log.creates == [];
    UpdatesNeedGroups(log.groups, processed, log.compose);
    var queue :| QueueFits(log.plans, [], queue) &&
      log.selfUpdates == if cfg.hasSelfUpdater then SelfOps(queue) else [];
  }

  /** Without a self-update nothing changes after the standalone phase. */
  lemma StandaloneRunEndsAsLeft(cfg: UpdaterConfig, projects: map<string, string>, request: Request,
                                atomicFailures: bool, run: RunRecord, after: Containers,
                                results: seq<ResourceResult>)
    requires RunHolds(cfg, projects, request, atomicFailures, run, after, results) && AllStandalone(run.log.kinds)
    ensures after == run.log.left
  {
    var log := run.log;
    assert CallsFit(cfg, log) && (log.selfUpdates == [] ==> after == log.left);
    NoneOfKind(log.handled, log.kinds, SelfUpdating);
    var waiting := SelfUpdatesOf(log);
    hide RunHolds, SelfUpdatesOf, StandaloneOf;
    var queue :| QueueFits(log.plans, waiting, queue) &&
      log.selfUpdates == if cfg.hasSelfUpdater then SelfOps(queue) else [];
  }

  lemma {:induction false} NoneOfKind(handled: seq<ContainerWithDeps>, kinds: seq<Kind>, k: Kind)
    requires |handled| == |kinds| && forall i :: 0 <= i < |kinds| ==> kinds[i] != k
    ensures Select(handled, kinds, k) == []
  {
    if handled != [] { NoneOfKind(handled[..|handled| - 1], kinds[..|handled| - 1], k); }
  }

  /** If no eligible container is due and no read fails, a run returns no results, makes no call and
      leaves the host's containers as they are. */
  lemma SettledRunDoesNothing(cfg: UpdaterConfig, projects: map<string, string>, request: Request, atomicFailures: bool,
                              run: RunRecord, after: Containers, results: seq<ResourceResult>)
    requires RunHolds(cfg, projects, request, atomicFailures, run, after, results) && run.view.reliable
    requires NothingDue(run.view.containers, run.view.images, cfg, request)
    ensures results == [] && Calls(run.log) == [] && after == run.view.containers
  {
    hide Discovered, Executed, StandaloneReported, NothingDue, StandaloneOf;
    NothingMarked(cfg, request, run.view, run.d);
    NoCandidatesNoCalls(cfg, projects, run.d, run.log, results);
    StandaloneRunEndsAsLeft(cfg, projects, request, atomicFailures, run, after, results);
    assert AllReplaced(cfg, run.log.recentAPI, run.view.images, run.view.containers, after, [], run.log.plans);
    assert KeepsOthers(run.view.containers, after, [], run.log.plans);
    hide RunHolds;
  }

  // ---------- A successful standalone run settles the host ----------

  /** The container's match, if any, resolves to the image it is on. */
  predicate OnTarget(cfg: UpdaterConfig, images: map<string, string>, request: Request, id: string, c: Container) {
    var m := MatchedUpdate(cfg, SummaryOf(id, c), InspectOf(c), request.updates).0;
    m == "" || c.imageID in RefIDs(images, cfg.normalize, m)
  }

  lemma OnTargetIsNotDue(cfg: UpdaterConfig, images: map<string, string>, request: Request, id: string, c: Container)
    requires ProperID(c.imageID)
    ensures DueRef(cfg, images, request, id, c) == "" <==> OnTarget(cfg, images, request, id, c)
  {
    hide MatchedUpdate, RefIDs, TrimSpace;
  }

  /** The container as the run makes it anew from a reference. */
  function Moved(c: Container, images: map<string, string>, ref: string): Container
    requires ref in images
  {
    c.(config := Config(ref, c.config.labels), imageID := images[ref])
  }

  /** Moving the plan's container to the plan's reference leaves it where its own match, if any, wants it. */
  predicate StaysPut(cfg: UpdaterConfig, view: View, request: Request, plan: Plan) {
    var id := plan.cnt.id;
    id in view.containers && plan.newRef in view.images ==>
      OnTarget(cfg, view.images, request, id, Moved(view.containers[id], view.images, plan.newRef))
  }

  /** The same answers from the policy and the same compose project and service. */
  predicate SamePolicy(cfg: UpdaterConfig, a: Labels, b: Labels) {
    && cfg.policy.isUpdateDisabled(a) == cfg.policy.isUpdateDisabled(b)
    && cfg.policy.isSwarmTask(a) == cfg.policy.isSwarmTask(b)
    && cfg.policy.isSelfUpdateTarget(a) == cfg.policy.isSelfUpdateTarget(b)
    && ProjectLabel(a) == ProjectLabel(b) && ServiceLabel(a) == ServiceLabel(b)
  }

  ghost predicate RefreshKeepsPolicy(cfg: UpdaterConfig) {
    forall labels, ref :: SamePolicy(cfg, labels, cfg.refreshLabels(labels, ref))
  }

  /** After a run of standalone containers without a failure, the host is settled if and only if every plan
      it carried out stays put: a test on the plans and images of before the run. */
  lemma SuccessSettlesExactly(cfg: UpdaterConfig, projects: map<string, string>, request: Request, atomicFailures: bool,
                              run: RunRecord, after: Containers, results: seq<ResourceResult>)
    requires RunHolds(cfg, projects, request, atomicFailures, run, after, results) && run.view.reliable
    requires AllStandalone(run.log.kinds) && NoneFailed(results) && RefreshKeepsPolicy(cfg)
    ensures NothingDue(after, run.view.images, cfg, request) <==>
            forall n :: n in run.d.marked && n in run.d.plans ==> StaysPut(cfg, run.view, request, run.d.plans[n])
  {
    var images, handled, plans := run.view.images, run.log.handled, run.log.plans;
    StandaloneRunEndsAsLeft(cfg, projects, request, atomicFailures, run, after, results);
    assert Discovered(run.view, cfg, request, run.d) && Executed(cfg, projects, run.d, run.log, results);
    assert Planned(handled, plans);
    assert AllReplaced(cfg, run.log.recentAPI, images, run.view.containers, after, handled, plans);
    if forall n :: n in run.d.marked && n in run.d.plans ==> StaysPut(cfg, run.view, request, run.d.plans[n]) {
      hide RunHolds, Discovered, Executed, DueRef, IsEligible, StaysPut, Planned, AllReplaced, RefreshKeepsPolicy;
      forall id | id in after && IsEligible(cfg, request, id, after[id])
        ensures DueRef(cfg, images, request, id, after[id]) == ""
      {
        PutIsNotDue(cfg, projects, request, run, after, results, id);
      }
    }
    hide RunHolds, Discovered, Executed, DueRef, IsEligible, StaysPut, Planned, AllReplaced, RefreshKeepsPolicy,
      AllStandalone, NoneFailed;
    if NothingDue(after, images, cfg, request) {
      forall n | n in run.d.marked && n in run.d.plans ensures StaysPut(cfg, run.view, request, run.d.plans[n]) {
        NotDueIsPut(cfg, projects, request, atomicFailures, run, after, results, n);
      }
    }
  }

  /** A container left by a run whose plans all stay put is not due. */
  lemma PutIsNotDue(cfg: UpdaterConfig, projects: map<string, string>, request: Request, run: RunRecord,
                    after: Containers, results: seq<ResourceResult>, id: string)
    requires Discovered(run.view, cfg, request, run.d) && Executed(cfg, projects, run.d, run.log, results)
    requires run.view.reliable && RefreshKeepsPolicy(cfg) && Planned(run.log.handled, run.log.plans)
    requires AllReplaced(cfg, run.log.recentAPI, run.view.images, run.view.containers, after, run.log.handled,
                         run.log.plans)
    requires forall n :: n in run.d.marked && n in run.d.plans ==> StaysPut(cfg, run.view, request, run.d.plans[n])
    requires id in after && IsEligible(cfg, request, id, after[id])
    ensures DueRef(cfg, run.view.images, request, id, after[id]) == ""
  {
    var images, handled, plans := run.view.images, run.log.handled, run.log.plans;
    hide *;
    var k := ReplacedOrKept(cfg, run.log.recentAPI, images, run.view.containers, after, handled, plans, id);
    if k < |handled| {
      ReplacementIsMoved(cfg, projects, request, run, results, k, id, after[id]);
      OnTargetIsNotDue(cfg, images, request, id, after[id]);
    } else {
      UntouchedIsNotDue(cfg, projects, request, run, results, id);
    }
  }

  /** A container left is the replacement made for the candidate at `k`, or else untouched. */
  lemma ReplacedOrKept(cfg: UpdaterConfig, recentAPI: bool, images: map<string, string>, before: Containers,
                       after: Containers, handled: seq<ContainerWithDeps>, plans: map<Name, Plan>,
                       id: string) returns (k: nat)
    requires Planned(handled, plans) && AllReplaced(cfg, recentAPI, images, before, after, handled, plans)
    requires id in after
    ensures k < |handled| ==>
              handled[k].name in plans && IsReplacement(cfg, recentAPI, images, plans[handled[k].name], after[id])
    ensures k >= |handled| ==>
              id in before && after[id] == before[id] &&
              forall j :: 0 <= j < |handled| ==> handled[j].name in plans && OldID(handled, plans, j) != id
  {
    hide IsReplacement;
    if j :| 0 <= j < |handled| && IsReplacement(cfg, recentAPI, images, plans[handled[j].name], after[id]) {
      return j;
    }
    return |handled|;
  }

  /** If the host is settled, the replacement of every marked container stays put. */
  lemma NotDueIsPut(cfg: UpdaterConfig, projects: map<string, string>, request: Request, atomicFailures: bool,
                    run: RunRecord, after: Containers, results: seq<ResourceResult>, n: Name)
    requires RunHolds(cfg, projects, request, atomicFailures, run, after, results) && after == run.log.left
    requires Discovered(run.view, cfg, request, run.d) && Executed(cfg, projects, run.d, run.log, results)
    requires run.view.reliable && RefreshKeepsPolicy(cfg) && AllStandalone(run.log.kinds) && NoneFailed(results)
    requires NothingDue(after, run.view.images, cfg, request) && n in run.d.marked && n in run.d.plans
    ensures StaysPut(cfg, run.view, request, run.d.plans[n])
  {
    var k := MarkedNameIsHandled(cfg, projects, request, run, results, n);
    assert run.log.kinds[k] == Standalone;
    var id := ResultsTellHowThingsStand(cfg, projects, request, atomicFailures, run, after, results, k);
    assert results[k].status != Failed;
    assert IsReplacement(cfg, run.log.recentAPI, run.view.images, run.log.plans[n], after[id]);
    hide RunHolds, Discovered, Executed, DueRef, IsEligible, StaysPut, RefreshKeepsPolicy, IsReplacement, OnTarget;
    ReplacementIsMoved(cfg, projects, request, run, results, k, id, after[id]);
    OnTargetIsNotDue(cfg, run.view.images, request, id, after[id]);
  }

  /** A replacement is eligible, and on target exactly if its plan stays put. */
  lemma ReplacementIsMoved(cfg: UpdaterConfig, projects: map<string, string>, request: Request, run: RunRecord,
                           results: seq<ResourceResult>, k: nat, id: string, c: Container)
    requires Discovered(run.view, cfg, request, run.d) && Executed(cfg, projects, run.d, run.log, results)
    requires run.view.reliable && RefreshKeepsPolicy(cfg) && k < |run.log.handled|
    requires run.log.handled[k].name in run.log.plans
    requires IsReplacement(cfg, run.log.recentAPI, run.view.images, run.log.plans[run.log.handled[k].name], c)
    ensures run.log.handled[k].name in run.d.marked && run.log.handled[k].name in run.d.plans
    ensures IsEligible(cfg, request, id, c) && ProperID(c.imageID)
    ensures OnTarget(cfg, run.view.images, request, id, c) <==>
            StaysPut(cfg, run.view, request, run.d.plans[run.log.handled[k].name])
  {
    var h := run.log.handled[k];
    CandidatesAreSorted(cfg, run.d);
    HandledPlan(cfg, projects, run.d, run.log, results, k);
    FoundContainer(run.view, cfg, request, run.d, h);
    MarkedNeedsInitial(run.d.containers, run.d.initial, run.d.marked, h.name);
    PlansKnowTheirContainers(run.view, cfg, request, run.d, h.name);
    assert PlansInspected(run.d.plans, run.log.plans);
    assert run.log.plans[h.name] == run.d.plans[h.name];
    assert ProperImages(run.view.images) && NoBlankNames(run.view.containers);
    hide Discovered, Executed, Sorted, OnTarget, IsEligible, IsReplacement, RefreshKeepsPolicy, ProperID;
    MovedAlike(cfg, run.log.recentAPI, run.view.images, request, run.d.plans[h.name],
               run.view.containers[h.container.id], id, c);
  }

  lemma MarkedNeedsInitial(cs: seq<ContainerWithDeps>, initial: set<Name>, marked: set<Name>, n: Name)
    requires IsRestartClosure(cs, initial, marked) && n in marked
    ensures initial != {}
  {
    assert ClosedUnderDependents(cs, {});
  }

  /** What matters about a replacement is what `Moved` keeps of the old container. */
  lemma MovedAlike(cfg: UpdaterConfig, recentAPI: bool, images: map<string, string>, request: Request, plan: Plan,
                   was: Container, id: string, c: Container)
    requires plan.inspect == Some(InspectOf(was)) && was.name != "" && IsEligible(cfg, request, plan.cnt.id, was)
    requires IsReplacement(cfg, recentAPI, images, plan, c) && RefreshKeepsPolicy(cfg) && ProperImages(images)
    ensures IsEligible(cfg, request, id, c) && ProperID(c.imageID) && plan.newRef in images
    ensures OnTarget(cfg, images, request, id, c) <==>
            OnTarget(cfg, images, request, plan.cnt.id, Moved(was, images, plan.newRef))
  {
    assert c.name == was.name by { assert TrimPrefix("/" + was.name, "/") == was.name; }
    assert SamePolicy(cfg, was.config.labels, c.config.labels) by {
      assert SamePolicy(cfg, was.config.labels, cfg.refreshLabels(was.config.labels, plan.newRef));
    }
    SameMatch(cfg, request, id, c, plan.cnt.id, Moved(was, images, plan.newRef));
    hide MatchedUpdate, RefIDs, SamePolicy, RefreshKeepsPolicy, ProperID;
    SameEligibility(cfg, request, plan.cnt.id, was, id, c);
  }

  /** A match depends on the image and its reference, and on the compose labels. */
  lemma SameMatch(cfg: UpdaterConfig, request: Request, id: string, c: Container, id': string, c': Container)
    requires c.imageID == c'.imageID && c.config.image == c'.config.image
    requires SamePolicy(cfg, c'.config.labels, c.config.labels)
    ensures MatchedUpdate(cfg, SummaryOf(id, c), InspectOf(c), request.updates) ==
            MatchedUpdate(cfg, SummaryOf(id', c'), InspectOf(c'), request.updates)
  {
    hide ResolveImageRefMatch, ProjectLabel, ServiceLabel, IsImageIDLike, TrimSpace;
  }

  /** Eligibility depends on the name and on what the policy says of the labels. */
  lemma SameEligibility(cfg: UpdaterConfig, request: Request, id: string, c: Container, id': string, c': Container)
    requires IsEligible(cfg, request, id, c) && c'.running && c'.name == c.name
    requires SamePolicy(cfg, c.config.labels, c'.config.labels)
    ensures IsEligible(cfg, request, id', c')
  {
    assert SummaryOf(id', c').names == SummaryOf(id, c).names;
  }

  /** A container no candidate stood for was not due. */
  lemma UntouchedIsNotDue(cfg: UpdaterConfig, projects: map<string, string>, request: Request, run: RunRecord,
                          results: seq<ResourceResult>, id: string)
    requires Discovered(run.view, cfg, request, run.d) && Executed(cfg, projects, run.d, run.log, results)
    requires run.view.reliable
    requires Planned(run.log.handled, run.log.plans)
    requires id in run.view.containers && IsEligible(cfg, request, id, run.view.containers[id])
    requires forall k :: 0 <= k < |run.log.handled| ==> OldID(run.log.handled, run.log.plans, k) != id
    ensures DueRef(cfg, run.view.images, request, id, run.view.containers[id]) == ""
  {
    var c := UnmarkedIsNotDue(cfg, request, run.view, run.d, id);
    hide Discovered, Executed, DueRef, IsEligible;
    if c.name in run.d.marked {
      var k := MarkedIsHandled(cfg, projects, request, run, results, c);
    }
  }

  /** A marked container is handled under its own ID. */
  lemma MarkedIsHandled(cfg: UpdaterConfig, projects: map<string, string>, request: Request, run: RunRecord,
                        results: seq<ResourceResult>, c: ContainerWithDeps) returns (k: nat)
    requires Discovered(run.view, cfg, request, run.d) && Executed(cfg, projects, run.d, run.log, results)
    requires c in run.d.containers && c.name in run.d.marked && c.name in run.d.plans
    requires Planned(run.log.handled, run.log.plans)
    ensures k < |run.log.handled| && OldID(run.log.handled, run.log.plans, k) == run.d.plans[c.name].cnt.id
  {
    CandidatesAreSorted(cfg, run.d);
    assert run.log.handled == Sorted(cfg, run.d);
    hide Discovered, Sorted;
    k :| 0 <= k < |run.log.handled| && run.log.handled[k] == c;
    HandledPlan(cfg, projects, run.d, run.log, results, k);
  }

  /** ... and every marked name is. */
  lemma MarkedNameIsHandled(cfg: UpdaterConfig, projects: map<string, string>, request: Request, run: RunRecord,
                            results: seq<ResourceResult>, n: Name) returns (k: nat)
    requires Discovered(run.view, cfg, request, run.d) && Executed(cfg, projects, run.d, run.log, results)
    requires n in run.d.marked && n in run.d.plans
    ensures k < |run.log.handled| == |run.log.kinds| == |results| && run.log.handled[k].name == n
    ensures n in run.log.plans
  {
    assert AllFinished(cfg, projects, run.log, results) && PlansInspected(run.d.plans, run.log.plans);
    hide Discovered, Executed;
    ResultsNameTheClosure(run.view, cfg, projects, request, run.d, run.log, results, n);
    ResultNames(cfg, projects, run.log, results);
    k :| 0 <= k < |results| && results[k].resourceName == n;
    hide Finished, UniqueNames;
  }

  lemma UnmarkedIsNotDue(cfg: UpdaterConfig, request: Request, view: View, d: Discovery,
                         id: string) returns (c: ContainerWithDeps)
    requires Discovered(view, cfg, request, d) && view.reliable
    requires id in view.containers && IsEligible(cfg, request, id, view.containers[id])
    ensures c in d.containers && c.name in d.plans && d.plans[c.name].cnt.id == id
    ensures c.name !in d.marked ==> DueRef(cfg, view.images, request, id, view.containers[id]) == ""
  {
    c := EligibleIsFound(view, cfg, request, d, id);
    FoundContainer(view, cfg, request, d, c);
    PlanReason(view, cfg, request, d, c.name);
    hide Discovered, DueRef, IsEligible;
  }

  /** Execution fetches inspect responses but changes no plan. */
  lemma HandledPlan(cfg: UpdaterConfig, projects: map<string, string>, d: Discovery, log: RunLog,
                    results: seq<ResourceResult>, k: nat)
    requires Executed(cfg, projects, d, log, results) && k < |log.handled|
    ensures log.handled[k] in Sorted(cfg, d)
    ensures var n := log.handled[k].name;
      n in log.plans && n in d.plans && log.plans[n] == d.plans[n].(inspect := log.plans[n].inspect)
  {
    hide Sorted, CallsFit, GroupsFit, Finished;
  }

  /** Where a container on this reference and image could be matched to. */
  predicate IsTarget(cfg: UpdaterConfig, updates: Updates, ref: string, imageID: string, target: string) {
    || (imageID in updates.oldIDToNewRef && target == updates.oldIDToNewRef[imageID])
    || target == ResolveImageRefMatch(cfg, ref, updates.updatedNorm).0
    || target == ResolveImageRefMatch(cfg, imageID, updates.updatedNorm).0
  }

  /** Every key that matches a reference the run recreates from, or the image that names, maps to a
      reference that resolves to that same image. */
  ghost predicate KeysAgree(cfg: UpdaterConfig, images: map<string, string>, updates: Updates, ref: string) {
    ref in images ==> forall target :: target != "" && IsTarget(cfg, updates, ref, images[ref], target) ==>
      images[ref] in RefIDs(images, cfg.normalize, target)
  }

  lemma MatchIsTarget(cfg: UpdaterConfig, request: Request, id: string, c: Container)
    ensures var m := MatchedUpdate(cfg, SummaryOf(id, c), InspectOf(c), request.updates).0;
      m == "" || IsTarget(cfg, request.updates, c.config.image, c.imageID, m)
  {
    hide ResolveImageRefMatch, ShouldInspectUnmatched;
  }

  /** Convergence: when the keys agree, a successful standalone run settles the host, whatever the labels
      it gave the replacements. */
  lemma SuccessSettles(cfg: UpdaterConfig, projects: map<string, string>, request: Request, atomicFailures: bool,
                       run: RunRecord, after: Containers, results: seq<ResourceResult>)
    requires RunHolds(cfg, projects, request, atomicFailures, run, after, results) && run.view.reliable
    requires AllStandalone(run.log.kinds) && NoneFailed(results)
    requires forall n :: n in run.d.marked && n in run.d.plans ==>
               KeysAgree(cfg, run.view.images, request.updates, run.d.plans[n].newRef)
    ensures NothingDue(after, run.view.images, cfg, request)
  {
    StandaloneRunEndsAsLeft(cfg, projects, request, atomicFailures, run, after, results);
    assert Discovered(run.view, cfg, request, run.d) && Executed(cfg, projects, run.d, run.log, results);
    assert Planned(run.log.handled, run.log.plans);
    assert AllReplaced(cfg, run.log.recentAPI, run.view.images, run.view.containers, after, run.log.handled,
                       run.log.plans);
    hide RunHolds, Discovered, Executed, DueRef, IsEligible, KeysAgree, AllReplaced, Planned, AllStandalone, NoneFailed;
    forall id | id in after && IsEligible(cfg, request, id, after[id])
      ensures DueRef(cfg, run.view.images, request, id, after[id]) == ""
    {
      AgreedIsNotDue(cfg, projects, request, run, after, results, id);
    }
  }

  /** A container left by a run under agreeing keys is not due. */
  lemma AgreedIsNotDue(cfg: UpdaterConfig, projects: map<string, string>, request: Request, run: RunRecord,
                       after: Containers, results: seq<ResourceResult>, id: string)
    requires Discovered(run.view, cfg, request, run.d) && Executed(cfg, projects, run.d, run.log, results)
    requires run.view.reliable && Planned(run.log.handled, run.log.plans)
    requires AllReplaced(cfg, run.log.recentAPI, run.view.images, run.view.containers, after, run.log.handled,
                         run.log.plans)
    requires forall n :: n in run.d.marked && n in run.d.plans ==>
               KeysAgree(cfg, run.view.images, request.updates, run.d.plans[n].newRef)
    requires id in after && IsEligible(cfg, request, id, after[id])
    ensures DueRef(cfg, run.view.images, request, id, after[id]) == ""
  {
    var images, handled, plans := run.view.images, run.log.handled, run.log.plans;
    hide *;
    var k := ReplacedOrKept(cfg, run.log.recentAPI, images, run.view.containers, after, handled, plans, id);
    if k < |handled| {
      ReplacementIsOnTarget(cfg, projects, request, run, results, k, id, after[id]);
      OnTargetIsNotDue(cfg, images, request, id, after[id]);
    } else {
      UntouchedIsNotDue(cfg, projects, request, run, results, id);
    }
  }

  lemma ReplacementIsOnTarget(cfg: UpdaterConfig, projects: map<string, string>, request: Request, run: RunRecord,
                              results: seq<ResourceResult>, k: nat, id: string, c: Container)
    requires Discovered(run.view, cfg, request, run.d) && Executed(cfg, projects, run.d, run.log, results)
    requires k < |run.log.handled| && run.log.handled[k].name in run.log.plans
    requires IsReplacement(cfg, run.log.recentAPI, run.view.images, run.log.plans[run.log.handled[k].name], c)
    requires forall n :: n in run.d.marked && n in run.d.plans ==>
               KeysAgree(cfg, run.view.images, request.updates, run.d.plans[n].newRef)
    ensures OnTarget(cfg, run.view.images, request, id, c) && ProperID(c.imageID)
  {
    CandidatesAreSorted(cfg, run.d);
    HandledPlan(cfg, projects, run.d, run.log, results, k);
    MatchIsTarget(cfg, request, id, c);
    assert ProperImages(run.view.images);
    hide Discovered, Executed, Sorted, IsTarget, MatchedUpdate, RefIDs, ProperID;
    assert KeysAgree(cfg, run.view.images, request.updates, run.d.plans[run.log.handled[k].name].newRef);
  }

  /** After a successful standalone run with agreeing keys, running again on what it left returns no
      results and makes no call. */
  lemma SecondRunIsIdle(cfg: UpdaterConfig, projects: map<string, string>, request: Request, atomicFailures: bool,
                        first: RunRecord, middle: Containers, results: seq<ResourceResult>,
                        second: RunRecord, after: Containers, again: seq<ResourceResult>)
    requires RunHolds(cfg, projects, request, atomicFailures, first, middle, results) && first.view.reliable
    requires AllStandalone(first.log.kinds) && NoneFailed(results)
    requires forall n :: n in first.d.marked && n in first.d.plans ==>
               KeysAgree(cfg, first.view.images, request.updates, first.d.plans[n].newRef)
    requires RunHolds(cfg, projects, request, atomicFailures, second, after, again)
    requires second.view == first.view.(containers := middle)
    ensures again == [] && Calls(second.log) == [] && after == middle
  {
    SuccessSettles(cfg, projects, request, atomicFailures, first, middle, results);
    hide *;
    SettledRunDoesNothing(cfg, projects, request, atomicFailures, second, after, again);
  }

  /** A match by image ID comes first. */
  lemma DueByImageID(cfg: UpdaterConfig, images: map<string, string>, request: Request, id: string, c: Container)
    requires ProperID(c.imageID) && c.imageID in request.updates.oldIDToNewRef
    requires var ref := request.updates.oldIDToNewRef[c.imageID]; ref != "" && ref in images
    ensures var ref := request.updates.oldIDToNewRef[c.imageID];
      DueRef(cfg, images, request, id, c) == if images[ref] == c.imageID then "" else ref
  {
  }
}
