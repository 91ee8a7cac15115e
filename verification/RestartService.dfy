/**
 A restart run from end to end: discovery, the closure of restarts, ordering and execution; and what
 running it again does.
 */
module RestartService {
  import opened Wrappers
  import opened DockerTypes
  import opened Strings
  import opened Settings
  import opened Deps
  import opened Host
  import opened Matching
  import opened RestartTypes
  import opened Results
  import opened RestartScanning
  import opened RestartOrder
  import opened ComposeGroups
  import opened StandalonePhase
  import opened RestartRunning
  import opened RunTheorems

  /** What a run is asked for: the applied updates and the containers to leave alone. */
  datatype Request = Request(updates: Updates, excluded: set<string>, proxyName: string)

  // ---------- What is due ----------

  predicate IsEligible(cfg: UpdaterConfig, request: Request, id: string, c: Container) {
    c.running && !ShouldSkipSummary(cfg, request.excluded, request.proxyName, SummaryOf(id, c))
  }

  /** The reference a container is due to move to, blank for none. */
  function DueRef(cfg: UpdaterConfig, images: map<string, string>, request: Request, id: string, c: Container): string {
    ExplicitRef(cfg, images, SummaryOf(id, c), InspectOf(c), request.updates)
  }

  // ---------- The stages of a run ----------

  /** What discovery went through: the listing, the scan, the dependencies, the closure, the order. */
  datatype Discovery = Discovery(
    listed: seq<Summary>,
    scanned: seq<ContainerWithDeps>,
    scannedPlans: map<Name, Plan>,
    initial: set<Name>,
    containers: seq<ContainerWithDeps>,
    resolvedPlans: map<Name, Plan>,
    marked: set<Name>,
    plans: map<Name, Plan>,
    base: seq<ContainerWithDeps>)

  ghost predicate ProperView(view: View) {
    UniqueContainerNames(view.containers) && NoBlankNames(view.containers) && ProperImages(view.images)
  }

  ghost predicate Discovered(view: View, cfg: UpdaterConfig, request: Request, d: Discovery) {
    && ProperView(view) && ListsRunning(view.containers, d.listed)
    && ScanFits(view, cfg, request.updates, Eligible(cfg, request.excluded, request.proxyName, d.listed),
                d.scannedPlans, d.initial, d.scanned)
    && (if d.initial == {} then d.containers == d.scanned && d.resolvedPlans == d.scannedPlans
        else Resolved(view, d.scanned, d.containers, d.scannedPlans, d.resolvedPlans, |d.scanned|))
    && IsRestartClosure(d.containers, d.initial, d.marked)
    && d.plans == ImplicitPlans(d.resolvedPlans, d.marked - d.initial)
    && UniqueNames(d.containers) && IsBaseOrder(Candidates(d.containers, d.marked), d.base)
  }

  /** The order the candidates are handled in. */
  ghost function Sorted(cfg: UpdaterConfig, d: Discovery): seq<ContainerWithDeps> {
    Partition(cfg, d.plans, d.base)
  }

  ghost predicate Executed(cfg: UpdaterConfig, projects: map<string, string>, d: Discovery, log: RunLog,
                           results: seq<ResourceResult>)
  {
    && log.handled == Sorted(cfg, d) && PlansInspected(d.plans, log.plans)
    && GroupsFit(cfg, projects, d.plans, Sorted(cfg, d), log.groups)
    && AllFinished(cfg, projects, log, results)
    && CallsFit(cfg, log) && ComposeFits(cfg, projects, log)
  }

  datatype RunRecord = RunRecord(view: View, d: Discovery, log: RunLog)

  /** All that holds of a run that came through. */
  ghost predicate RunHolds(cfg: UpdaterConfig, projects: map<string, string>, request: Request, atomicFailures: bool,
                           run: RunRecord, after: Containers, results: seq<ResourceResult>)
  {
    && Discovered(run.view, cfg, request, run.d)
    && Executed(cfg, projects, run.d, run.log, results)
    && StandaloneReported(cfg, run.view.images, atomicFailures, run.log, results)
    && KeepsOthers(run.log.found, run.log.left, StandaloneOf(run.log), run.log.plans)
    && (run.log.compose == [] ==> run.log.found == run.view.containers)
    && (run.log.selfUpdates == [] ==> after == run.log.left)
    && (AllStandalone(run.log.kinds) && NoneFailed(results) ==>
          Planned(run.log.handled, run.log.plans) &&
          AllReplaced(cfg, run.log.recentAPI, run.view.images, run.view.containers, run.log.left, run.log.handled,
                      run.log.plans))
  }

  /** Restarts everything due and everything that depends on it. An error leaves the host alone. */
  method RestartContainersUsingOldImages(h: Host, cfg: UpdaterConfig, request: Request, recentAPI: bool)
    returns (results: Option<seq<ResourceResult>>, ghost run: Option<RunRecord>)
    requires h.Valid()
    modifies h`containers, h`usedIDs, h`trace
    ensures h.Valid() && results.Some? == run.Some?
    ensures results.None? ==> h.trace == old(h.trace) && h.containers == old(h.containers)
    ensures results.Some? ==>
      && run.value.view == old(ViewOf(h)) && h.trace == old(h.trace) + Calls(run.value.log)
      && run.value.log.recentAPI == recentAPI
      && RunHolds(cfg, h.projects, request, h.atomicFailures, run.value, h.containers, results.value)
  {
    hide *;
    results, run := None, None;
    var connected: bool := *;
    if !connected {
      return;
    }
    var listed := h.ListRunning();
    var excludedKnown: bool := *;
    if listed.None? || !excludedKnown {
      return;
    }
    var sorted, plans, d := Discover(h, cfg, request, listed.value);
    ghost var view := ViewOf(h);
    var final, log := ExecuteRestartPlans(h, cfg, sorted, plans, recentAPI);
    Executes(cfg, h.projects, d, log, final);
    run := Some(RunRecord(view, d, log));
    Holds(cfg, h.projects, request, h.atomicFailures, run.value, h.containers, final);
    results := Some(final);
  }

  /** Scan and dependencies. */
  method ScanHost(h: Host, cfg: UpdaterConfig, request: Request, listed: seq<Summary>)
    returns (scan: RestartScan, ghost scanned: seq<ContainerWithDeps>, ghost scannedPlans: map<Name, Plan>)
    requires h.Valid() && ListsRunning(h.containers, listed)
    ensures fresh(scan) && UniqueNames(scan.containers) && |scan.containers| == |scanned|
    ensures ScanFits(ViewOf(h), cfg, request.updates, Eligible(cfg, request.excluded, request.proxyName, listed),
                     scannedPlans, scan.marked, scanned)
    ensures scan.marked == {} ==> scan.containers == scanned && scan.plansByName == scannedPlans
    ensures scan.marked != {} ==>
      Resolved(ViewOf(h), scanned, scan.containers, scannedPlans, scan.plansByName, |scanned|)
  {
    ghost var view := ViewOf(h);
    assert view == View(h.containers, h.images, h.reliableReads);
    ViewIsProper(h, view);
    hide *;
    scan := new RestartScan();
    scan.Scan(h, cfg, listed, request.excluded, request.proxyName, request.updates);
    scanned, scannedPlans := scan.containers, scan.plansByName;
    ScanIsProper(view, cfg, request, listed, scannedPlans, scan.marked, scanned);
    scan.ResolveRestartDependencies(h);
    ResolvedIsProper(view, scanned, scan.containers, scannedPlans, scan.plansByName, scan.marked);
  }

  /** The reads of a run, before it changes anything. */
  method Discover(h: Host, cfg: UpdaterConfig, request: Request, listed: seq<Summary>)
    returns (sorted: seq<ContainerWithDeps>, plans: map<Name, Plan>, ghost d: Discovery)
    requires h.Valid() && ListsRunning(h.containers, listed)
    ensures Discovered(ViewOf(h), cfg, request, d) && ViewOf(h).images == h.images
    ensures ViewOf(h).containers == h.containers
    ensures sorted == Partition(cfg, d.plans, d.base) && plans == d.plans && UniqueNames(sorted)
    ensures WithPlans(Sorted(cfg, d), d.plans) == Sorted(cfg, d)
  {
    ghost var view := ViewOf(h);
    assert view == View(h.containers, h.images, h.reliableReads);
    ViewIsProper(h, view);
    hide *;
    var scan, scanned, scannedPlans := ScanHost(h, cfg, request, listed);
    ghost var initial, resolvedPlans := scan.marked, scan.plansByName;
    var rounds := scan.PropagateImplicitRestarts();
    ghost var base;
    sorted, base := SortRestartCandidates(cfg, scan);
    plans := scan.plansByName;
    d := Discovery(listed, scanned, scannedPlans, initial, scan.containers, resolvedPlans, scan.marked, plans, base);
    Discovers(view, cfg, request, d);
    SortedIsUnique(view, cfg, request, d);
    AllHavePlans(view, cfg, request, d);
  }

  lemma Holds(cfg: UpdaterConfig, projects: map<string, string>, request: Request, atomicFailures: bool,
              run: RunRecord, after: Containers, results: seq<ResourceResult>)
    requires Discovered(run.view, cfg, request, run.d) && Executed(cfg, projects, run.d, run.log, results)
    requires StandaloneReported(cfg, run.view.images, atomicFailures, run.log, results)
    requires KeepsOthers(run.log.found, run.log.left, StandaloneOf(run.log), run.log.plans)
    requires run.log.compose == [] ==> run.log.found == run.view.containers
    requires run.log.selfUpdates == [] ==> after == run.log.left
    requires AllStandalone(run.log.kinds) && NoneFailed(results) ==>
               Planned(run.log.handled, run.log.plans) &&
               AllReplaced(cfg, run.log.recentAPI, run.view.images, run.view.containers, run.log.left, run.log.handled,
                           run.log.plans)
    ensures RunHolds(cfg, projects, request, atomicFailures, run, after, results)
  {
    hide Discovered, Executed, StandaloneReported, KeepsOthers, AllReplaced, Planned, AllStandalone, StandaloneOf;
  }

  lemma Discovers(view: View, cfg: UpdaterConfig, request: Request, d: Discovery)
    requires ProperView(view) && ListsRunning(view.containers, d.listed)
    requires ScanFits(view, cfg, request.updates, Eligible(cfg, request.excluded, request.proxyName, d.listed),
                      d.scannedPlans, d.initial, d.scanned)
    requires d.initial == {} ==> d.containers == d.scanned && d.resolvedPlans == d.scannedPlans
    requires d.initial != {} ==> Resolved(view, d.scanned, d.containers, d.scannedPlans, d.resolvedPlans, |d.scanned|)
    requires |d.containers| == |d.scanned|
    requires IsRestartClosure(d.containers, d.initial, d.marked)
    requires d.plans == ImplicitPlans(d.resolvedPlans, d.marked - d.initial)
    requires UniqueNames(d.containers) && IsBaseOrder(Candidates(d.containers, d.marked), d.base)
    ensures Discovered(view, cfg, request, d)
  {
    hide ProperView, ListsRunning, ScanFits, Resolved, IsRestartClosure, ImplicitPlans, UniqueNames, IsBaseOrder,
      Eligible, Candidates;
  }

  lemma Executes(cfg: UpdaterConfig, projects: map<string, string>, d: Discovery, log: RunLog,
                 results: seq<ResourceResult>)
    requires WithPlans(Sorted(cfg, d), d.plans) == Sorted(cfg, d)
    requires log.handled == WithPlans(Partition(cfg, d.plans, d.base), d.plans) && PlansInspected(d.plans, log.plans)
    requires GroupsFit(cfg, projects, d.plans, Partition(cfg, d.plans, d.base), log.groups)
    requires AllFinished(cfg, projects, log, results)
    requires CallsFit(cfg, log) && ComposeFits(cfg, projects, log)
    ensures Executed(cfg, projects, d, log, results)
  {
    hide AllFinished, CallsFit, ComposeFits, GroupsFit, PlansInspected, Partition, WithPlans;
  }

  // ---------- What discovery finds ----------

  lemma ViewIsProper(h: Host, view: View)
    requires h.Valid() && view == ViewOf(h)
    ensures ProperView(view)
  {
  }

  lemma SummaryNameIsName(id: string, c: Container)
    requires c.name != ""
    ensures ContainerSummaryName(SummaryOf(id, c)) == c.name
  {
    assert TrimPrefix("/" + c.name, "/") == c.name;
  }

  lemma {:induction false} EligibleMembers(cfg: UpdaterConfig, excluded: set<string>, proxyName: string,
                                           listed: seq<Summary>)
    requires forall i, j :: 0 <= i < j < |listed| ==> listed[i].id != listed[j].id
    ensures var kept := Eligible(cfg, excluded, proxyName, listed);
      && (forall c :: c in kept <==> c in listed && !ShouldSkipSummary(cfg, excluded, proxyName, c))
      && (forall i, j :: 0 <= i < j < |kept| ==> kept[i].id != kept[j].id)
  {
    if listed != [] {
      var rest, last := listed[..|listed| - 1], listed[|listed| - 1];
      EligibleMembers(cfg, excluded, proxyName, rest);
      assert listed == rest + [last];
      var kept := Eligible(cfg, excluded, proxyName, rest);
      forall i | 0 <= i < |kept| ensures kept[i].id != last.id {
        assert kept[i] in rest;
      }
    }
  }

  /** With the daemon's unique names, the scanned containers are uniquely named too. */
  lemma ScanIsProper(view: View, cfg: UpdaterConfig, request: Request, listed: seq<Summary>, plans: map<Name, Plan>,
                     marked: set<Name>, containers: seq<ContainerWithDeps>)
    requires ProperView(view) && ListsRunning(view.containers, listed)
    requires ScanFits(view, cfg, request.updates, Eligible(cfg, request.excluded, request.proxyName, listed), plans,
                      marked, containers)
    ensures UniqueNames(containers) && PlansMatch(view.containers, containers, plans)
  {
    EligibleMembers(cfg, request.excluded, request.proxyName, listed);
    var kept := Eligible(cfg, request.excluded, request.proxyName, listed);
    hide Eligible, ShouldSkipSummary, ContainerSummaryName, SummaryOf, InspectOf, ExplicitRef;
    forall i | 0 <= i < |kept|
      ensures kept[i].id in view.containers && kept[i] == SummaryOf(kept[i].id, view.containers[kept[i].id])
      ensures containers[i].name == view.containers[kept[i].id].name
    {
      assert kept[i] in listed;
      SummaryNameIsName(kept[i].id, view.containers[kept[i].id]);
    }
    forall i | 0 <= i < |containers| && containers[i].name in plans
      ensures plans[containers[i].name].cnt.id == containers[i].container.id
    {
      var plan := plans[containers[i].name];
      SummaryNameIsName(plan.cnt.id, view.containers[plan.cnt.id]);
    }
  }

  /** Filling in the dependencies changes no name. */
  lemma ResolvedIsProper(view: View, scanned: seq<ContainerWithDeps>, containers: seq<ContainerWithDeps>,
                         scannedPlans: map<Name, Plan>, plans: map<Name, Plan>, initial: set<Name>)
    requires UniqueNames(scanned)
    requires initial == {} ==> containers == scanned && plans == scannedPlans
    requires initial != {} ==> Resolved(view, scanned, containers, scannedPlans, plans, |scanned|)
    ensures |containers| == |scanned| && UniqueNames(containers)
    ensures forall i :: 0 <= i < |containers| ==>
              containers[i].name == scanned[i].name && containers[i].container == scanned[i].container
    ensures NameSet(containers) == NameSet(scanned)
    ensures plans.Keys == scannedPlans.Keys
  {
    hide InspectOf;
    forall i | 0 <= i < |containers|
      ensures containers[i].name == scanned[i].name && containers[i].container == scanned[i].container
    {
      if initial != {} { assert ResolvesTo(view, scanned[i], containers[i]); }
    }
    assert NameSet(containers) == NameSet(scanned);
  }

  lemma CandidatesAreSorted(cfg: UpdaterConfig, d: Discovery)
    requires UniqueNames(d.containers) && IsBaseOrder(Candidates(d.containers, d.marked), d.base)
    ensures UniqueNames(Sorted(cfg, d))
    ensures forall c :: c in Sorted(cfg, d) <==> c in d.containers && c.name in d.marked
  {
    var candidates := Candidates(d.containers, d.marked);
    CandidatesUnique(d.containers, d.marked);
    assert multiset(d.base) == multiset(candidates);
    SamePermutation(candidates, d.base);
    PartitionIsPermutation(cfg, d.plans, d.base);
    SamePermutation(d.base, Partition(cfg, d.plans, d.base));
  }

  lemma SortedIsUnique(view: View, cfg: UpdaterConfig, request: Request, d: Discovery)
    requires Discovered(view, cfg, request, d)
    ensures UniqueNames(Partition(cfg, d.plans, d.base))
  {
    CandidatesAreSorted(cfg, d);
  }

  lemma {:induction false} AllKept(s: seq<ContainerWithDeps>, plans: map<Name, Plan>)
    requires forall i :: 0 <= i < |s| ==> s[i].name in plans
    ensures WithPlans(s, plans) == s
  {
    if s != [] {
      AllKept(s[..|s| - 1], plans);
      assert s == s[..|s| - 1] + [s[|s| - 1]];
    }
  }

  /** The discovered containers are exactly the eligible ones, each with the plan made for it. */
  lemma FoundContainer(view: View, cfg: UpdaterConfig, request: Request, d: Discovery, c: ContainerWithDeps)
    requires Discovered(view, cfg, request, d) && c in d.containers
    ensures c.container.id in view.containers
    ensures c.container == SummaryOf(c.container.id, view.containers[c.container.id])
    ensures IsEligible(cfg, request, c.container.id, view.containers[c.container.id])
    ensures c.name == view.containers[c.container.id].name && c.name in d.plans && d.plans[c.name].cnt == c.container
  {
    var kept := Eligible(cfg, request.excluded, request.proxyName, d.listed);
    EligibleMembers(cfg, request.excluded, request.proxyName, d.listed);
    ScanIsProper(view, cfg, request, d.listed, d.scannedPlans, d.initial, d.scanned);
    ResolvedIsProper(view, d.scanned, d.containers, d.scannedPlans, d.resolvedPlans, d.initial);
    var i :| 0 <= i < |d.containers| && d.containers[i] == c;
    assert kept[i] in kept && kept[i] in d.listed;
    assert c.container == kept[i] && c.name == ContainerSummaryName(kept[i]);
    SummaryNameIsName(c.container.id, view.containers[c.container.id]);
    assert c.name in NameSet(d.containers);
    PlanOrigin(view, cfg, request, d, c.name);
    SummaryNameIsName(d.plans[c.name].cnt.id, view.containers[d.plans[c.name].cnt.id]);
  }

  lemma EligibleIsFound(view: View, cfg: UpdaterConfig, request: Request, d: Discovery,
                        id: string) returns (c: ContainerWithDeps)
    requires Discovered(view, cfg, request, d)
    requires id in view.containers && IsEligible(cfg, request, id, view.containers[id])
    ensures c in d.containers && c.container.id == id
  {
    var i := ListedIsKept(view.containers, cfg, request, d.listed, id);
    ScanIsProper(view, cfg, request, d.listed, d.scannedPlans, d.initial, d.scanned);
    ResolvedIsProper(view, d.scanned, d.containers, d.scannedPlans, d.resolvedPlans, d.initial);
    assert d.scanned[i] == Unresolved(Eligible(cfg, request.excluded, request.proxyName, d.listed)[i]);
    c := d.containers[i];
  }

  lemma ListedIsKept(containers: Containers, cfg: UpdaterConfig, request: Request, listed: seq<Summary>, id: string)
    returns (i: nat)
    requires ListsRunning(containers, listed) && id in containers && IsEligible(cfg, request, id, containers[id])
    ensures var kept := Eligible(cfg, request.excluded, request.proxyName, listed); i < |kept| && kept[i].id == id
  {
    var kept := Eligible(cfg, request.excluded, request.proxyName, listed);
    EligibleMembers(cfg, request.excluded, request.proxyName, listed);
    var j :| 0 <= j < |listed| && listed[j].id == id;
    assert listed[j] in kept;
    i :| 0 <= i < |kept| && kept[i] == listed[j];
  }

  lemma ClosureBounds(cs: seq<ContainerWithDeps>, initial: set<Name>, marked: set<Name>)
    requires IsRestartClosure(cs, initial, marked)
    ensures initial <= marked <= initial + NameSet(cs)
  {
    assert ClosedUnderDependents(cs, initial + NameSet(cs));
  }

  lemma ResolvedPlan(view: View, d: Discovery, n: Name)
    requires if d.initial == {} then d.resolvedPlans == d.scannedPlans
             else Resolved(view, d.scanned, d.containers, d.scannedPlans, d.resolvedPlans, |d.scanned|)
    requires d.plans == ImplicitPlans(d.resolvedPlans, d.marked - d.initial)
    ensures d.plans.Keys == d.scannedPlans.Keys
    ensures n in d.plans ==>
      var plan := d.scannedPlans[n].(inspect := d.plans[n].inspect);
      d.plans[n] == if n in d.marked && n !in d.initial && plan.newRef == "" then MadeImplicit(plan) else plan
  {
    hide InspectOf, ResolvesTo;
    if n in d.plans && d.initial != {} {
      assert PlanResolvesTo(view.containers, d.scannedPlans[n], d.resolvedPlans[n]);
    }
  }

  /** A plan is the scanned one, with an inspect response or an implicit restart added. */
  lemma PlanOrigin(view: View, cfg: UpdaterConfig, request: Request, d: Discovery, n: Name)
    requires Discovered(view, cfg, request, d)
    ensures d.plans.Keys == NameSet(d.containers) == d.scannedPlans.Keys
    ensures n in d.plans ==>
      && PlanFits(view, cfg, request.updates, n, d.scannedPlans[n])
      && (d.scannedPlans[n].explicit <==> n in d.initial)
      && var plan := d.scannedPlans[n].(inspect := d.plans[n].inspect);
         d.plans[n] == if n in d.marked && n !in d.initial && plan.newRef == "" then MadeImplicit(plan) else plan
    ensures d.initial <= d.marked <= d.plans.Keys
  {
    ScanIsProper(view, cfg, request, d.listed, d.scannedPlans, d.initial, d.scanned);
    ResolvedIsProper(view, d.scanned, d.containers, d.scannedPlans, d.resolvedPlans, d.initial);
    ResolvedPlan(view, d, n);
    ClosureBounds(d.containers, d.initial, d.marked);
    hide PlanFits, ListsRunning, UniqueNames, Eligible, IsRestartClosure, Resolved, ImplicitPlans, MadeImplicit,
      NameSet, IsBaseOrder, Partition;
    assert d.plans.Keys == NameSet(d.scanned);
    forall m | m in d.initial ensures m in d.plans {
      assert m in d.scannedPlans;
    }
  }

  /** Once anything is due, every plan has its container's inspect response if no read fails. */
  lemma PlansKnowTheirContainers(view: View, cfg: UpdaterConfig, request: Request, d: Discovery, n: Name)
    requires Discovered(view, cfg, request, d) && view.reliable && d.initial != {} && n in d.plans
    ensures d.plans[n].cnt.id in view.containers
    ensures d.plans[n].inspect == Some(InspectOf(view.containers[d.plans[n].cnt.id]))
  {
    DiscoveryResolved(view, cfg, request, d);
    hide Discovered, Resolved, ImplicitPlans, MadeImplicit, InspectOf, ExplicitRef, SummaryOf;
    PlanOrigin(view, cfg, request, d, n);
    var k :| 0 <= k < |d.containers| && d.containers[k].name == n;
    PlanIsInspected(view, d, k);
    ImplicitKeepsInspect(d, n);
  }

  lemma DiscoveryResolved(view: View, cfg: UpdaterConfig, request: Request, d: Discovery)
    requires Discovered(view, cfg, request, d) && d.initial != {}
    ensures Resolved(view, d.scanned, d.containers, d.scannedPlans, d.resolvedPlans, |d.scanned|)
    ensures d.plans == ImplicitPlans(d.resolvedPlans, d.marked - d.initial)
    ensures d.plans.Keys == d.resolvedPlans.Keys
  {
    hide ProperView, ListsRunning, ScanFits, Resolved, IsRestartClosure, UniqueNames, IsBaseOrder, Eligible, Candidates;
  }

  lemma PlanIsInspected(view: View, d: Discovery, k: nat)
    requires Resolved(view, d.scanned, d.containers, d.scannedPlans, d.resolvedPlans, |d.scanned|)
    requires view.reliable && k < |d.containers| && d.containers[k].name in d.resolvedPlans
    ensures var n := d.containers[k].name;
      && d.resolvedPlans[n].inspect.Some? && n in d.scannedPlans
      && (d.resolvedPlans[n] == d.scannedPlans[n] ||
          (d.scannedPlans[n].cnt.id in view.containers &&
           d.resolvedPlans[n].inspect.value == InspectOf(view.containers[d.scannedPlans[n].cnt.id])))
  {
    hide InspectOf, ResolvesTo;
    var n := d.containers[k].name;
    assert PlanResolvesTo(view.containers, d.scannedPlans[n], d.resolvedPlans[n]);
  }

  lemma ImplicitKeepsInspect(d: Discovery, n: Name)
    requires d.plans == ImplicitPlans(d.resolvedPlans, d.marked - d.initial) && n in d.plans
    ensures n in d.resolvedPlans && d.plans[n].inspect == d.resolvedPlans[n].inspect
  {
  }

  lemma FallbackStays(plan: Plan)
    ensures FallbackImageForPlan(MadeImplicit(plan)) == FallbackImageForPlan(plan)
  {
  }

  /** Exactly one reason: a marked container's plan is explicit, if it was due itself, or implicit, if
      it only follows a dependency; an unmarked one's names no reference. */
  lemma PlanReason(view: View, cfg: UpdaterConfig, request: Request, d: Discovery, n: Name)
    requires Discovered(view, cfg, request, d) && n in d.plans
    ensures n in d.marked <==> d.plans[n].explicit || d.plans[n].implicit
    ensures !(d.plans[n].explicit && d.plans[n].implicit)
    ensures d.plans[n].explicit <==> n in d.initial
    ensures n !in d.marked ==> d.plans[n].newRef == ""
    ensures d.plans[n].implicit ==> d.plans[n].newRef == FallbackImageForPlan(d.plans[n])
    ensures var id := d.plans[n].cnt.id;
      && id in view.containers
      && (view.reliable ==>
            var due := DueRef(cfg, view.images, request, id, view.containers[id]);
            (d.plans[n].explicit <==> due != "") && (d.plans[n].explicit ==> d.plans[n].newRef == due))
  {
    PlanOrigin(view, cfg, request, d, n);
    FallbackStays(d.scannedPlans[n].(inspect := d.plans[n].inspect));
    hide Discovered, NameSet, FallbackImageForPlan, ExplicitRef, InspectOf, SummaryOf, ContainerSummaryName, TrimSpace;
  }

  lemma ResultNames(cfg: UpdaterConfig, projects: map<string, string>, log: RunLog, results: seq<ResourceResult>)
    requires AllFinished(cfg, projects, log, results)
    ensures |results| == |log.handled| && UniqueNames(log.handled)
    ensures forall i :: 0 <= i < |results| ==> results[i].resourceName == log.handled[i].name
  {
    forall i | 0 <= i < |results| ensures results[i].resourceName == log.handled[i].name {
      ResultsAreFinal(cfg, projects, log, results, i);
    }
  }

  /** The results are one for each name in the closure, and none for any other. */
  lemma ResultsNameTheClosure(view: View, cfg: UpdaterConfig, projects: map<string, string>, request: Request,
                              d: Discovery, log: RunLog, results: seq<ResourceResult>, n: Name)
    requires Discovered(view, cfg, request, d) && Executed(cfg, projects, d, log, results)
    ensures n in d.marked <==> exists i :: 0 <= i < |results| && results[i].resourceName == n
    ensures forall i, j :: 0 <= i < j < |results| ==> results[i].resourceName != results[j].resourceName
  {
    CandidatesAreSorted(cfg, d);
    ResultNames(cfg, projects, log, results);
    PlanOrigin(view, cfg, request, d, n);
    NamesOfHandled(d.containers, d.marked, log.handled, results, n);
  }

  lemma NamesOfHandled(containers: seq<ContainerWithDeps>, marked: set<Name>, handled: seq<ContainerWithDeps>,
                       results: seq<ResourceResult>, n: Name)
    requires forall c :: c in handled <==> c in containers && c.name in marked
    requires |results| == |handled| && UniqueNames(handled) && marked <= NameSet(containers)
    requires forall i :: 0 <= i < |results| ==> results[i].resourceName == handled[i].name
    ensures n in marked <==> exists i :: 0 <= i < |results| && results[i].resourceName == n
    ensures forall i, j :: 0 <= i < j < |results| ==> results[i].resourceName != results[j].resourceName
  {
    if n in marked {
      var k :| 0 <= k < |containers| && containers[k].name == n;
      assert containers[k] in handled;
      var i :| 0 <= i < |handled| && handled[i] == containers[k];
      assert results[i].resourceName == n;
    }
    if i :| 0 <= i < |results| && results[i].resourceName == n {
      assert handled[i] in handled;
    }
  }

  /** Every candidate has a plan. */
  lemma AllHavePlans(view: View, cfg: UpdaterConfig, request: Request, d: Discovery)
    requires Discovered(view, cfg, request, d)
    ensures WithPlans(Sorted(cfg, d), d.plans) == Sorted(cfg, d)
  {
    CandidatesAreSorted(cfg, d);
    var sorted := Sorted(cfg, d);
    forall i | 0 <= i < |sorted| ensures sorted[i].name in d.plans {
      assert sorted[i] in sorted && sorted[i] in d.containers;
      FoundContainer(view, cfg, request, d, sorted[i]);
    }
    AllKept(sorted, d.plans);
  }

  // ---------- Guarantees of a whole run ----------

  /** If `u` depends on `v` through restarted containers whose dependencies form no cycle, both are
      standalone and `v` is of no later class, then every call that stops or removes `u` comes before
      any that stops or removes `v`, and every call to bring `v` back before any to bring back `u`. */
  lemma RunStopsDependentsFirst(cfg: UpdaterConfig, projects: map<string, string>, request: Request,
                                atomicFailures: bool,
                                run: RunRecord, after: Containers, results: seq<ResourceResult>,
                                u: ContainerWithDeps, v: ContainerWithDeps, i: nat, j: nat)
    requires RunHolds(cfg, projects, request, atomicFailures, run, after, results)
    requires var candidates := Candidates(run.d.containers, run.d.marked);
      Acyclic(candidates) && Reaches(candidates, u.name, v.name)
    requires u in StandaloneOf(run.log) && v in StandaloneOf(run.log) && u != v
    requires Rank(ClassOf(cfg, run.d.plans, v)) <= Rank(ClassOf(cfg, run.d.plans, u))
    requires i < |Calls(run.log)| && Calls(run.log)[i].owner == u.name
    requires j < |Calls(run.log)| && Calls(run.log)[j].owner == v.name
    ensures Phase(Calls(run.log)[i]) == 1 == Phase(Calls(run.log)[j]) ==> i < j
    ensures Phase(Calls(run.log)[i]) == 2 == Phase(Calls(run.log)[j]) ==> j < i
  {
    AllHavePlans(run.view, cfg, request, run.d);
    CandidatesUnique(run.d.containers, run.d.marked);
    var candidates, base, plans := Candidates(run.d.containers, run.d.marked), run.d.base, run.d.plans;
    assert run.log.handled == WithPlans(Partition(cfg, plans, base), plans) && |run.log.handled| == |run.log.kinds|;
    assert IsBaseOrder(candidates, base) && CallsFit(cfg, run.log);
    hide *;
    DependentsStopFirst(cfg, candidates, base, plans, run.log, u, v, i, j);
  }

  /** No two standalone candidates stand for one container. */
  lemma StandaloneIDsDiffer(cfg: UpdaterConfig, projects: map<string, string>, request: Request, view: View,
                            d: Discovery,
                            log: RunLog, results: seq<ResourceResult>)
    requires Discovered(view, cfg, request, d) && Executed(cfg, projects, d, log, results)
    requires Planned(StandaloneOf(log), log.plans)
    ensures UniqueIDs(StandaloneOf(log), log.plans)
  {
    hide Executed, Discovered, StandaloneOf, UniqueNames;
    var standalone := StandaloneOf(log);
    StandaloneAreHandled(cfg, projects, d, log, results);
    forall k | 0 <= k < |standalone|
      ensures OldID(standalone, log.plans, k) in view.containers
      ensures view.containers[OldID(standalone, log.plans, k)].name == standalone[k].name
    {
      HandledContainer(cfg, projects, request, view, d, log, results, standalone[k]);
    }
    NamesTellApart(standalone);
  }

  lemma NamesTellApart(cs: seq<ContainerWithDeps>)
    requires UniqueNames(cs)
    ensures forall j, k :: 0 <= j < k < |cs| ==> cs[j].name != cs[k].name
  {
  }

  lemma StandaloneAreHandled(cfg: UpdaterConfig, projects: map<string, string>, d: Discovery, log: RunLog,
                             results: seq<ResourceResult>)
    requires Executed(cfg, projects, d, log, results)
    ensures UniqueNames(StandaloneOf(log))
    ensures forall k :: 0 <= k < |StandaloneOf(log)| ==> StandaloneOf(log)[k] in log.handled
  {
    assert UniqueNames(log.handled) && |log.handled| == |log.kinds|;
    hide Executed, UniqueNames, Select;
    SelectMembers(log.handled, log.kinds, Standalone);
    var standalone := StandaloneOf(log);
    forall k | 0 <= k < |standalone| ensures standalone[k] in log.handled {
      assert standalone[k] in standalone;
    }
  }

  /** A candidate stands for the discovered container of its name. */
  lemma HandledContainer(cfg: UpdaterConfig, projects: map<string, string>, request: Request, view: View, d: Discovery,
                         log: RunLog, results: seq<ResourceResult>, c: ContainerWithDeps)
    requires Discovered(view, cfg, request, d) && Executed(cfg, projects, d, log, results) && c in log.handled
    ensures c.name in log.plans && log.plans[c.name].cnt.id in view.containers
    ensures view.containers[log.plans[c.name].cnt.id].name == c.name
  {
    CandidatesAreSorted(cfg, d);
    FoundContainer(view, cfg, request, d, c);
    assert PlansInspected(d.plans, log.plans);
    hide Discovered, Executed, Sorted;
  }

  /** Whatever failed, each standalone result tells how things stand after the standalone phase: a success,
      that a running container on the new image has taken the old one's place; a successful rollback, that
      one on the old image has; any other failure, that no replacement was meant to stay; a failed stop, or
      with failure-atomic removes a failed removal, that the old container is still there. */
  lemma ResultsTellHowThingsStand(cfg: UpdaterConfig, projects: map<string, string>, request: Request,
                                  atomicFailures: bool, run: RunRecord, after: Containers,
                                  results: seq<ResourceResult>, i: nat)
    returns (survivor: string)
    requires RunHolds(cfg, projects, request, atomicFailures, run, after, results)
    requires i < |run.log.kinds| && run.log.kinds[i] == Standalone
    ensures i < |results| && i < |run.log.handled| && run.log.handled[i].name in run.log.plans
    ensures var plan := run.log.plans[run.log.handled[i].name];
      && Stands(cfg, run.log.recentAPI, run.view.images, run.log.used, run.log.left, plan, results[i], survivor)
      && StillThere(atomicFailures, run.log.found, run.log.left, plan, results[i])
  {
    var log := run.log;
    hide Discovered, Executed, Stands, StillThere, UniqueIDs, CallsTell;
    var j := SurvivorAt(cfg, run.view.images, atomicFailures, log, results, i);
    survivor := log.survivors[j];
    StandaloneIDsDiffer(cfg, projects, request, run.view, run.d, log, results);
  }

  /** A candidate whose container could not be stopped or removed is not created anew: all its calls in the
      run are the stop, and after a stop that worked the removal. */
  lemma FailedStopCreatesNothing(cfg: UpdaterConfig, projects: map<string, string>, request: Request,
                                 atomicFailures: bool, run: RunRecord, after: Containers,
                                 results: seq<ResourceResult>, i: nat, n: nat)
    requires RunHolds(cfg, projects, request, atomicFailures, run, after, results)
    requires i < |run.log.kinds| && run.log.kinds[i] == Standalone && i < |results| && i < |run.log.handled|
    requires StopFailed(results[i]) || RemovalFailed(results[i])
    requires n < |Calls(run.log)| && Calls(run.log)[n].owner == run.log.handled[i].name
    ensures var op := Calls(run.log)[n];
      op.Stop? || (op.Remove? && !op.force && RemovalFailed(results[i]))
  {
    var log := run.log;
    assert AllFinished(cfg, projects, log, results) && CallsFit(cfg, log) && ComposeFits(cfg, projects, log);
    assert StandaloneReported(cfg, run.view.images, atomicFailures, log, results);
    hide *;
    StandaloneOwnsPhases(cfg, projects, log, results, i, n);
    var k := StandaloneCaller(cfg, log, n);
    CallsTold(cfg, projects, run.view.images, atomicFailures, log, results, i, k);
    FailedStopCall(log, k, results[i], Calls(log)[n]);
  }

  /** The calls of a standalone candidate's blocks agree with its result. */
  lemma CallsTold(cfg: UpdaterConfig, projects: map<string, string>, images: map<string, string>, atomicFailures: bool,
                  log: RunLog, results: seq<ResourceResult>, i: nat, k: nat)
    requires AllFinished(cfg, projects, log, results) && StandaloneReported(cfg, images, atomicFailures, log, results)
    requires i < |results| && i < |log.handled| && i < |log.kinds| && log.kinds[i] == Standalone
    requires k < |StandaloneOf(log)| && StandaloneOf(log)[k].name == log.handled[i].name
    ensures k < |log.stops| && k < |log.creates| && CallsTell(log.stops[k], log.creates[k], results[i])
  {
    hide AllFinished, StandaloneReported, CallsTell, Stands, StandaloneOf, UniqueNames;
    StandaloneNamesDiffer(cfg, projects, log, results);
    NamesTellApart(StandaloneOf(log));
    var j := SurvivorAt(cfg, images, atomicFailures, log, results, i);
  }

  lemma StandaloneNamesDiffer(cfg: UpdaterConfig, projects: map<string, string>, log: RunLog,
                              results: seq<ResourceResult>)
    requires AllFinished(cfg, projects, log, results)
    ensures UniqueNames(StandaloneOf(log))
  {
    hide UniqueNames, Select, Finished;
    SelectMembers(log.handled, log.kinds, Standalone);
  }

  /** Where a standalone candidate stands among all, with what was reported of it there. */
  lemma SurvivorAt(cfg: UpdaterConfig, images: map<string, string>, atomicFailures: bool, log: RunLog,
                   results: seq<ResourceResult>, i: nat)
    returns (j: nat)
    requires StandaloneReported(cfg, images, atomicFailures, log, results)
    requires i < |results| && i < |log.handled| && i < |log.kinds| && log.kinds[i] == Standalone
    ensures j < |StandaloneOf(log)| && StandaloneOf(log)[j] == log.handled[i] && log.handled[i].name in log.plans
    ensures SurvivorReported(cfg, images, log, log.handled[i], results[i], j)
    ensures Planned(StandaloneOf(log), log.plans)
    ensures UniqueIDs(StandaloneOf(log), log.plans) ==>
              StillThere(atomicFailures, log.found, log.left, log.plans[log.handled[i].name], results[i])
  {
    assert StandsReported(cfg, images, atomicFailures, log, log.handled[i], results[i]);
    hide StandaloneReported, SurvivorReported, StillThere, UniqueIDs, StandaloneOf, Planned;
    j :| 0 <= j < |StandaloneOf(log)| && StandaloneOf(log)[j] == log.handled[i] &&
      SurvivorReported(cfg, images, log, log.handled[i], results[i], j);
  }

  lemma FailedStopCall(log: RunLog, k: nat, r: ResourceResult, op: Op)
    requires if Phase(op) == 1 then InStopBlock(log, k, op) else InCreateBlock(log, k, op)
    requires k < |log.stops| && k < |log.creates| && CallsTell(log.stops[k], log.creates[k], r)
    requires StopFailed(r) || RemovalFailed(r)
    ensures op.Stop? || (op.Remove? && !op.force && RemovalFailed(r))
  {
    hide StandaloneOf;
  }

  /** A standalone candidate owns no compose update and no self-update. */
  lemma StandaloneOwnsPhases(cfg: UpdaterConfig, projects: map<string, string>, log: RunLog,
                             results: seq<ResourceResult>, i: nat, n: nat)
    requires AllFinished(cfg, projects, log, results) && CallsFit(cfg, log) && ComposeFits(cfg, projects, log)
    requires i < |log.kinds| && i < |log.handled| && log.kinds[i] == Standalone
    requires n < |Calls(log)| && Calls(log)[n].owner == log.handled[i].name
    ensures 1 <= Phase(Calls(log)[n]) <= 2
  {
    var c, op := log.handled[i], Calls(log)[n];
    if op.SelfUpdate? {
      var k := SelfUpdateCaller(cfg, log, n);
      SelfUpdateIsElsewhere(cfg, projects, log, results, i, SelfUpdatesOf(log)[k]);
    }
    if op.UpdateServices? {
      var processed := ComposeCall(cfg, log, n);
      UpdateIsElsewhere(cfg, projects, log, results, i, op);
    }
  }

  lemma SelfUpdateIsElsewhere(cfg: UpdaterConfig, projects: map<string, string>, log: RunLog,
                              results: seq<ResourceResult>, i: nat, d: ContainerWithDeps)
    requires AllFinished(cfg, projects, log, results) && i < |log.handled| && log.kinds[i] == Standalone
    requires d in SelfUpdatesOf(log)
    ensures d.name != log.handled[i].name
  {
    SelectMembers(log.handled, log.kinds, SelfUpdating);
    hide Select, Finished;
  }

  lemma UpdateIsElsewhere(cfg: UpdaterConfig, projects: map<string, string>, log: RunLog,
                          results: seq<ResourceResult>, i: nat, op: Op)
    requires AllFinished(cfg, projects, log, results) && i < |log.handled| && log.kinds[i] == Standalone
    requires CalledFor(cfg, projects, log.groups, log.plans, log.handled, op)
    ensures op.owner != log.handled[i].name
  {
    var c := log.handled[i];
    assert Finished(cfg, projects, log.groups, c, log.plans[c.name], log.kinds[i], results[i]);
    hide RouteOf, IsStandaloneResult;
    var d :| d in log.handled && d.name == op.owner &&
      ComposeTarget(cfg, projects, log.groups, log.plans, d) == Some(op.projectID);
  }

  /** No container made along the way is left behind unawares: one that a run created either stood after the
      standalone phase as its candidate's result says, as the replacement or as the old one restored, or
      was asked to be force-removed. */
  lemma EveryCreationIsAccountedFor(cfg: UpdaterConfig, projects: map<string, string>, request: Request,
                                    atomicFailures: bool, run: RunRecord, after: Containers,
                                    results: seq<ResourceResult>, n: nat)
    returns (i: nat)
    requires RunHolds(cfg, projects, request, atomicFailures, run, after, results)
    requires n < |Calls(run.log)| && Calls(run.log)[n].Create? && Calls(run.log)[n].created.Some?
    ensures i < |results| && i < |run.log.handled| && run.log.handled[i].name == Calls(run.log)[n].owner
    ensures i < |run.log.kinds| && run.log.kinds[i] == Standalone && run.log.handled[i].name in run.log.plans
    ensures var id, plan, r := Calls(run.log)[n].created.value, run.log.plans[run.log.handled[i].name], results[i];
      || Op.Remove(Calls(run.log)[n].owner, id, true) in Calls(run.log)
      || ((r.status != Failed || r.error == RollbackSuccess) &&
          Stands(cfg, run.log.recentAPI, run.view.images, run.log.used, run.log.left, plan, r, id))
  {
    var log := run.log;
    assert CallsFit(cfg, log);
    var k := CreationIsCleanedUp(cfg, log, n);
    i := StandalonePosition(cfg, projects, log, results, k);
    hide RunHolds, Stands, StillThere, CallsFit, Calls, StandaloneOf, UniqueIDs, StandaloneReported;
    SurvivorStands(cfg, run.view.images, atomicFailures, log, results, i, k);
  }

  /** The position of a standalone candidate among all. */
  lemma StandalonePosition(cfg: UpdaterConfig, projects: map<string, string>, log: RunLog,
                           results: seq<ResourceResult>, k: nat)
    returns (i: nat)
    requires AllFinished(cfg, projects, log, results) && k < |StandaloneOf(log)|
    ensures UniqueNames(StandaloneOf(log)) && |results| == |log.kinds| == |log.handled|
    ensures i < |results| && log.handled[i] == StandaloneOf(log)[k] && log.kinds[i] == Standalone
  {
    SelectMembers(log.handled, log.kinds, Standalone);
    assert StandaloneOf(log)[k] in StandaloneOf(log);
    hide Select, UniqueNames, Finished;
    i :| 0 <= i < |log.handled| && log.handled[i] == StandaloneOf(log)[k] && log.kinds[i] == Standalone;
  }

  lemma SurvivorStands(cfg: UpdaterConfig, images: map<string, string>, atomicFailures: bool, log: RunLog,
                       results: seq<ResourceResult>, i: nat, k: nat)
    requires StandaloneReported(cfg, images, atomicFailures, log, results) && UniqueNames(StandaloneOf(log))
    requires k < |StandaloneOf(log)| && k < |log.survivors|
    requires i < |results| && log.handled[i] == StandaloneOf(log)[k] && log.kinds[i] == Standalone
    ensures log.handled[i].name in log.plans
    ensures Stands(cfg, log.recentAPI, images, log.used, log.left, log.plans[log.handled[i].name], results[i],
                   log.survivors[k])
    ensures log.survivors[k] != "" ==> results[i].status != Failed || results[i].error == RollbackSuccess
  {
    hide IsReplacement, IsRestored, StillThere, UniqueIDs, StandaloneOf;
    assert StandsReported(cfg, images, atomicFailures, log, log.handled[i], results[i]);
  }
}
