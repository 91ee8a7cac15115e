/** Discovery: a plan for every eligible running container, and which of them must restart. */
module RestartScanning {
  import opened Wrappers
  import opened DockerTypes
  import opened Strings
  import opened Settings
  import opened Deps
  import opened Sets
  import opened Host
  import opened Matching
  import opened RestartTypes

  // ---------- Names and exclusions ----------

  function ContainerSummaryName(c: Summary): string {
    if |c.names| > 0 && TrimPrefix(c.names[0], "/") != "" then TrimPrefix(c.names[0], "/")
    else if |c.id| >= 12 then c.id[..12]
    else c.id
  }

  predicate ShouldSkipSummary(cfg: UpdaterConfig, excluded: set<string>, proxyName: string, c: Summary) {
    || (exists i :: 0 <= i < |c.names| &&
          (TrimPrefix(c.names[i], "/") in excluded || TrimPrefix(c.names[i], "/") == proxyName))
    || cfg.policy.isUpdateDisabled(c.labels)
    || (cfg.policy.isSwarmTask(c.labels) && !cfg.policy.isSelfUpdateTarget(c.labels))
  }

  /** A name as it is listed, with or without a slash before it. */
  predicate IsListedAs(c: Summary, name: string) {
    "/" + name in c.names || (name in c.names && !("/" <= name))
  }

  /** Skipped: under any of its names excluded or the proxy, opted out, or a swarm's task and no self-update target. */
  lemma SkippedExactly(cfg: UpdaterConfig, excluded: set<string>, proxyName: string, c: Summary)
    ensures ShouldSkipSummary(cfg, excluded, proxyName, c) <==>
      || (exists name :: IsListedAs(c, name) && (name in excluded || name == proxyName))
      || cfg.policy.isUpdateDisabled(c.labels)
      || (cfg.policy.isSwarmTask(c.labels) && !cfg.policy.isSelfUpdateTarget(c.labels))
  {
    if i :| 0 <= i < |c.names| &&
            (TrimPrefix(c.names[i], "/") in excluded || TrimPrefix(c.names[i], "/") == proxyName) {
      NameIsListed(c, i);
    }
    if name :| IsListedAs(c, name) && (name in excluded || name == proxyName) {
      var i := ListedAt(c, name);
    }
  }

  lemma NameIsListed(c: Summary, i: nat)
    requires i < |c.names|
    ensures IsListedAs(c, TrimPrefix(c.names[i], "/"))
  {
    if "/" <= c.names[i] { assert c.names[i] == "/" + c.names[i][1..]; }
  }

  lemma ListedAt(c: Summary, name: string) returns (i: nat)
    requires IsListedAs(c, name)
    ensures i < |c.names| && TrimPrefix(c.names[i], "/") == name
  {
    TrimPrefixIs(name, "/");
    i :| 0 <= i < |c.names| && (c.names[i] == "/" + name || (c.names[i] == name && !("/" <= name)));
  }

  /** Displayed as its first name, or without one by the first twelve characters of its ID. */
  lemma DisplayedAs(c: Summary, name: string)
    ensures name != "" && |c.names| > 0 && (c.names[0] == "/" + name || (c.names[0] == name && !("/" <= name))) ==>
              ContainerSummaryName(c) == name
    ensures c.names == [] || c.names[0] in ["", "/"] ==>
              ContainerSummaryName(c) <= c.id && (|ContainerSummaryName(c)| == 12 || ContainerSummaryName(c) == c.id)
    ensures c.names == [] || c.names[0] in ["", "/"] ==> |ContainerSummaryName(c)| <= 12
  {
    TrimPrefixIs(name, "/");
  }

  // ---------- What a reliable scan would plan ----------

  /** The update matching a container, consulting its inspect response only where the summary is
      inconclusive. */
  function MatchedUpdate(cfg: UpdaterConfig, c: Summary, inspect: Inspect, updates: Updates): (string, string) {
    var m := ResolveContainerImageMatch(cfg, c, None, updates);
    if m.0 != "" || !ShouldInspectUnmatched(cfg, c) then m
    else ResolveContainerImageMatch(cfg, c, Some(inspect), updates)
  }

  /** The reference a container must be moved to, blank when it has none or is already on it. */
  function ExplicitRef(cfg: UpdaterConfig, images: map<string, string>, c: Summary, inspect: Inspect,
                       updates: Updates): string {
    var newRef := MatchedUpdate(cfg, c, inspect, updates).0;
    var current := CurrentContainerImageID(c, Some(inspect));
    if newRef != "" && current != "" && current in RefIDs(images, cfg.normalize, newRef) then "" else newRef
  }

  /** The image an implicitly restarted container is recreated from: its own. */
  function FallbackImageForPlan(plan: Plan): string {
    if plan.inspect.Some? && plan.inspect.value.config.Some? && TrimSpace(plan.inspect.value.config.value.image) != ""
    then TrimSpace(plan.inspect.value.config.value.image)
    else TrimSpace(plan.cnt.image)
  }

  /** That is the configured image if the inspect response has one, else the listed one. */
  lemma FallbackIs(plan: Plan)
    ensures var image := FallbackImageForPlan(plan);
      if plan.inspect.Some? && plan.inspect.value.config.Some? && !Blank(plan.inspect.value.config.value.image)
      then image == TrimSpace(plan.inspect.value.config.value.image) && image != ""
      else image == TrimSpace(plan.cnt.image)
  {
    if plan.inspect.Some? && plan.inspect.value.config.Some? {
      BlankIs(plan.inspect.value.config.value.image);
    }
    hide TrimSpace, Blank;
  }

  // ---------- The transitive closure of restarts ----------

  /** No listed container outside `marked` depends on one inside. */
  ghost predicate ClosedUnderDependents(cs: seq<ContainerWithDeps>, marked: set<Name>) {
    forall i :: 0 <= i < |cs| && HasMarkedDependency(cs[i], marked) ==> cs[i].name in marked
  }

  predicate HasMarkedDependency(c: ContainerWithDeps, marked: set<Name>) {
    || (exists i :: 0 <= i < |c.links| && c.links[i] in marked)
    || (exists i :: 0 <= i < |c.dependsOn| && c.dependsOn[i] in marked)
    || (exists i :: 0 <= i < |c.networkDeps| && c.networkDeps[i] in marked)
  }

  /** The least set with the initial marks that is closed under dependents. */
  ghost predicate IsRestartClosure(cs: seq<ContainerWithDeps>, initial: set<Name>, marked: set<Name>) {
    && initial <= marked && ClosedUnderDependents(cs, marked)
    && forall s :: initial <= s && ClosedUnderDependents(cs, s) ==> marked <= s
  }

  /** A chain of listed containers, each depending on the next, from `n` to an initial mark. */
  ghost predicate ReachesMark(cs: seq<ContainerWithDeps>, initial: set<Name>, chain: seq<Name>) {
    && chain != [] && chain[|chain| - 1] in initial
    && forall i :: 0 <= i < |chain| - 1 ==> DependsOnName(cs, chain[i], chain[i + 1])
  }

  ghost predicate DependsOnName(cs: seq<ContainerWithDeps>, n: Name, dep: Name) {
    exists i :: 0 <= i < |cs| && cs[i].name == n && DependsOn(cs[i], dep)
  }

  /** The closure is exactly the initial marks and all that reach one by dependencies. */
  lemma ClosureIsReachability(cs: seq<ContainerWithDeps>, initial: set<Name>, marked: set<Name>, n: Name)
    requires IsRestartClosure(cs, initial, marked)
    ensures n in marked <==> exists chain :: ReachesMark(cs, initial, chain) && chain[0] == n
  {
    if chain :| ReachesMark(cs, initial, chain) && chain[0] == n {
      ChainIsMarked(cs, initial, marked, chain);
    }
    var names := marked + NameSet(cs);
    var reached := set m | m in names && exists chain :: ReachesMark(cs, initial, chain) && chain[0] == m;
    forall m | m in initial ensures m in reached {
      assert ReachesMark(cs, initial, [m]) && [m][0] == m;
    }
    forall i | 0 <= i < |cs| && HasMarkedDependency(cs[i], reached) ensures cs[i].name in reached {
      DependencyIsMarked(cs[i], reached);
      var dep :| dep in reached && DependsOn(cs[i], dep);
      var chain :| ReachesMark(cs, initial, chain) && chain[0] == dep;
      LongerChain(cs, initial, cs[i], dep, chain);
    }
    assert marked <= reached;
  }

  lemma LongerChain(cs: seq<ContainerWithDeps>, initial: set<Name>, c: ContainerWithDeps, dep: Name, chain: seq<Name>)
    requires c in cs && DependsOn(c, dep) && ReachesMark(cs, initial, chain) && chain[0] == dep
    ensures ReachesMark(cs, initial, [c.name] + chain) && ([c.name] + chain)[0] == c.name
  {
    var longer := [c.name] + chain;
    forall i | 0 <= i < |longer| - 1 ensures DependsOnName(cs, longer[i], longer[i + 1]) {
      if i > 0 { assert longer[i] == chain[i - 1] && longer[i + 1] == chain[i]; }
    }
  }

  lemma {:induction false} ChainIsMarked(cs: seq<ContainerWithDeps>, initial: set<Name>, marked: set<Name>,
                                         chain: seq<Name>)
    requires initial <= marked && ClosedUnderDependents(cs, marked) && ReachesMark(cs, initial, chain)
    ensures chain[0] in marked
    decreases |chain|
  {
    if |chain| > 1 {
      assert ReachesMark(cs, initial, chain[1..]) by {
        forall i | 0 <= i < |chain[1..]| - 1 ensures DependsOnName(cs, chain[1..][i], chain[1..][i + 1]) {
          assert DependsOnName(cs, chain[i + 1], chain[i + 2]);
        }
      }
      ChainIsMarked(cs, initial, marked, chain[1..]);
      assert DependsOnName(cs, chain[0], chain[1]);
    }
  }

  /** The closure depends on which containers are listed, not on their order. */
  lemma ClosureIgnoresOrder(cs: seq<ContainerWithDeps>, ds: seq<ContainerWithDeps>, initial: set<Name>,
                            a: set<Name>, b: set<Name>)
    requires forall c :: c in cs <==> c in ds
    requires IsRestartClosure(cs, initial, a) && IsRestartClosure(ds, initial, b)
    ensures a == b
  {
    assert ClosedUnderDependents(cs, b) by {
      forall i | 0 <= i < |cs| && HasMarkedDependency(cs[i], b) ensures cs[i].name in b {
        assert cs[i] in ds;
      }
    }
    assert ClosedUnderDependents(ds, a) by {
      forall i | 0 <= i < |ds| && HasMarkedDependency(ds[i], a) ensures ds[i].name in a {
        assert ds[i] in cs;
      }
    }
  }

  lemma DependencyIsMarked(c: ContainerWithDeps, marked: set<Name>)
    ensures HasMarkedDependency(c, marked) <==> exists dep :: dep in marked && DependsOn(c, dep)
  {
  }

  // ---------- The scan ----------

  /** A plan turned into an implicit restart on the container's own image. */
  function MadeImplicit(plan: Plan): Plan {
    plan.(newRef := FallbackImageForPlan(plan), matched := "dependency_restart", implicit := true)
  }

  /** Newly marked names without an update of their own become implicit restarts. */
  function ImplicitPlans(plans: map<Name, Plan>, added: set<Name>): map<Name, Plan> {
    map n | n in plans :: if n in added && plans[n].newRef == "" then MadeImplicit(plans[n]) else plans[n]
  }

  /** The summaries a scan keeps, in listing order. */
  ghost function Eligible(cfg: UpdaterConfig, excluded: set<string>, proxyName: string,
                          summaries: seq<Summary>): seq<Summary> {
    if summaries == [] then []
    else
      var rest, last := summaries[..|summaries| - 1], summaries[|summaries| - 1];
      Eligible(cfg, excluded, proxyName, rest) +
      if ShouldSkipSummary(cfg, excluded, proxyName, last) then [] else [last]
  }

  /** A scanned container before its dependencies are known. */
  function Unresolved(c: Summary): ContainerWithDeps {
    ContainerWithDeps(c, None, ContainerSummaryName(c), [], [], [])
  }

  /** The host as discovery finds it. */
  datatype View = View(containers: Containers, images: map<string, string>, reliable: bool)

  function ViewOf(h: Host): View
    reads h
  {
    View(h.containers, h.images, h.reliableReads)
  }

  /** What the scan records about a container: its plan names an update exactly if it is explicit, and
      if no read failed, it is the update the container is due. */
  ghost predicate PlanFits(view: View, cfg: UpdaterConfig, updates: Updates, name: Name, plan: Plan) {
    && plan.cnt.id in view.containers && plan.cnt == SummaryOf(plan.cnt.id, view.containers[plan.cnt.id])
    && ContainerSummaryName(plan.cnt) == name
    && (plan.explicit <==> plan.newRef != "") && !plan.implicit
    && (plan.inspect.Some? ==> plan.inspect.value == InspectOf(view.containers[plan.cnt.id]))
    && (view.reliable ==>
          var inspect := InspectOf(view.containers[plan.cnt.id]);
          && plan.newRef == ExplicitRef(cfg, view.images, plan.cnt, inspect, updates)
          && plan.matched == MatchedUpdate(cfg, plan.cnt, inspect, updates).1)
  }

  ghost predicate ScanFits(view: View, cfg: UpdaterConfig, updates: Updates, kept: seq<Summary>,
                           plans: map<Name, Plan>, marked: set<Name>, containers: seq<ContainerWithDeps>)
  {
    && |containers| == |kept| && (forall i :: 0 <= i < |kept| ==> containers[i] == Unresolved(kept[i]))
    && plans.Keys == NameSet(containers)
    && (forall n :: n in plans ==> PlanFits(view, cfg, updates, n, plans[n]))
    && (UniqueNames(containers) ==> forall n :: n in marked <==> n in plans && plans[n].explicit)
  }

  class RestartScan {
    var plansByName: map<Name, Plan>
    var marked: set<Name>
    var containers: seq<ContainerWithDeps>

    constructor ()
      ensures plansByName == map[] && marked == {} && containers == []
    {
      plansByName, marked, containers := map[], {}, [];
    }

    /** Plans every eligible container, marking those whose image matches an applied update they are
        not on yet. */
    method Scan(h: Host, cfg: UpdaterConfig, summaries: seq<Summary>, excluded: set<string>, proxyName: string,
                updates: Updates)
      requires plansByName == map[] && marked == {} && containers == []
      requires ListsRunning(h.containers, summaries)
      modifies this
      ensures ScanFits(ViewOf(h), cfg, updates, Eligible(cfg, excluded, proxyName, summaries), plansByName,
                       marked, containers)
    {
      hide *;
      NothingScanned(ViewOf(h), cfg, updates);
      EligibleNone(cfg, excluded, proxyName, summaries);
      for i := 0 to |summaries|
        invariant ScanFits(ViewOf(h), cfg, updates, Eligible(cfg, excluded, proxyName, summaries[..i]), plansByName,
                           marked, containers)
      {
        EligibleSnoc(cfg, excluded, proxyName, summaries, i);
        ListedContainer(h.containers, summaries, i);
        var summary := summaries[i];
        if ShouldSkipSummary(cfg, excluded, proxyName, summary) {
          continue;
        }
        ghost var kept, seen := Eligible(cfg, excluded, proxyName, summaries[..i]), containers;
        var name := ContainerSummaryName(summary);
        containers := containers + [ContainerWithDeps(summary, None, name, [], [], [])];
        var plan := PlanContainer(h, cfg, summary, updates);
        OneMoreScanned(ViewOf(h), cfg, updates, kept, plansByName, marked, seen, summary, plan);
        plansByName := plansByName[name := plan];
        if plan.explicit {
          marked := marked + {name};
        }
      }
      EligibleAll(cfg, excluded, proxyName, summaries);
    }

    /** Once anything restarts, every container's dependencies are read off its inspect response; one
        that cannot be inspected keeps none. */
    method ResolveRestartDependencies(h: Host)
      requires PlansMatch(h.containers, containers, plansByName)
      modifies this`containers, this`plansByName
      ensures marked == {} ==> containers == old(containers) && plansByName == old(plansByName)
      ensures marked != {} ==>
        Resolved(ViewOf(h), old(containers), containers, old(plansByName), plansByName, |old(containers)|)
    {
      hide *;
      if |marked| == 0 {
        return;
      }
      ghost var view, was, plans := ViewOf(h), containers, plansByName;
      ViewIs(h);
      NothingResolved(view, was, plans);
      for i := 0 to |containers|
        invariant |containers| == |was| && Resolved(view, was, containers, plans, plansByName, i)
      {
        var cwd := containers[i];
        ghost var seen, plansSeen := containers, plansByName;
        if cwd.name in plansByName && plansByName[cwd.name].inspect.Some? {
          var inspected := plansByName[cwd.name].inspect;
          var known := ExtractContainerDeps(cwd.name, cwd.container, inspected.value);
          containers := containers[i := known];
          OneMoreResolved(view, was, seen, containers, plans, plansSeen, plansByName, i, inspected);
          continue;
        }
        var inspect := h.Inspect(cwd.container.id);
        if inspect.None? {
          OneMoreResolved(view, was, seen, containers, plans, plansSeen, plansByName, i, inspect);
          continue;
        }
        var extracted := ExtractContainerDeps(cwd.name, cwd.container, inspect.value);
        containers := containers[i := extracted];
        if cwd.name in plansByName {
          plansByName := plansByName[cwd.name := plansByName[cwd.name].(inspect := inspect)];
        }
        OneMoreResolved(view, was, seen, containers, plans, plansSeen, plansByName, i, inspect);
      }
    }

    /** One pass over the containers; a name marked early in the pass counts for the later ones. */
    method UpdateImplicitRestart() returns (added: seq<Name>)
      modifies this`marked
      ensures marked == old(marked) + Members(added)
      ensures NoDuplicates(added) && forall n :: n in added ==> n !in old(marked) && n in NameSet(containers)
      ensures added == [] ==> ClosedUnderDependents(containers, marked)
      ensures forall s :: old(marked) <= s && ClosedUnderDependents(containers, s) ==> marked <= s
    {
      hide HasMarkedDependency;
      added := [];
      for i := 0 to |containers|
        invariant marked == old(marked) + Members(added)
        invariant NoDuplicates(added) && forall n :: n in added ==> n !in old(marked) && n in NameSet(containers)
        invariant added == [] ==> forall k :: 0 <= k < i && HasMarkedDependency(containers[k], marked) ==>
                    containers[k].name in marked
        invariant forall s :: old(marked) <= s && ClosedUnderDependents(containers, s) ==> marked <= s
      {
        var c := containers[i];
        if c.name in marked {
          continue;
        }
        if !HasMarkedDependency(c, marked) {
          continue;
        }
        forall s | old(marked) <= s && ClosedUnderDependents(containers, s) ensures c.name in s {
          MoreMarksKeepDependency(c, marked, s);
        }
        marked := marked + {c.name};
        added := added + [c.name];
      }
    }

    /** Marks dependents until nothing is added. */
    method PropagateImplicitRestarts() returns (ghost rounds: nat)
      modifies this`marked, this`plansByName
      ensures IsRestartClosure(containers, old(marked), marked)
      ensures plansByName == ImplicitPlans(old(plansByName), marked - old(marked))
      ensures rounds <= |NameSet(containers) - old(marked)| + 1
    {
      hide *;
      rounds := 0;
      NoImplicitPlans(plansByName, marked);
      while true
        invariant old(marked) <= marked
        invariant forall s :: old(marked) <= s && ClosedUnderDependents(containers, s) ==> marked <= s
        invariant plansByName == ImplicitPlans(old(plansByName), marked - old(marked))
        invariant rounds + |NameSet(containers) - marked| <= |NameSet(containers) - old(marked)|
        decreases NameSet(containers) - marked
      {
        ghost var before := marked;
        var added := UpdateImplicitRestart();
        rounds := rounds + 1;
        if |added| == 0 {
          NothingAdded(containers, old(marked), before, marked, added);
          return;
        }
        FewerUnmarked(NameSet(containers), before, added);
        ghost var plans := plansByName;
        ghost var done: set<Name> := {};
        NoImplicitPlans(plans, {});
        for i := 0 to |added|
          invariant plansByName == ImplicitPlans(plans, done) && marked == before + Members(added)
          invariant forall n :: n in done <==> n in added[..i]
        {
          var name := added[i];
          OneImplicitPlan(plans, done, added, i);
          if name in plansByName && plansByName[name].newRef == "" {
            plansByName := plansByName[name := MadeImplicit(plansByName[name])];
          }
          done := done + {name};
        }
        AllImplicitPlans(old(plansByName), old(marked), before, marked, added, done);
      }
    }
  }

  lemma NoImplicitPlans(plans: map<Name, Plan>, marked: set<Name>)
    ensures ImplicitPlans(plans, {}) == plans && ImplicitPlans(plans, marked - marked) == plans
  {
    assert marked - marked == {};
  }

  lemma NothingAdded(cs: seq<ContainerWithDeps>, initial: set<Name>, before: set<Name>, marked: set<Name>,
                     added: seq<Name>)
    requires |added| == 0 && marked == before + Members(added)
    requires initial <= before && ClosedUnderDependents(cs, marked)
    requires forall s :: initial <= s && ClosedUnderDependents(cs, s) ==> before <= s
    ensures marked == before && IsRestartClosure(cs, initial, marked)
  {
    assert marked == before;
  }

  lemma OneImplicitPlan(plans: map<Name, Plan>, done: set<Name>, added: seq<Name>, i: nat)
    requires NoDuplicates(added) && i < |added| && forall n :: n in done <==> n in added[..i]
    ensures var name, sofar := added[i], ImplicitPlans(plans, done);
      ImplicitPlans(plans, done + {name}) ==
      if name in sofar && sofar[name].newRef == "" then sofar[name := MadeImplicit(sofar[name])] else sofar
    ensures forall n :: n in done + {added[i]} <==> n in added[..i + 1]
  {
    assert added[..i + 1] == added[..i] + [added[i]];
  }

  lemma AllImplicitPlans(plans: map<Name, Plan>, initial: set<Name>, before: set<Name>, marked: set<Name>,
                         added: seq<Name>, done: set<Name>)
    requires initial <= before && marked == before + Members(added)
    requires forall n :: n in added ==> n !in before
    requires forall n :: n in done <==> n in added[..|added|]
    ensures ImplicitPlans(ImplicitPlans(plans, before - initial), done) == ImplicitPlans(plans, marked - initial)
  {
    assert added[..|added|] == added;
    PlansTwice(plans, before - initial, done);
    assert marked - initial == (before - initial) + done;
  }

  /** A container with its dependencies filled in from its inspect response, if it could be had. */
  ghost predicate ResolvesTo(view: View, before: ContainerWithDeps, after: ContainerWithDeps) {
    (after == before && !view.reliable) ||
    (before.container.id in view.containers &&
     after == WithDependencies(before.name, before.container, InspectOf(view.containers[before.container.id])))
  }

  ghost predicate PlanResolvesTo(containers: Containers, before: Plan, after: Plan) {
    after == before ||
    (before.cnt.id in containers && after == before.(inspect := Some(InspectOf(containers[before.cnt.id]))))
  }

  /** Every scanned container exists, its plan is about it, and plans know only true inspect responses. */
  ghost predicate PlansMatch(containers: Containers, cs: seq<ContainerWithDeps>, plans: map<Name, Plan>) {
    && (forall i :: 0 <= i < |cs| ==> cs[i].container.id in containers)
    && (forall i :: 0 <= i < |cs| && cs[i].name in plans ==> plans[cs[i].name].cnt.id == cs[i].container.id)
    && (forall n :: n in plans && plans[n].inspect.Some? ==>
          plans[n].cnt.id in containers && plans[n].inspect.value == InspectOf(containers[plans[n].cnt.id]))
  }

  /** The first `i` containers have their dependencies, every one of them and with an inspect response in its
      plan if no read fails. */
  ghost predicate Resolved(view: View, before: seq<ContainerWithDeps>, after: seq<ContainerWithDeps>,
                           plansBefore: map<Name, Plan>, plansAfter: map<Name, Plan>, i: nat)
  {
    && i <= |after| == |before| && plansAfter.Keys == plansBefore.Keys
    && (forall k :: 0 <= k < i ==> ResolvesTo(view, before[k], after[k]))
    && (forall k :: i <= k < |after| ==> after[k] == before[k])
    && (forall n :: n in plansAfter ==> PlanResolvesTo(view.containers, plansBefore[n], plansAfter[n]))
    && (view.reliable ==>
          forall k :: 0 <= k < i && after[k].name in plansAfter ==> plansAfter[after[k].name].inspect.Some?)
  }

  lemma ViewIs(h: Host)
    ensures ViewOf(h) == View(h.containers, h.images, h.reliableReads)
  {
  }

  lemma NothingResolved(view: View, cs: seq<ContainerWithDeps>, plans: map<Name, Plan>)
    ensures Resolved(view, cs, cs, plans, plans, 0)
  {
  }

  lemma OneMoreResolved(view: View, was: seq<ContainerWithDeps>, now: seq<ContainerWithDeps>,
                        more: seq<ContainerWithDeps>, plans: map<Name, Plan>, plansNow: map<Name, Plan>,
                        plansMore: map<Name, Plan>, i: nat, inspect: Option<Inspect>)
    requires PlansMatch(view.containers, was, plans) && Resolved(view, was, now, plans, plansNow, i) && i < |now|
    requires var known := if now[i].name in plansNow then plansNow[now[i].name].inspect else None;
      if known.Some? then inspect == known
      else
        var id := now[i].container.id;
        if inspect.Some? then id in view.containers && inspect.value == InspectOf(view.containers[id])
        else !view.reliable || id !in view.containers
    requires var c := now[i];
      if inspect.None? then more == now && plansMore == plansNow
      else
        && more == now[i := WithDependencies(c.name, c.container, inspect.value)]
        && plansMore == if c.name in plansNow && plansNow[c.name].inspect.None?
                        then plansNow[c.name := plansNow[c.name].(inspect := inspect)] else plansNow
    ensures Resolved(view, was, more, plans, plansMore, i + 1)
  {
    hide InspectOf;
    assert now[i] == was[i];
    if now[i].name in plansNow {
      assert PlanResolvesTo(view.containers, plans[now[i].name], plansNow[now[i].name]);
    }
  }

  /** Plans one container, with one inspect at most. */
  method PlanContainer(h: Host, cfg: UpdaterConfig, summary: Summary, updates: Updates) returns (plan: Plan)
    requires summary.id in h.containers && summary == SummaryOf(summary.id, h.containers[summary.id])
    ensures plan.cnt == summary && PlanFits(ViewOf(h), cfg, updates, ContainerSummaryName(summary), plan)
  {
    var inspected: Option<Inspect> := None;
    var m := ResolveContainerImageMatch(cfg, summary, None, updates);
    if m.0 == "" && ShouldInspectUnmatched(cfg, summary) {
      inspected := h.Inspect(summary.id);
      if inspected.Some? {
        m := ResolveContainerImageMatch(cfg, summary, inspected, updates);
      }
    }
    assert h.reliableReads ==> m == MatchedUpdate(cfg, summary, InspectOf(h.containers[summary.id]), updates);
    var newRef, current := m.0, CurrentContainerImageID(summary, inspected);
    SameImageID(summary, h.containers[summary.id]);
    hide ResolveContainerImageMatch, ShouldInspectUnmatched, MatchedUpdate;
    if newRef != "" && current != "" {
      var ids := h.ImageIDs(newRef, cfg.normalize);
      if current in ids {
        newRef := "";
      }
    }
    return Plan(summary, inspected, newRef, m.1, newRef != "", false);
  }

  lemma SameImageID(summary: Summary, c: Container)
    requires summary.imageID == c.imageID
    ensures CurrentContainerImageID(summary, None) == CurrentContainerImageID(summary, Some(InspectOf(c)))
  {
  }

  lemma NothingScanned(view: View, cfg: UpdaterConfig, updates: Updates)
    ensures ScanFits(view, cfg, updates, [], map[], {}, [])
  {
  }

  lemma ListedContainer(containers: Containers, summaries: seq<Summary>, i: nat)
    requires ListsRunning(containers, summaries) && i < |summaries|
    ensures summaries[i].id in containers && summaries[i] == SummaryOf(summaries[i].id, containers[summaries[i].id])
  {
  }

  lemma EligibleNone(cfg: UpdaterConfig, excluded: set<string>, proxyName: string, summaries: seq<Summary>)
    ensures Eligible(cfg, excluded, proxyName, summaries[..0]) == []
  {
  }

  lemma EligibleSnoc(cfg: UpdaterConfig, excluded: set<string>, proxyName: string, summaries: seq<Summary>, i: nat)
    requires i < |summaries|
    ensures Eligible(cfg, excluded, proxyName, summaries[..i + 1]) ==
            if ShouldSkipSummary(cfg, excluded, proxyName, summaries[i])
            then Eligible(cfg, excluded, proxyName, summaries[..i])
            else Eligible(cfg, excluded, proxyName, summaries[..i]) + [summaries[i]]
  {
    assert summaries[..i + 1][..i] == summaries[..i];
  }

  lemma EligibleAll(cfg: UpdaterConfig, excluded: set<string>, proxyName: string, summaries: seq<Summary>)
    ensures Eligible(cfg, excluded, proxyName, summaries[..|summaries|]) ==
              Eligible(cfg, excluded, proxyName, summaries)
  {
    assert summaries[..|summaries|] == summaries;
  }

  lemma OneMoreScanned(view: View, cfg: UpdaterConfig, updates: Updates, kept: seq<Summary>, plans: map<Name, Plan>,
                       marked: set<Name>, containers: seq<ContainerWithDeps>, summary: Summary, plan: Plan)
    requires ScanFits(view, cfg, updates, kept, plans, marked, containers)
    requires PlanFits(view, cfg, updates, ContainerSummaryName(summary), plan)
    ensures var name := ContainerSummaryName(summary);
            ScanFits(view, cfg, updates, kept + [summary], plans[name := plan],
                     if plan.explicit then marked + {name} else marked,
                     containers + [ContainerWithDeps(summary, None, name, [], [], [])])
  {
    hide PlanFits, UniqueNames, NameSet, ContainerSummaryName;
    NameSetSnoc(containers, Unresolved(summary));
    if UniqueNames(containers + [Unresolved(summary)]) {
      UniqueNamesSnoc(containers, Unresolved(summary));
    }
  }

  lemma UniqueNamesSnoc(cs: seq<ContainerWithDeps>, c: ContainerWithDeps)
    requires UniqueNames(cs + [c])
    ensures UniqueNames(cs) && c.name !in NameSet(cs)
  {
    var more := cs + [c];
    forall i | 0 <= i < |cs| ensures more[i].name == cs[i].name && cs[i].name != c.name {
      assert more[i].name != more[|cs|].name;
    }
  }

  lemma MoreMarksKeepDependency(c: ContainerWithDeps, few: set<Name>, many: set<Name>)
    requires HasMarkedDependency(c, few) && few <= many
    ensures HasMarkedDependency(c, many)
  {
  }

  lemma FewerUnmarked(names: set<Name>, marked: set<Name>, added: seq<Name>)
    requires added != [] && forall n :: n in added ==> n in names && n !in marked
    ensures var after := marked + Members(added);
            names - after < names - marked && |names - after| < |names - marked|
  {
    var after := marked + Members(added);
    assert added[0] in names - marked;
    SubsetSize(names - after, names - marked - {added[0]});
  }

  lemma PlansTwice(plans: map<Name, Plan>, a: set<Name>, b: set<Name>)
    requires a !! b
    ensures ImplicitPlans(ImplicitPlans(plans, a), b) == ImplicitPlans(plans, a + b)
  {
  }
}
