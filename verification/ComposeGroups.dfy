/** Candidates that belong to compose projects, grouped so that each project is updated once. */
module ComposeGroups {
  import opened Wrappers
  import opened DockerTypes
  import opened Strings
  import opened Settings
  import opened Sets
  import opened Deps
  import opened Matching
  import opened RestartTypes

  datatype ComposeGroup = ComposeGroup(projectName: string, services: seq<string>, seen: set<string>)

  type Groups = map<string, ComposeGroup>

  /** What a candidate asks of the compose updater: one service of one project, by its ID and name. */
  datatype Contribution = Contribution(id: string, projectName: string, service: string)

  /** A candidate contributes if it has an update, is inspected, is no label-marked self-update target, and
      names a service of a project the lookup knows. */
  function ContributionOf(cfg: UpdaterConfig, projects: map<string, string>, plans: map<Name, Plan>,
                          c: ContainerWithDeps): Option<Contribution>
  {
    if !cfg.hasProjectUpdater || c.name !in plans then None else
    var plan := plans[c.name];
    if plan.newRef == "" || plan.inspect.None? || plan.inspect.value.config.None? then None else
    var labels := plan.inspect.value.config.value.labels;
    var projectName, service := ProjectLabel(labels), ServiceLabel(labels);
    if cfg.policy.isSelfUpdateTarget(labels) || projectName == "" || service == "" then None
    else if projectName !in projects || projects[projectName] == "" then None
    else Some(Contribution(projects[projectName], projectName, service))
  }

  predicate ContributesTo(cfg: UpdaterConfig, projects: map<string, string>, plans: map<Name, Plan>,
                          c: ContainerWithDeps, id: string)
  {
    var k := ContributionOf(cfg, projects, plans, c);
    k.Some? && k.value.id == id
  }

  predicate Contributes(cfg: UpdaterConfig, projects: map<string, string>, plans: map<Name, Plan>,
                        c: ContainerWithDeps, id: string, service: string)
  {
    var k := ContributionOf(cfg, projects, plans, c);
    k.Some? && k.value.id == id && k.value.service == service
  }

  /** The services contributed to a project, in the candidates' order. */
  ghost function ServicesFor(cfg: UpdaterConfig, projects: map<string, string>, plans: map<Name, Plan>,
                             cs: seq<ContainerWithDeps>, id: string): seq<string>
  {
    if cs == [] then []
    else
      var rest, k := cs[..|cs| - 1], ContributionOf(cfg, projects, plans, cs[|cs| - 1]);
      ServicesFor(cfg, projects, plans, rest, id) + if k.Some? && k.value.id == id then [k.value.service] else []
  }

  /** The name the last contributor gives a project. */
  ghost function LastNameFor(cfg: UpdaterConfig, projects: map<string, string>, plans: map<Name, Plan>,
                             cs: seq<ContainerWithDeps>, id: string): string
  {
    if cs == [] then ""
    else
      var rest, k := cs[..|cs| - 1], ContributionOf(cfg, projects, plans, cs[|cs| - 1]);
      if k.Some? && k.value.id == id then k.value.projectName else LastNameFor(cfg, projects, plans, rest, id)
  }

  /** There is a group for exactly the projects contributed to: it lists the contributed services, each at
      its first mention, under the name the last contributor gave. */
  ghost predicate GroupsFit(cfg: UpdaterConfig, projects: map<string, string>, plans: map<Name, Plan>,
                            cs: seq<ContainerWithDeps>, groups: Groups)
  {
    forall id :: GroupFits(cfg, projects, plans, cs, groups, id)
  }

  ghost predicate GroupFits(cfg: UpdaterConfig, projects: map<string, string>, plans: map<Name, Plan>,
                            cs: seq<ContainerWithDeps>, groups: Groups, id: string)
  {
    var asked := ServicesFor(cfg, projects, plans, cs, id);
    && (id in groups <==> asked != [])
    && (id in groups ==>
          groups[id] == ComposeGroup(LastNameFor(cfg, projects, plans, cs, id), FirstOccurrences(asked),
                                     Members(asked)))
  }

  /** The groups with one more contribution. */
  function Joined(groups: Groups, k: Option<Contribution>): Groups {
    if k.None? then groups
    else
      var was := if k.value.id in groups then groups[k.value.id] else ComposeGroup("", [], {});
      var service := k.value.service;
      groups[k.value.id :=
        if service in was.seen then was.(projectName := k.value.projectName)
        else ComposeGroup(k.value.projectName, was.services + [service], was.seen + {service})]
  }

  method BuildComposeGroups(cfg: UpdaterConfig, projects: map<string, string>, sorted: seq<ContainerWithDeps>,
                            plans: map<Name, Plan>)
    returns (groups: Groups)
    ensures GroupsFit(cfg, projects, plans, sorted, groups)
  {
    groups := map[];
    NoGroups(cfg, projects, plans, sorted);
    if !cfg.hasProjectUpdater {
      return;
    }
    hide GroupsFit, ProjectLabel, ServiceLabel;
    for i := 0 to |sorted|
      invariant GroupsFit(cfg, projects, plans, sorted[..i], groups)
    {
      var candidate := sorted[i];
      OneMoreContribution(cfg, projects, plans, sorted[..i], candidate, groups);
      assert sorted[..i + 1] == sorted[..i] + [candidate];
      if candidate.name !in plans { continue; }
      var plan := plans[candidate.name];
      if plan.newRef == "" || plan.inspect.None? || plan.inspect.value.config.None? { continue; }
      var labels := plan.inspect.value.config.value.labels;
      if cfg.policy.isSelfUpdateTarget(labels) { continue; }
      var projectName, serviceName := ProjectLabel(labels), ServiceLabel(labels);
      if projectName == "" || serviceName == "" { continue; }
      if projectName !in projects || projects[projectName] == "" { continue; }
      var id := projects[projectName];
      var group := if id in groups then groups[id] else ComposeGroup("", [], {});
      group := group.(projectName := projectName);
      if serviceName !in group.seen {
        group := group.(services := group.services + [serviceName], seen := group.seen + {serviceName});
      }
      groups := groups[id := group];
    }
    assert sorted[..|sorted|] == sorted;
  }

  lemma NoGroups(cfg: UpdaterConfig, projects: map<string, string>, plans: map<Name, Plan>, cs: seq<ContainerWithDeps>)
    ensures GroupsFit(cfg, projects, plans, cs[..0], map[])
    ensures !cfg.hasProjectUpdater ==> GroupsFit(cfg, projects, plans, cs, map[])
  {
    if !cfg.hasProjectUpdater {
      forall id ensures GroupFits(cfg, projects, plans, cs, map[], id) {
        NothingContributed(cfg, projects, plans, cs, id);
      }
    }
  }

  lemma {:induction false} NothingContributed(cfg: UpdaterConfig, projects: map<string, string>, plans: map<Name, Plan>,
                                              cs: seq<ContainerWithDeps>, id: string)
    requires !cfg.hasProjectUpdater
    ensures ServicesFor(cfg, projects, plans, cs, id) == []
  {
    if cs != [] { NothingContributed(cfg, projects, plans, cs[..|cs| - 1], id); }
  }

  lemma ContributionCounts(cfg: UpdaterConfig, projects: map<string, string>, plans: map<Name, Plan>,
                           cs: seq<ContainerWithDeps>, c: ContainerWithDeps, id: string)
    ensures var k := ContributionOf(cfg, projects, plans, c);
      var asked, more := ServicesFor(cfg, projects, plans, cs, id), ServicesFor(cfg, projects, plans, cs + [c], id);
      var was, now := LastNameFor(cfg, projects, plans, cs, id), LastNameFor(cfg, projects, plans, cs + [c], id);
      if k.Some? && k.value.id == id then more == asked + [k.value.service] && now == k.value.projectName
      else more == asked && now == was
  {
    assert (cs + [c])[..|cs|] == cs;
    hide ContributionOf;
  }

  lemma JoinedGroup(groups: Groups, k: Contribution, asked: seq<string>, name: string)
    requires k.id in groups <==> asked != []
    requires k.id in groups ==> groups[k.id] == ComposeGroup(name, FirstOccurrences(asked), Members(asked))
    ensures var more := asked + [k.service];
      Joined(groups, Some(k))[k.id] == ComposeGroup(k.projectName, FirstOccurrences(more), Members(more))
  {
    FirstOccurrencesExact(asked);
    FirstOccurrencesSnoc(asked, k.service);
    MembersSnoc(asked, k.service);
    NothingAsked();
    hide NoDuplicates, FirstOccurrences, Members;
  }

  lemma MembersSnoc(asked: seq<string>, service: string)
    ensures service in Members(asked) <==> service in asked
    ensures Members(asked + [service]) == Members(asked) + {service}
    ensures service in asked ==> Members(asked + [service]) == Members(asked)
  {
  }

  lemma NothingAsked()
    ensures FirstOccurrences([]) == [] && Members<string>([]) == {}
  {
  }

  lemma OneMoreContribution(cfg: UpdaterConfig, projects: map<string, string>, plans: map<Name, Plan>,
                            cs: seq<ContainerWithDeps>, c: ContainerWithDeps, groups: Groups)
    requires GroupsFit(cfg, projects, plans, cs, groups)
    ensures GroupsFit(cfg, projects, plans, cs + [c], Joined(groups, ContributionOf(cfg, projects, plans, c)))
  {
    hide ContributionOf, ServicesFor, LastNameFor, FirstOccurrences, Members;
    var k := ContributionOf(cfg, projects, plans, c);
    forall id ensures GroupFits(cfg, projects, plans, cs + [c], Joined(groups, k), id) {
      assert GroupFits(cfg, projects, plans, cs, groups, id);
      ContributionCounts(cfg, projects, plans, cs, c, id);
      if k.Some? && k.value.id == id {
        JoinedGroup(groups, k.value, ServicesFor(cfg, projects, plans, cs, id),
                    LastNameFor(cfg, projects, plans, cs, id));
      }
    }
  }

  lemma {:induction false} ServicesAreContributed(cfg: UpdaterConfig, projects: map<string, string>,
                                                  plans: map<Name, Plan>, cs: seq<ContainerWithDeps>, id: string)
    ensures forall service :: service in ServicesFor(cfg, projects, plans, cs, id) <==>
              exists c :: c in cs && Contributes(cfg, projects, plans, c, id, service)
  {
    hide ContributionOf;
    if cs != [] {
      var rest, last := cs[..|cs| - 1], cs[|cs| - 1];
      ServicesAreContributed(cfg, projects, plans, rest, id);
      assert cs == rest + [last];
      forall service
        ensures service in ServicesFor(cfg, projects, plans, cs, id) <==>
                exists c :: c in cs && Contributes(cfg, projects, plans, c, id, service)
      {
        if Contributes(cfg, projects, plans, last, id, service) { assert last in cs; }
        if service in ServicesFor(cfg, projects, plans, rest, id) {
          var c :| c in rest && Contributes(cfg, projects, plans, c, id, service);
          assert c in cs;
        }
      }
    }
  }

  /** A group lists, once each, exactly the services some candidate contributed to it. */
  lemma GroupServices(cfg: UpdaterConfig, projects: map<string, string>, plans: map<Name, Plan>,
                      cs: seq<ContainerWithDeps>, groups: Groups, id: string)
    requires GroupsFit(cfg, projects, plans, cs, groups) && id in groups
    ensures NoDuplicates(groups[id].services)
    ensures forall service :: service in groups[id].services <==>
              exists c :: c in cs && Contributes(cfg, projects, plans, c, id, service)
  {
    assert GroupFits(cfg, projects, plans, cs, groups, id);
    FirstOccurrencesExact(ServicesFor(cfg, projects, plans, cs, id));
    ServicesAreContributed(cfg, projects, plans, cs, id);
    hide Contributes, ServicesFor, NoDuplicates;
  }

  /** No candidate after `i` contributes to the project. */
  ghost predicate IsLastContributor(cfg: UpdaterConfig, projects: map<string, string>, plans: map<Name, Plan>,
                                    cs: seq<ContainerWithDeps>, id: string, i: nat)
  {
    && i < |cs| && ContributesTo(cfg, projects, plans, cs[i], id)
    && forall j :: i < j < |cs| ==> !ContributesTo(cfg, projects, plans, cs[j], id)
  }

  lemma {:induction false} LastContributor(cfg: UpdaterConfig, projects: map<string, string>, plans: map<Name, Plan>,
                                           cs: seq<ContainerWithDeps>, id: string) returns (last: nat)
    requires ServicesFor(cfg, projects, plans, cs, id) != []
    ensures IsLastContributor(cfg, projects, plans, cs, id, last)
    ensures LastNameFor(cfg, projects, plans, cs, id) ==
              ContributionOf(cfg, projects, plans, cs[last]).value.projectName
  {
    hide ContributionOf;
    last := |cs| - 1;
    if !ContributesTo(cfg, projects, plans, cs[last], id) {
      last := LastContributor(cfg, projects, plans, cs[..last], id);
    }
  }

  // ---------- Finding a project's group ----------

  /** The group whose project name this is; map order does not matter, for a project name resolves to
      one project only. */
  function GroupOf(projects: map<string, string>, groups: Groups, projectName: string): string {
    if projectName != "" && projectName in projects && projects[projectName] in groups &&
       groups[projects[projectName]].projectName == projectName
    then projects[projectName] else ""
  }

  /** Some group of that name, whichever the search meets first; blank when there is none. */
  method ComposeProjectID(projectName: string, groups: Groups) returns (id: string)
    ensures IsFound(groups, projectName, id)
  {
    if projectName == "" {
      return "";
    }
    var rest := groups.Keys;
    while rest != {}
      invariant rest <= groups.Keys
      invariant forall k :: k in groups && k !in rest ==> groups[k].projectName != projectName
      decreases rest
    {
      var k :| k in rest;
      if groups[k].projectName == projectName {
        return k;
      }
      rest := rest - {k};
    }
    return "";
  }

  /** The outcome of a search: a group of that name, or blank if no other than one under a blank ID has it. */
  ghost predicate IsFound(groups: Groups, projectName: string, id: string) {
    if id != "" then projectName != "" && id in groups && groups[id].projectName == projectName
    else projectName == "" || ("" in groups && groups[""].projectName == projectName) ||
         forall k :: k in groups ==> groups[k].projectName != projectName
  }

  /** In groups built from one run's candidates a project name leads to one group at most, so the order
      of the search does not matter. */
  lemma SearchFindsGroup(cfg: UpdaterConfig, projects: map<string, string>, plans: map<Name, Plan>,
                         cs: seq<ContainerWithDeps>, projectName: string, groups: Groups, id: string)
    requires GroupsFit(cfg, projects, plans, cs, groups) && IsFound(groups, projectName, id)
    ensures id == GroupOf(projects, groups, projectName)
  {
    if id != "" {
      GroupHasName(cfg, projects, plans, cs, groups, id);
    }
    if "" in groups {
      GroupHasName(cfg, projects, plans, cs, groups, "");
    }
  }

  /** A group's name leads to the group's project. */
  lemma GroupHasName(cfg: UpdaterConfig, projects: map<string, string>, plans: map<Name, Plan>,
                     cs: seq<ContainerWithDeps>, groups: Groups, id: string)
    requires GroupsFit(cfg, projects, plans, cs, groups) && id in groups
    ensures var name := groups[id].projectName; id != "" && name != "" && name in projects && projects[name] == id
  {
    assert GroupFits(cfg, projects, plans, cs, groups, id);
    var last := LastContributor(cfg, projects, plans, cs, id);
    hide ProjectLabel, ServiceLabel;
  }

  ghost predicate InjectiveProjects(projects: map<string, string>) {
    forall p, q :: p in projects && q in projects && projects[p] == projects[q] ==> p == q
  }

  /** A contributor's project has a group with its service, and the contributor finds it if and only if
      the last candidate to contribute to the same project ID gives the project the same name; with one
      name to each project it always does. */
  lemma ContributorFindsGroup(cfg: UpdaterConfig, projects: map<string, string>, plans: map<Name, Plan>,
                              cs: seq<ContainerWithDeps>, groups: Groups, c: ContainerWithDeps) returns (last: nat)
    requires GroupsFit(cfg, projects, plans, cs, groups) && c in cs
    requires ContributionOf(cfg, projects, plans, c).Some?
    ensures var k := ContributionOf(cfg, projects, plans, c).value;
      && k.id in groups && k.service in groups[k.id].services
      && IsLastContributor(cfg, projects, plans, cs, k.id, last)
      && var name := ContributionOf(cfg, projects, plans, cs[last]).value.projectName;
         && GroupOf(projects, groups, k.projectName) == (if name == k.projectName then k.id else "")
         && (InjectiveProjects(projects) ==> name == k.projectName)
  {
    var k := ContributionOf(cfg, projects, plans, c).value;
    assert Contributes(cfg, projects, plans, c, k.id, k.service);
    ServicesAreContributed(cfg, projects, plans, cs, k.id);
    assert k.service in ServicesFor(cfg, projects, plans, cs, k.id);
    assert GroupFits(cfg, projects, plans, cs, groups, k.id);
    GroupServices(cfg, projects, plans, cs, groups, k.id);
    last := LastContributor(cfg, projects, plans, cs, k.id);
    hide ProjectLabel, ServiceLabel, ServicesFor, LastNameFor, NoDuplicates;
  }

  /** Two project names for one project: whatever groups are built, the later contributor's name takes the
      group over and the earlier contributor no longer finds it. */
  lemma SharedProjectLosesContributor() returns (cfg: UpdaterConfig, projects: map<string, string>,
                                                 plans: map<Name, Plan>, cs: seq<ContainerWithDeps>)
    ensures |cs| == 2 && ContributionOf(cfg, projects, plans, cs[0]) == Some(Contribution("id", "a", "web"))
    ensures ContributionOf(cfg, projects, plans, cs[1]) == Some(Contribution("id", "b", "web"))
    ensures forall groups :: GroupsFit(cfg, projects, plans, cs, groups) ==>
              GroupOf(projects, groups, "a") == "" && GroupOf(projects, groups, "b") == "id"
  {
    var none := (l: Labels) => false;
    cfg := UpdaterConfig(LabelPolicy(none, none, none, none, none), "", true, false,
                         (s: string) => s, (s: string) => false, (l: Labels, s: string) => l);
    projects := map["a" := "id", "b" := "id"];
    var x, y := NamedContainer("x"), NamedContainer("y");
    plans := map["x" := ServicePlan("x", "a", "web"), "y" := ServicePlan("y", "b", "web")];
    cs := [x, y];
    SolidLabels("a", "web");
    SolidLabels("b", "web");
    assert ContributionOf(cfg, projects, plans, x) == Some(Contribution("id", "a", "web"));
    assert ContributionOf(cfg, projects, plans, y) == Some(Contribution("id", "b", "web"));
    hide ContributionOf, ServicePlan;
    forall groups | GroupsFit(cfg, projects, plans, cs, groups)
      ensures GroupOf(projects, groups, "a") == "" && GroupOf(projects, groups, "b") == "id"
    {
      EarlierIsLost(cfg, projects, plans, cs, groups);
    }
  }

  /** Of two contributors to one project under different names only the later finds the group. */
  lemma EarlierIsLost(cfg: UpdaterConfig, projects: map<string, string>, plans: map<Name, Plan>,
                      cs: seq<ContainerWithDeps>, groups: Groups)
    requires |cs| == 2 && GroupsFit(cfg, projects, plans, cs, groups)
    requires var k, l := ContributionOf(cfg, projects, plans, cs[0]), ContributionOf(cfg, projects, plans, cs[1]);
      k.Some? && l.Some? && k.value.id == l.value.id && k.value.projectName != l.value.projectName
    ensures var k, l := ContributionOf(cfg, projects, plans, cs[0]).value,
              ContributionOf(cfg, projects, plans, cs[1]).value;
      GroupOf(projects, groups, k.projectName) == "" && GroupOf(projects, groups, l.projectName) == l.id
  {
    var first := ContributorFindsGroup(cfg, projects, plans, cs, groups, cs[0]);
    var second := ContributorFindsGroup(cfg, projects, plans, cs, groups, cs[1]);
    hide ContributionOf, GroupsFit, GroupOf;
    assert ContributesTo(cfg, projects, plans, cs[1], ContributionOf(cfg, projects, plans, cs[0]).value.id);
    assert first == 1 && second == 1;
  }

  /** A container of a project's service, due to move to "new". */
  function ServicePlan(id: string, project: string, service: string): Plan {
    var inspect := Inspect("", "", Some(Config("", map[PROJECT_LABEL := project, SERVICE_LABEL := service])), None,
                           map[]);
    Plan(Summary(id, [], "", "", map[]), Some(inspect), "new", "", true, false)
  }

  function NamedContainer(name: Name): ContainerWithDeps {
    ContainerWithDeps(Summary(name, [], "", "", map[]), None, name, [], [], [])
  }

  lemma SolidLabels(project: string, service: string)
    requires (forall i :: 0 <= i < |project| ==> !IsSpace(project[i]))
    requires (forall i :: 0 <= i < |service| ==> !IsSpace(service[i]))
    ensures var labels: Labels := map[PROJECT_LABEL := project, SERVICE_LABEL := service];
      ProjectLabel(labels) == project && ServiceLabel(labels) == service
  {
    assert PROJECT_LABEL[19] != SERVICE_LABEL[19];
    TrimSpaceKeepsSolid(project);
    TrimSpaceKeepsSolid(service);
  }
}
