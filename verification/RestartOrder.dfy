/** The order in which marked containers are handled: dependencies first, self-update targets last. */
module RestartOrder {
  import opened Wrappers
  import opened DockerTypes
  import opened Settings
  import opened Deps
  import opened RestartTypes
  import opened RestartScanning

  datatype Class = Normal | Agent | Server

  function LabelsIfInspected(inspect: Option<Inspect>): Labels {
    if inspect.Some? then InspectLabels(inspect.value) else map[]
  }

  /** All labels known for a candidate; later sources win. */
  function RestartCandidateLabels(c: ContainerWithDeps, plan: Option<Plan>): Labels {
    var own := c.container.labels + LabelsIfInspected(c.inspect);
    if plan.None? then own else own + plan.value.cnt.labels + LabelsIfInspected(plan.value.inspect)
  }

  /** Of the labels a candidate has from several sources the later source's wins, and none is lost: the plan's
      inspect response, the plan's listing, the candidate's inspect response, its listing. */
  lemma LaterLabelsWin(c: ContainerWithDeps, plan: Plan, key: string)
    ensures var merged := RestartCandidateLabels(c, Some(plan));
      var inspected := if plan.inspect.Some? && plan.inspect.value.config.Some?
                       then plan.inspect.value.config.value.labels else map[];
      var read := if c.inspect.Some? && c.inspect.value.config.Some?
                  then c.inspect.value.config.value.labels else map[];
      if key in inspected then key in merged && merged[key] == inspected[key]
      else if key in plan.cnt.labels then key in merged && merged[key] == plan.cnt.labels[key]
      else if key in read then key in merged && merged[key] == read[key]
      else if key in c.container.labels then key in merged && merged[key] == c.container.labels[key]
      else key !in merged
    ensures var own := RestartCandidateLabels(c, None);
      var read := if c.inspect.Some? && c.inspect.value.config.Some?
                  then c.inspect.value.config.value.labels else map[];
      if key in read then key in own && own[key] == read[key]
      else if key in c.container.labels then key in own && own[key] == c.container.labels[key]
      else key !in own
  {
  }

  function PlanOf(plans: map<Name, Plan>, name: Name): Option<Plan> {
    if name in plans then Some(plans[name]) else None
  }

  function ClassOf(cfg: UpdaterConfig, plans: map<Name, Plan>, c: ContainerWithDeps): Class {
    var labels := RestartCandidateLabels(c, PlanOf(plans, c.name));
    if cfg.policy.isAgent(labels) then Agent
    else if cfg.policy.isServer(labels) then Server
    else Normal
  }

  /** The elements of one class, in their order. */
  ghost function OfClass(cfg: UpdaterConfig, plans: map<Name, Plan>, s: seq<ContainerWithDeps>,
                         k: Class): seq<ContainerWithDeps> {
    if s == [] then []
    else
      var last := s[|s| - 1];
      OfClass(cfg, plans, s[..|s| - 1], k) + if ClassOf(cfg, plans, last) == k then [last] else []
  }

  ghost function Partition(cfg: UpdaterConfig, plans: map<Name, Plan>,
                           s: seq<ContainerWithDeps>): seq<ContainerWithDeps> {
    OfClass(cfg, plans, s, Normal) + OfClass(cfg, plans, s, Agent) + OfClass(cfg, plans, s, Server)
  }

  lemma OfClassSnoc(cfg: UpdaterConfig, plans: map<Name, Plan>, s: seq<ContainerWithDeps>, i: nat, k: Class)
    requires i < |s|
    ensures OfClass(cfg, plans, s[..i + 1], k) ==
            if ClassOf(cfg, plans, s[i]) == k then OfClass(cfg, plans, s[..i], k) + [s[i]]
            else OfClass(cfg, plans, s[..i], k)
  {
    assert s[..i + 1][..i] == s[..i];
  }

  lemma ShortIsPartitioned(cfg: UpdaterConfig, plans: map<Name, Plan>, s: seq<ContainerWithDeps>)
    requires |s| < 2
    ensures Partition(cfg, plans, s) == s
  {
    if |s| == 1 {
      assert s[..0] == [];
      assert forall k :: OfClass(cfg, plans, s, k) == if ClassOf(cfg, plans, s[0]) == k then s else [];
    }
  }

  method OrderSelfUpdateLast(cfg: UpdaterConfig, plans: map<Name, Plan>, sorted: seq<ContainerWithDeps>)
    returns (ordered: seq<ContainerWithDeps>)
    ensures ordered == Partition(cfg, plans, sorted)
  {
    hide *;
    if |sorted| < 2 {
      ShortIsPartitioned(cfg, plans, sorted);
      return sorted;
    }
    var normal, agents, servers := [], [], [];
    NothingOfClass(cfg, plans, sorted);
    for i := 0 to |sorted|
      invariant normal == OfClass(cfg, plans, sorted[..i], Normal)
      invariant agents == OfClass(cfg, plans, sorted[..i], Agent)
      invariant servers == OfClass(cfg, plans, sorted[..i], Server)
    {
      OfClassSnoc(cfg, plans, sorted, i, Normal);
      OfClassSnoc(cfg, plans, sorted, i, Agent);
      OfClassSnoc(cfg, plans, sorted, i, Server);
      var candidate := sorted[i];
      match ClassOf(cfg, plans, candidate)
      case Agent => agents := agents + [candidate];
      case Server => servers := servers + [candidate];
      case Normal => normal := normal + [candidate];
    }
    PartitionIs(cfg, plans, sorted);
    return normal + agents + servers;
  }

  lemma NothingOfClass(cfg: UpdaterConfig, plans: map<Name, Plan>, s: seq<ContainerWithDeps>)
    ensures forall k :: OfClass(cfg, plans, s[..0], k) == []
  {
  }

  lemma PartitionIs(cfg: UpdaterConfig, plans: map<Name, Plan>, s: seq<ContainerWithDeps>)
    ensures s[..|s|] == s
    ensures Partition(cfg, plans, s) ==
            OfClass(cfg, plans, s, Normal) + OfClass(cfg, plans, s, Agent) + OfClass(cfg, plans, s, Server)
  {
  }

  // ---------- What the partition keeps ----------

  lemma {:induction false} OfClassExact(cfg: UpdaterConfig, plans: map<Name, Plan>, s: seq<ContainerWithDeps>,
                                        k: Class, c: ContainerWithDeps)
    ensures multiset(OfClass(cfg, plans, s, k))[c] == if ClassOf(cfg, plans, c) == k then multiset(s)[c] else 0
  {
    if s != [] {
      var rest, last := s[..|s| - 1], s[|s| - 1];
      OfClassLast(cfg, plans, s, k);
      OfClassExact(cfg, plans, rest, k, c);
      hide *;
      CountLast(s, c);
      if ClassOf(cfg, plans, last) == k { CountLast(OfClass(cfg, plans, s, k), c); }
    }
  }

  lemma CountLast(s: seq<ContainerWithDeps>, c: ContainerWithDeps)
    requires s != []
    ensures multiset(s)[c] == multiset(s[..|s| - 1])[c] + if s[|s| - 1] == c then 1 else 0
  {
    assert s == s[..|s| - 1] + [s[|s| - 1]];
  }

  /** Nothing is lost, added or repeated. */
  lemma PartitionIsPermutation(cfg: UpdaterConfig, plans: map<Name, Plan>, s: seq<ContainerWithDeps>)
    ensures multiset(Partition(cfg, plans, s)) == multiset(s)
  {
    forall c ensures multiset(Partition(cfg, plans, s))[c] == multiset(s)[c] {
      OfClassExact(cfg, plans, s, Normal, c);
      OfClassExact(cfg, plans, s, Agent, c);
      OfClassExact(cfg, plans, s, Server, c);
    }
  }

  /** `x` stands somewhere before `y`. */
  ghost predicate Before(s: seq<ContainerWithDeps>, x: ContainerWithDeps, y: ContainerWithDeps) {
    exists i, j :: 0 <= i < j < |s| && s[i] == x && s[j] == y
  }

  lemma {:induction false} OfClassKeepsOrder(cfg: UpdaterConfig, plans: map<Name, Plan>, s: seq<ContainerWithDeps>,
                                             x: ContainerWithDeps, y: ContainerWithDeps)
    requires Before(s, x, y) && ClassOf(cfg, plans, x) == ClassOf(cfg, plans, y)
    ensures Before(OfClass(cfg, plans, s, ClassOf(cfg, plans, x)), x, y)
  {
    var k, rest, last := ClassOf(cfg, plans, x), s[..|s| - 1], s[|s| - 1];
    OfClassLast(cfg, plans, s, k);
    hide *;
    var filtered := OfClass(cfg, plans, rest, k);
    BeforeSnoc(s, x, y);
    if Before(rest, x, y) {
      OfClassKeepsOrder(cfg, plans, rest, x, y);
      BeforeInside([], filtered, if ClassOf(cfg, plans, last) == k then [last] else [], x, y);
      assert [] + filtered == filtered;
    } else {
      OfClassExact(cfg, plans, rest, k, x);
      assert x in filtered;
      BeforeAcross(filtered, [y], x, y);
    }
  }

  lemma OfClassLast(cfg: UpdaterConfig, plans: map<Name, Plan>, s: seq<ContainerWithDeps>, k: Class)
    requires s != []
    ensures var last := s[|s| - 1];
      OfClass(cfg, plans, s, k) ==
      OfClass(cfg, plans, s[..|s| - 1], k) + if ClassOf(cfg, plans, last) == k then [last] else []
  {
    hide ClassOf;
  }

  lemma BeforeSnoc(s: seq<ContainerWithDeps>, x: ContainerWithDeps, y: ContainerWithDeps)
    requires Before(s, x, y)
    ensures s != [] && (Before(s[..|s| - 1], x, y) || (s[|s| - 1] == y && x in s[..|s| - 1]))
  {
    var rest := s[..|s| - 1];
    var i, j :| 0 <= i < j < |s| && s[i] == x && s[j] == y;
    assert rest[i] == x;
    if j < |rest| { assert rest[j] == y; }
  }

  /** Inside one class the partition keeps the order it was given; across classes, normal containers
      come before agents and agents before servers. */
  lemma PartitionKeepsOrder(cfg: UpdaterConfig, plans: map<Name, Plan>, s: seq<ContainerWithDeps>,
                            x: ContainerWithDeps, y: ContainerWithDeps)
    requires x in s && y in s
    requires
      var k, l := ClassOf(cfg, plans, x), ClassOf(cfg, plans, y);
      (k == l && Before(s, x, y)) || (k == Normal && l != Normal) || (k == Agent && l == Server)
    ensures Before(Partition(cfg, plans, s), x, y)
  {
    var k, l := ClassOf(cfg, plans, x), ClassOf(cfg, plans, y);
    var n, a, v := OfClass(cfg, plans, s, Normal), OfClass(cfg, plans, s, Agent), OfClass(cfg, plans, s, Server);
    OfClassExact(cfg, plans, s, k, x);
    OfClassExact(cfg, plans, s, l, y);
    assert x in OfClass(cfg, plans, s, k) && y in OfClass(cfg, plans, s, l);
    assert Partition(cfg, plans, s) == n + a + v;
    hide OfClass, ClassOf, Before, Partition;
    if k == l {
      OfClassKeepsOrder(cfg, plans, s, x, y);
    }
    PartsKeepOrder(n, a, v, k, l, x, y);
  }

  lemma PartsKeepOrder(n: seq<ContainerWithDeps>, a: seq<ContainerWithDeps>, v: seq<ContainerWithDeps>,
                       k: Class, l: Class, x: ContainerWithDeps, y: ContainerWithDeps)
    requires var part := (c: Class) => if c.Normal? then n else if c.Agent? then a else v;
      if k == l then Before(part(k), x, y)
      else x in part(k) && y in part(l) && (k == Normal || (k == Agent && l == Server))
    ensures Before(n + a + v, x, y)
  {
    hide Before;
    if k == l {
      match k
      case Normal => BeforeInside([], n, a + v, x, y); assert [] + n + (a + v) == n + a + v;
      case Agent => BeforeInside(n, a, v, x, y);
      case Server => BeforeInside(n + a, v, [], x, y); assert n + a + v + [] == n + a + v;
    } else if k == Normal {
      BeforeAcross(n, a + v, x, y);
      assert n + (a + v) == n + a + v;
    } else {
      BeforeAcross(n + a, v, x, y);
    }
  }

  lemma BeforeInside(a: seq<ContainerWithDeps>, b: seq<ContainerWithDeps>, c: seq<ContainerWithDeps>,
                     x: ContainerWithDeps, y: ContainerWithDeps)
    requires Before(b, x, y)
    ensures Before(a + b + c, x, y)
  {
    var i, j :| 0 <= i < j < |b| && b[i] == x && b[j] == y;
    assert (a + b + c)[|a| + i] == x && (a + b + c)[|a| + j] == y;
  }

  lemma BeforeAcross(a: seq<ContainerWithDeps>, b: seq<ContainerWithDeps>, x: ContainerWithDeps, y: ContainerWithDeps)
    requires x in a && y in b
    ensures Before(a + b, x, y)
  {
    var i :| 0 <= i < |a| && a[i] == x;
    var j :| 0 <= j < |b| && b[j] == y;
    assert (a + b)[i] == x && (a + b)[|a| + j] == y;
  }

  // ---------- Sorting the marked containers ----------

  /** The containers marked for restart, in discovery order. */
  ghost function Candidates(cs: seq<ContainerWithDeps>, marked: set<Name>): seq<ContainerWithDeps> {
    if cs == [] then []
    else
      var last := cs[|cs| - 1];
      Candidates(cs[..|cs| - 1], marked) + if last.name in marked then [last] else []
  }

  /** The order before the partition: dependencies first and moved only where they force it, or
      discovery order when the candidates' dependencies form a cycle. */
  ghost predicate IsBaseOrder(candidates: seq<ContainerWithDeps>, base: seq<ContainerWithDeps>) {
    if Acyclic(candidates) then
      && multiset(base) == multiset(candidates) && DependenciesFirst(candidates, base)
      && MovesAreForced(candidates, |candidates|, base)
    else base == candidates
  }

  method SortRestartCandidates(cfg: UpdaterConfig, scan: RestartScan)
    returns (ordered: seq<ContainerWithDeps>, ghost base: seq<ContainerWithDeps>)
    ensures ordered == Partition(cfg, scan.plansByName, base)
    ensures UniqueNames(scan.containers) ==>
      UniqueNames(Candidates(scan.containers, scan.marked)) &&
        IsBaseOrder(Candidates(scan.containers, scan.marked), base)
    ensures UniqueNames(scan.containers) ==> multiset(ordered) == multiset(Candidates(scan.containers, scan.marked))
  {
    var candidates: seq<ContainerWithDeps> := [];
    for i := 0 to |scan.containers|
      invariant candidates == Candidates(scan.containers[..i], scan.marked)
    {
      assert scan.containers[..i + 1][..i] == scan.containers[..i];
      if scan.containers[i].name in scan.marked {
        candidates := candidates + [scan.containers[i]];
      }
    }
    assert scan.containers[..|scan.containers|] == scan.containers;
    if UniqueNames(scan.containers) {
      CandidatesUnique(scan.containers, scan.marked);
    }
    hide *;
    var sorter := new ContainerSorter(candidates);
    var sorted, cycle := sorter.Sort();
    if cycle.Some? {
      sorted := candidates;
    }
    base := sorted;
    SortGivesBase(candidates, base, cycle);
    ordered := OrderSelfUpdateLast(cfg, scan.plansByName, sorted);
    PartitionIsPermutation(cfg, scan.plansByName, sorted);
  }

  lemma SortGivesBase(candidates: seq<ContainerWithDeps>, base: seq<ContainerWithDeps>, cycle: Option<seq<Name>>)
    requires cycle.Some? ==> !Acyclic(candidates) && base == candidates
    requires cycle.None? ==> DependenciesFirst(candidates, base) && MovesAreForced(candidates, |candidates|, base)
    requires cycle.None? && UniqueNames(candidates) ==> multiset(base) == multiset(candidates) && Acyclic(candidates)
    ensures UniqueNames(candidates) ==> IsBaseOrder(candidates, base) && multiset(base) == multiset(candidates)
  {
  }

  lemma {:induction false} CandidatesUnique(cs: seq<ContainerWithDeps>, marked: set<Name>)
    requires UniqueNames(cs)
    ensures UniqueNames(Candidates(cs, marked))
    ensures forall c :: c in Candidates(cs, marked) <==> c in cs && c.name in marked
  {
    if cs != [] {
      var rest := cs[..|cs| - 1];
      CandidatesUnique(rest, marked);
      assert cs == rest + [cs[|cs| - 1]];
      var kept := Candidates(rest, marked);
      forall i | 0 <= i < |kept| ensures kept[i].name != cs[|cs| - 1].name {
        assert kept[i] in rest;
        var j :| 0 <= j < |rest| && rest[j] == kept[i];
        assert cs[j] == rest[j];
      }
    }
  }

  function Rank(k: Class): nat {
    match k case Normal => 0 case Agent => 1 case Server => 2
  }

  /** When the candidates' dependencies have no cycle, a candidate comes after something it depends on,
      however indirectly, exactly if that is not of a later class: a normal container is handled
      before an agent or server it depends on. */
  lemma DependencyOrder(cfg: UpdaterConfig, plans: map<Name, Plan>, candidates: seq<ContainerWithDeps>,
                        base: seq<ContainerWithDeps>, u: ContainerWithDeps, v: ContainerWithDeps)
    requires UniqueNames(candidates) && Acyclic(candidates) && IsBaseOrder(candidates, base)
    requires u in candidates && v in candidates && u != v
    requires Reaches(candidates, u.name, v.name)
    ensures Before(Partition(cfg, plans, base), v, u) <==>
            Rank(ClassOf(cfg, plans, v)) <= Rank(ClassOf(cfg, plans, u))
  {
    SamePermutation(candidates, base);
    PartitionIsPermutation(cfg, plans, base);
    SamePermutation(base, Partition(cfg, plans, base));
    BeforeIsAsymmetric(Partition(cfg, plans, base), u, v);
    if Rank(ClassOf(cfg, plans, v)) == Rank(ClassOf(cfg, plans, u)) {
      ComesFirst(candidates, base, u, v);
      PartitionKeepsOrder(cfg, plans, base, v, u);
    } else if Rank(ClassOf(cfg, plans, v)) < Rank(ClassOf(cfg, plans, u)) {
      PartitionKeepsOrder(cfg, plans, base, v, u);
    } else {
      PartitionKeepsOrder(cfg, plans, base, u, v);
    }
  }

  /** The class condition is needed: a container that depends on an agent is handled before it, in
      whatever order the two were found. */
  lemma LaterClassGoesFirst() returns (cfg: UpdaterConfig, plans: map<Name, Plan>, u: ContainerWithDeps,
                                       v: ContainerWithDeps)
    ensures UniqueNames([v, u]) && Acyclic([v, u]) && Reaches([v, u], u.name, v.name)
    ensures forall base :: IsBaseOrder([v, u], base) || IsBaseOrder([u, v], base) ==>
              Before(Partition(cfg, plans, base), u, v) && !Before(Partition(cfg, plans, base), v, u)
  {
    var none, agent := (labels: Labels) => false, (labels: Labels) => "agent" in labels;
    cfg := UpdaterConfig(LabelPolicy(none, none, agent, none, none), "", false, false,
                         (s: string) => s, (s: string) => false, (labels: Labels, s: string) => labels);
    plans := map[];
    u := ContainerWithDeps(Summary("u", [], "", "", map[]), None, "u", [], ["v"], []);
    v := ContainerWithDeps(Summary("v", [], "", "", map["agent" := ""]), None, "v", [], [], []);
    assert ClassOf(cfg, plans, u) == Normal && ClassOf(cfg, plans, v) == Agent;
    TwoInOrder(u, v);
    forall base | IsBaseOrder([v, u], base) || IsBaseOrder([u, v], base)
      ensures Before(Partition(cfg, plans, base), u, v) && !Before(Partition(cfg, plans, base), v, u)
    {
      assert multiset(base) == multiset([v, u]) == multiset([u, v]);
      SamePermutation([v, u], base);
      PartitionIsPermutation(cfg, plans, base);
      SamePermutation(base, Partition(cfg, plans, base));
      assert u in [v, u] && v in [v, u];
      hide ClassOf, Partition, IsBaseOrder, Acyclic, Reaches;
      PartitionKeepsOrder(cfg, plans, base, u, v);
      BeforeIsAsymmetric(Partition(cfg, plans, base), u, v);
    }
  }

  lemma TwoInOrder(u: ContainerWithDeps, v: ContainerWithDeps)
    requires u.name != v.name && u.links == u.networkDeps == [] && u.dependsOn == [v.name]
    requires v.links == v.dependsOn == v.networkDeps == []
    ensures UniqueNames([v, u]) && Acyclic([v, u]) && Reaches([v, u], u.name, v.name)
  {
    var cs := [v, u];
    assert cs[0].name == v.name && cs[1].name == u.name && DependsOn(cs[1], v.name);
    assert forall a, b :: HasEdge(cs, a, b) ==> a == u.name && b == v.name;
    assert HasEdge(cs, u.name, v.name);
    ReachesSelf(cs, v.name);
    ReachesStep(cs, u.name, v.name, v.name);
    hide HasEdge, Reaches;
    forall p | |p| >= 2 && IsWalk(cs, p) ensures p[0] != p[|p| - 1] {
      assert HasEdge(cs, p[0], p[1]) && HasEdge(cs, p[|p| - 2], p[|p| - 2 + 1]);
    }
  }

  lemma ComesFirst(candidates: seq<ContainerWithDeps>, base: seq<ContainerWithDeps>,
                   u: ContainerWithDeps, v: ContainerWithDeps)
    requires UniqueNames(candidates) && Acyclic(candidates) && IsBaseOrder(candidates, base)
    requires u in candidates && v in candidates && u != v && Reaches(candidates, u.name, v.name)
    ensures Before(base, v, u)
  {
    SamePermutation(candidates, base);
    var p :| IsWalk(candidates, p) && p[0] == u.name && p[|p| - 1] == v.name;
    var i :| 0 <= i < |base| && base[i] == u;
    var j :| 0 <= j < |base| && base[j] == v;
    if |p| >= 2 {
      WalkGoesBack(candidates, base, p, i, j);
    } else {
      SameNameSameElement(candidates, u, v);
    }
  }

  lemma BeforeIsAsymmetric(s: seq<ContainerWithDeps>, x: ContainerWithDeps, y: ContainerWithDeps)
    requires UniqueNames(s)
    ensures !(Before(s, x, y) && Before(s, y, x))
  {
  }

  lemma SameNameSameElement(cs: seq<ContainerWithDeps>, u: ContainerWithDeps, v: ContainerWithDeps)
    requires UniqueNames(cs) && u in cs && v in cs && u.name == v.name
    ensures u == v
  {
  }

  /** A permutation of uniquely named containers has the same members and unique names. */
  lemma SamePermutation(cs: seq<ContainerWithDeps>, base: seq<ContainerWithDeps>)
    requires UniqueNames(cs) && multiset(base) == multiset(cs)
    ensures UniqueNames(base) && NameSet(base) == NameSet(cs)
    ensures forall c :: c in base <==> c in cs
  {
    forall c ensures c in base <==> c in cs {
      assert c in multiset(base) <==> c in multiset(cs);
    }
    forall i, j | 0 <= i < j < |base| ensures base[i].name != base[j].name {
      assert base[i] in cs && base[j] in cs;
      if base[i].name == base[j].name {
        SameNameSameElement(cs, base[i], base[j]);
        UniqueNamesCountOne(cs, base[i]);
        CountsTwice(base, i, j);
      }
    }
    forall n ensures n in NameSet(base) <==> n in NameSet(cs) {
      if n in NameSet(base) {
        var i :| 0 <= i < |base| && base[i].name == n;
        assert base[i] in cs;
      }
      if n in NameSet(cs) {
        var i :| 0 <= i < |cs| && cs[i].name == n;
        assert cs[i] in base;
      }
    }
  }

  lemma CountsTwice(s: seq<ContainerWithDeps>, i: nat, j: nat)
    requires i < j < |s| && s[i] == s[j]
    ensures multiset(s)[s[i]] >= 2
  {
    assert s == s[..j] + [s[j]] + s[j + 1..];
    assert s[..j][i] == s[i];
    assert s[i] in multiset(s[..j]);
  }
}
