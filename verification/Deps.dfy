/** The restart dependency graph and its depth-first topological sorter. */
module Deps {
  import opened Wrappers
  import opened DockerTypes
  import opened Strings

  type Name = string

  /** A container with the names it must be restarted after. */
  datatype ContainerWithDeps = ContainerWithDeps(
    container: Summary,
    inspect: Option<Inspect>,
    name: Name,
    links: seq<Name>,
    dependsOn: seq<Name>,
    networkDeps: seq<Name>)

  // ---------- Reading a container's dependencies ----------

  const DEPENDS_ON_LABEL: string := "com.getarcaneapp.arcane.depends-on"

  function LinkTarget(link: string): Name {
    TrimPrefix(UpTo(link, ':'), "/")
  }

  function LinkTargets(links: seq<string>): seq<Name> {
    if links == [] then [] else LinkTargets(links[..|links| - 1]) + [LinkTarget(links[|links| - 1])]
  }

  /** The pieces that are not blank, trimmed. */
  function NamesIn(pieces: seq<string>): seq<Name> {
    if pieces == [] then []
    else
      var last := TrimSpace(pieces[|pieces| - 1]);
      NamesIn(pieces[..|pieces| - 1]) + if last != "" then [last] else []
  }

  function WithDependencies(name: Name, c: Summary, inspect: Inspect): ContainerWithDeps {
    ContainerWithDeps(
      c, Some(inspect), name,
      if inspect.hostConfig.Some? then LinkTargets(inspect.hostConfig.value.links) else [],
      if DEPENDS_ON_LABEL in InspectLabels(inspect) then
        NamesIn(SplitOn(InspectLabels(inspect)[DEPENDS_ON_LABEL], ','))
      else [],
      if IsContainerMode(inspect.hostConfig) then [TrimPrefix(inspect.hostConfig.value.networkMode, "container:")]
      else [])
  }

  method ExtractContainerDeps(name: Name, cnt: Summary, inspect: Inspect) returns (c: ContainerWithDeps)
    ensures c == WithDependencies(name, cnt, inspect)
  {
    c := ContainerWithDeps(cnt, Some(inspect), name, [], [], []);
    if inspect.hostConfig.Some? {
      var links := inspect.hostConfig.value.links;
      for i := 0 to |links|
        invariant c == ContainerWithDeps(cnt, Some(inspect), name, LinkTargets(links[..i]), [], [])
      {
        assert links[..i + 1][..i] == links[..i];
        c := c.(links := c.links + [TrimPrefix(UpTo(links[i], ':'), "/")]);
      }
      assert links[..|links|] == links;
    }
    if inspect.config.Some? && DEPENDS_ON_LABEL in inspect.config.value.labels {
      ghost var linked := c;
      var pieces := SplitOn(inspect.config.value.labels[DEPENDS_ON_LABEL], ',');
      for i := 0 to |pieces|
        invariant c == linked.(dependsOn := NamesIn(pieces[..i]))
      {
        assert pieces[..i + 1][..i] == pieces[..i];
        var dep := TrimSpace(pieces[i]);
        if dep != "" {
          c := c.(dependsOn := c.dependsOn + [dep]);
        }
      }
      assert pieces[..|pieces|] == pieces;
    }
    if inspect.hostConfig.Some? && IsContainerMode(inspect.hostConfig) {
      c := c.(networkDeps := c.networkDeps + [TrimPrefix(inspect.hostConfig.value.networkMode, "container:")]);
    }
  }

  /** What a link spells: the name, with or without a slash before it and an alias after it. */
  ghost predicate LinkNames(link: string, dep: Name) {
    && ':' !in dep
    && (link == "/" + dep || "/" + dep + ":" <= link
        || (!("/" <= dep) && (link == dep || dep + ":" <= link)))
  }

  /** A name between the commas of a label's text, white space around it aside. */
  ghost predicate TextNames(text: string, dep: Name) {
    dep != "" && exists i: nat, j: nat :: IsPiece(text, ',', i, j) && TrimSpace(text[i..j]) == dep
  }

  /** A container's own settings name `dep`: by a link, the depends-on label, or the network it shares. */
  ghost predicate SettingsName(hostConfig: Option<HostConfig>, labels: Labels, dep: Name) {
    || (hostConfig.Some? &&
        ((exists link :: link in hostConfig.value.links && LinkNames(link, dep)) ||
         hostConfig.value.networkMode == "container:" + dep))
    || ("com.getarcaneapp.arcane.depends-on" in labels && TextNames(labels["com.getarcaneapp.arcane.depends-on"], dep))
  }

  lemma LinkTargetIs(link: string, dep: Name)
    ensures LinkTarget(link) == dep <==> LinkNames(link, dep)
  {
    UpToIs(link, ':');
    var head := UpTo(link, ':');
    if LinkNames(link, dep) {
      var spelled := if link == "/" + dep || "/" + dep + ":" <= link then "/" + dep else dep;
      UpToSpelled(link, spelled);
      TrimPrefixIs(dep, "/");
    }
    assert "/" <= head ==> head == "/" + head[1..];
    assert |head| < |link| ==> head + ":" == link[..|head| + 1];
    assert |head| == |link| ==> head == link;
  }

  lemma UpToSpelled(link: string, spelled: string)
    requires ':' !in spelled && (link == spelled || spelled + ":" <= link)
    ensures UpTo(link, ':') == spelled
  {
    assert link[..|spelled|] == spelled;
    assert |spelled| < |link| ==> link[|spelled|] == (spelled + ":")[|spelled|];
    UpToUnique(link, ':', |spelled|);
  }

  lemma {:induction false} LinkTargetsExact(links: seq<string>, dep: Name)
    ensures dep in LinkTargets(links) <==> exists link :: link in links && LinkNames(link, dep)
  {
    hide LinkNames, LinkTarget;
    if links != [] {
      var rest, last := links[..|links| - 1], links[|links| - 1];
      assert links == rest + [last];
      LinkTargetsExact(rest, dep);
      LinkTargetIs(last, dep);
      assert last in links;
    }
  }

  lemma {:induction false} NamesInExact(pieces: seq<string>, dep: Name)
    ensures dep in NamesIn(pieces) <==> dep != "" && exists p :: p in pieces && TrimSpace(p) == dep
  {
    hide TrimSpace;
    if pieces != [] {
      var rest, last := pieces[..|pieces| - 1], pieces[|pieces| - 1];
      assert pieces == rest + [last];
      NamesInExact(rest, dep);
      assert last in pieces;
    }
  }

  lemma LabelNamesExact(text: string, dep: Name)
    ensures dep in NamesIn(SplitOn(text, ',')) <==> TextNames(text, dep)
  {
    hide TrimSpace, SplitOn;
    NamesInExact(SplitOn(text, ','), dep);
    if p :| p in SplitOn(text, ',') && TrimSpace(p) == dep {
      SplitOnIs(text, ',', p);
      assert HasPiece(text, ',', p);
      var i: nat, j: nat :| IsPiece(text, ',', i, j) && text[i..j] == p;
    }
    if i: nat, j: nat :| IsPiece(text, ',', i, j) && TrimSpace(text[i..j]) == dep {
      assert HasPiece(text, ',', text[i..j]);
      SplitOnIs(text, ',', text[i..j]);
    }
  }

  lemma ModeNamesExact(mode: string, dep: Name)
    ensures ("container:" <= mode && TrimPrefix(mode, "container:") == dep) <==> mode == "container:" + dep
  {
    TrimPrefixIs(dep, "container:");
    if "container:" <= mode { assert mode == "container:" + mode[10..]; }
  }

  /** A container depends on exactly the names that its settings spell out. */
  lemma DependenciesExact(name: Name, c: Summary, inspect: Inspect, dep: Name)
    ensures DependsOn(WithDependencies(name, c, inspect), dep) <==>
            SettingsName(inspect.hostConfig, InspectLabels(inspect), dep)
  {
    hide LinkNames, TextNames, LinkTargets, NamesIn, SplitOn, TrimPrefix;
    if inspect.hostConfig.Some? {
      LinkTargetsExact(inspect.hostConfig.value.links, dep);
      ModeNamesExact(inspect.hostConfig.value.networkMode, dep);
    }
    if DEPENDS_ON_LABEL in InspectLabels(inspect) {
      LabelNamesExact(InspectLabels(inspect)[DEPENDS_ON_LABEL], dep);
    }
  }

  // ---------- The dependency graph over a list of containers ----------

  predicate DependsOn(c: ContainerWithDeps, dep: Name) {
    dep in c.links || dep in c.dependsOn || dep in c.networkDeps
  }

  ghost function NameSet(cs: seq<ContainerWithDeps>): set<Name> {
    set i | 0 <= i < |cs| :: cs[i].name
  }

  ghost predicate UniqueNames(cs: seq<ContainerWithDeps>) {
    forall i, j :: 0 <= i < j < |cs| ==> cs[i].name != cs[j].name
  }

  /** Some listed container named `a` depends on `b`, and `b` is listed too. */
  ghost predicate HasEdge(cs: seq<ContainerWithDeps>, a: Name, b: Name) {
    b in NameSet(cs) && exists i :: 0 <= i < |cs| && cs[i].name == a && DependsOn(cs[i], b)
  }

  ghost predicate IsWalk(cs: seq<ContainerWithDeps>, p: seq<Name>) {
    |p| >= 1 && forall i :: 0 <= i < |p| - 1 ==> HasEdge(cs, p[i], p[i + 1])
  }

  ghost predicate NoDuplicates<T>(s: seq<T>) {
    forall i, j :: 0 <= i < j < |s| ==> s[i] != s[j]
  }

  /** A simple cycle: it closes, and no name but the first is repeated. */
  ghost predicate IsCycle(cs: seq<ContainerWithDeps>, p: seq<Name>) {
    |p| >= 2 && IsWalk(cs, p) && p[0] == p[|p| - 1] && NoDuplicates(p[..|p| - 1])
  }

  /** No walk, simple or not, returns to where it began. */
  ghost predicate Acyclic(cs: seq<ContainerWithDeps>) {
    forall p :: |p| >= 2 && IsWalk(cs, p) ==> p[0] != p[|p| - 1]
  }

  /** `a` is `b` or depends on it through listed containers. */
  ghost predicate Reaches(cs: seq<ContainerWithDeps>, a: Name, b: Name) {
    exists p :: IsWalk(cs, p) && p[0] == a && p[|p| - 1] == b
  }

  /** Every listed dependency of a listed container stands before it. */
  ghost predicate DependenciesFirst(cs: seq<ContainerWithDeps>, sorted: seq<ContainerWithDeps>) {
    forall i :: 0 <= i < |sorted| ==> DependenciesIn(cs, sorted[i], NameSet(sorted[..i]))
  }

  ghost predicate DependenciesIn(cs: seq<ContainerWithDeps>, c: ContainerWithDeps, done: set<Name>) {
    forall d :: d in NameSet(cs) && DependsOn(c, d) ==> d in done
  }

  /** A container stands ahead of the one listed at `k` (among the first `n`) only if some container
      listed no later than `k` reaches it: nothing is moved without a dependency to justify it. */
  ghost predicate MovesAreForced(cs: seq<ContainerWithDeps>, n: nat, sorted: seq<ContainerWithDeps>)
    requires n <= |cs|
  {
    forall a, b, k ::
      0 <= a < b < |sorted| && 0 <= k < n && sorted[b].name == cs[k].name ==>
        ReachedFromPrefix(cs, k + 1, sorted[a].name)
  }

  ghost predicate ReachedFromPrefix(cs: seq<ContainerWithDeps>, n: nat, name: Name)
    requires n <= |cs|
  {
    exists j :: 0 <= j < n && Reaches(cs, cs[j].name, name)
  }

  // ---------- Facts about walks ----------

  lemma ReachesSelf(cs: seq<ContainerWithDeps>, a: Name)
    ensures Reaches(cs, a, a)
  {
    assert IsWalk(cs, [a]);
    assert [a][0] == a && [a][|[a]| - 1] == a;
  }

  lemma ReachesStep(cs: seq<ContainerWithDeps>, a: Name, b: Name, c: Name)
    requires HasEdge(cs, a, b) && Reaches(cs, b, c)
    ensures Reaches(cs, a, c)
  {
    var p :| IsWalk(cs, p) && p[0] == b && p[|p| - 1] == c;
    var q := [a] + p;
    forall i | 0 <= i < |q| - 1 ensures HasEdge(cs, q[i], q[i + 1]) {
      if i > 0 { assert q[i] == p[i - 1] && q[i + 1] == p[i]; }
    }
    assert IsWalk(cs, q) && q[0] == a && q[|q| - 1] == c;
  }

  /** `a` reaches everything `sorted` gained from position `from` on. */
  ghost predicate AllReached(cs: seq<ContainerWithDeps>, a: Name, sorted: seq<ContainerWithDeps>, from: nat) {
    forall i :: from <= i < |sorted| ==> Reaches(cs, a, sorted[i].name)
  }

  lemma NothingReached(cs: seq<ContainerWithDeps>, a: Name, sorted: seq<ContainerWithDeps>)
    ensures AllReached(cs, a, sorted, |sorted|)
  {
  }

  lemma AllReachedStep(cs: seq<ContainerWithDeps>, a: Name, b: Name, before: seq<ContainerWithDeps>,
                       sorted: seq<ContainerWithDeps>, from: nat)
    requires before <= sorted && HasEdge(cs, a, b)
    requires AllReached(cs, a, before, from) && AllReached(cs, b, sorted, |before|)
    ensures AllReached(cs, a, sorted, from)
  {
    hide Reaches;
    forall i | from <= i < |sorted| ensures Reaches(cs, a, sorted[i].name) {
      if i < |before| {
        assert sorted[i] == before[i];
      } else {
        ReachesStep(cs, a, b, sorted[i].name);
      }
    }
  }

  lemma AllReachedSelf(cs: seq<ContainerWithDeps>, c: ContainerWithDeps, sorted: seq<ContainerWithDeps>, from: nat)
    requires AllReached(cs, c.name, sorted, from)
    ensures AllReached(cs, c.name, sorted + [c], from)
  {
    ReachesSelf(cs, c.name);
  }

  // ---------- The sorter ----------

  /** The dependencies of `c` over its three lists, each kept at its first occurrence. */
  function FirstOccurrences(s: seq<Name>): seq<Name> {
    if s == [] then []
    else
      var rest := FirstOccurrences(s[..|s| - 1]);
      var last := s[|s| - 1];
      if last in rest then rest else rest + [last]
  }

  lemma {:induction false} FirstOccurrencesExact(s: seq<Name>)
    ensures NoDuplicates(FirstOccurrences(s))
    ensures forall d :: d in FirstOccurrences(s) <==> d in s
  {
    if s != [] {
      assert s == s[..|s| - 1] + [s[|s| - 1]];
      FirstOccurrencesExact(s[..|s| - 1]);
    }
  }

  lemma FirstOccurrencesSnoc(s: seq<Name>, n: Name)
    ensures FirstOccurrences(s + [n]) ==
            FirstOccurrences(s) + (if n in FirstOccurrences(s) then [] else [n])
  {
    assert (s + [n])[..|s|] == s;
  }

  /** Gathers a container's dependencies in list order without repeats. */
  method GetAllDependencies(c: ContainerWithDeps) returns (deps: seq<Name>)
    ensures deps == FirstOccurrences(c.links + c.dependsOn + c.networkDeps)
    ensures forall d :: d in deps <==> DependsOn(c, d)
  {
    var groups := [c.links, c.dependsOn, c.networkDeps];
    ReadAll(groups, c);
    FirstOccurrencesExact(c.links + c.dependsOn + c.networkDeps);
    hide *;
    var seen: set<Name> := {};
    deps := [];
    for g := 0 to |groups|
      invariant deps == FirstOccurrences(Flatten(groups[..g])) && SameElements(seen, deps)
    {
      ReadGroup(groups, g);
      var group := groups[g];
      for i := 0 to |group|
        invariant deps == FirstOccurrences(ReadSoFar(groups, g, i)) && SameElements(seen, deps)
      {
        ReadNext(groups, g, i);
        SameElementsSnoc(seen, deps, group[i]);
        if group[i] !in seen {
          seen := seen + {group[i]};
          deps := deps + [group[i]];
        }
      }
    }
  }

  ghost function Flatten(groups: seq<seq<Name>>): seq<Name> {
    if groups == [] then [] else Flatten(groups[..|groups| - 1]) + groups[|groups| - 1]
  }

  ghost function ReadSoFar(groups: seq<seq<Name>>, g: nat, i: nat): seq<Name>
    requires g < |groups| && i <= |groups[g]|
  {
    Flatten(groups[..g]) + groups[g][..i]
  }

  lemma ReadGroup(groups: seq<seq<Name>>, g: nat)
    requires g < |groups|
    ensures ReadSoFar(groups, g, 0) == Flatten(groups[..g])
    ensures ReadSoFar(groups, g, |groups[g]|) == Flatten(groups[..g + 1])
  {
    assert groups[..g + 1][..g] == groups[..g];
    assert groups[g][..|groups[g]|] == groups[g];
  }

  lemma ReadNext(groups: seq<seq<Name>>, g: nat, i: nat)
    requires g < |groups| && i < |groups[g]|
    ensures var deps := FirstOccurrences(ReadSoFar(groups, g, i));
            FirstOccurrences(ReadSoFar(groups, g, i + 1)) ==
            if groups[g][i] in deps then deps else deps + [groups[g][i]]
  {
    FirstOccurrencesSnoc(ReadSoFar(groups, g, i), groups[g][i]);
    assert ReadSoFar(groups, g, i + 1) == ReadSoFar(groups, g, i) + [groups[g][i]];
  }

  lemma ReadAll(groups: seq<seq<Name>>, c: ContainerWithDeps)
    requires groups == [c.links, c.dependsOn, c.networkDeps]
    ensures Flatten(groups[..3]) == c.links + c.dependsOn + c.networkDeps
    ensures FirstOccurrences(Flatten(groups[..0])) == [] && SameElements({}, [])
    ensures forall d :: d in c.links + c.dependsOn + c.networkDeps <==> DependsOn(c, d)
  {
    var one, two := [c.links], [c.links, c.dependsOn];
    assert Flatten(one) == c.links by { assert one[..0] == []; }
    assert Flatten(two) == c.links + c.dependsOn by { assert two[..1] == one; }
    assert groups[..3] == groups && groups[..2] == two;
  }

  ghost predicate SameElements(seen: set<Name>, deps: seq<Name>) {
    forall d :: d in seen <==> d in deps
  }

  lemma SameElementsSnoc(seen: set<Name>, deps: seq<Name>, d: Name)
    requires SameElements(seen, deps)
    ensures d in seen <==> d in deps
    ensures SameElements(seen + {d}, deps + [d])
  {
  }

  function IndexOf(s: seq<Name>, n: Name): (r: int)
    ensures r < |s|
    ensures r >= 0 ==> s[r] == n && n !in s[..r]
    ensures r < 0 ==> r == -1 && n !in s
  {
    if s == [] then -1
    else if s[0] == n then 0
    else
      var r := IndexOf(s[1..], n);
      if r < 0 then -1 else
        assert s[..r + 1] == [s[0]] + s[1..][..r];
        r + 1
  }

  /** Each listed name is mapped to the last position it is listed at. */
  ghost predicate IndexesNames(cs: seq<ContainerWithDeps>, index: map<Name, nat>) {
    && index.Keys == NameSet(cs)
    && (forall n :: n in index ==> index[n] < |cs| && cs[index[n]].name == n)
    && (forall n, k :: n in index && index[n] < k < |cs| ==> cs[k].name != n)
  }

  lemma IndexesSnoc(cs: seq<ContainerWithDeps>, index: map<Name, nat>, c: ContainerWithDeps)
    requires IndexesNames(cs, index)
    ensures IndexesNames(cs + [c], index[c.name := |cs|])
  {
    NameSetSnoc(cs, c);
    var more := index[c.name := |cs|];
    forall n | n in more ensures more[n] <= |cs| && (cs + [c])[more[n]].name == n {
      if n != c.name { assert n in index && (cs + [c])[index[n]] == cs[index[n]]; }
    }
    forall n, k | n in more && more[n] < k < |cs| + 1 ensures (cs + [c])[k].name != n {
      assert n != c.name && n in index;
    }
  }

  /** What every step of the sort keeps: the visited names are those listed so far, none of them is
      still being visited, and the list so far is in dependency order. */
  ghost predicate SortState(cs: seq<ContainerWithDeps>, visited: set<Name>, marked: set<Name>,
                            sorted: seq<ContainerWithDeps>)
  {
    && visited == NameSet(sorted)
    && visited !! marked
    && UniqueNames(sorted)
    && (forall c :: c in sorted ==> c in cs)
    && DependenciesFirst(cs, sorted)
  }

  /** The path of an ongoing visit is a simple walk made of exactly the marked names. */
  ghost predicate OnPath(cs: seq<ContainerWithDeps>, marked: set<Name>, path: seq<Name>) {
    && NoDuplicates(path)
    && (forall n :: n in path <==> n in marked)
    && marked <= NameSet(cs)
    && (path != [] ==> IsWalk(cs, path))
  }

  /** Sorts containers so that dependencies come first; a nil-able error carries the cycle found. */
  class ContainerSorter {
    const containers: seq<ContainerWithDeps>
    const nameToIndex: map<Name, nat>
    var visited: set<Name>
    var marked: set<Name>
    var sorted: seq<ContainerWithDeps>

    ghost predicate Valid()
      reads this
      ensures Valid() <==> IndexesNames(containers, nameToIndex) && SortState(containers, visited, marked, sorted)
    {
      IndexesNames(containers, nameToIndex) && SortState(containers, visited, marked, sorted)
    }

    constructor (containers: seq<ContainerWithDeps>)
      ensures Valid() && OnPath(containers, {}, [])
      ensures this.containers == containers
      ensures sorted == [] && visited == {} && marked == {}
    {
      assert IndexesNames([], map[]) && SortState(containers, {}, {}, []) && OnPath(containers, {}, []);
      hide IndexesNames, SortState;
      var index: map<Name, nat> := map[];
      for i := 0 to |containers|
        invariant IndexesNames(containers[..i], index)
      {
        IndexesSnoc(containers[..i], index, containers[i]);
        assert containers[..i + 1] == containers[..i] + [containers[i]];
        index := index[containers[i].name := i];
      }
      assert containers[..|containers|] == containers;
      this.containers := containers;
      this.nameToIndex := index;
      this.visited, this.marked, this.sorted := {}, {}, [];
    }

    method Visit(c: ContainerWithDeps, path: seq<Name>) returns (cycle: Option<seq<Name>>)
      requires Valid() && OnPath(containers, marked, path) && c in containers
      requires path != [] ==> HasEdge(containers, path[|path| - 1], c.name)
      modifies this
      ensures Valid() && marked == old(marked)
      ensures old(sorted) <= sorted && old(visited) <= visited
      ensures AllReached(containers, c.name, sorted, |old(sorted)|)
      ensures match cycle
              case Some(p) => IsCycle(containers, p)
              case None =>
                && c.name in visited
                && if c.name in old(visited) then sorted == old(sorted) else sorted[|sorted| - 1] == c
      decreases NameSet(containers) - marked, 0
    {
      VisitedNotMarked(containers, visited, marked, sorted);
      EnterPath(containers, visited, marked, sorted, path, c);
      hide *;
      if c.name in marked {
        var closed := path + [c.name];
        var start := IndexOf(closed, c.name);
        if start >= 0 {
          closed := closed[start..];
        }
        return Some(closed);
      }
      if c.name in visited {
        return None;
      }
      marked := marked + {c.name};
      cycle := VisitDependencies(c, path + [c.name]);
      if cycle.Some? {
        LeavePath(containers, visited, marked, sorted, c.name);
        marked := marked - {c.name};
        return;
      }
      AllReachedSelf(containers, c, sorted, |old(sorted)|);
      FinishVisit(containers, visited, marked, sorted, c);
      visited := visited + {c.name};
      sorted := sorted + [c];
      marked := marked - {c.name};
    }

    /** The loop of a visit: every listed dependency in turn, until one closes a cycle. */
    method VisitDependencies(c: ContainerWithDeps, path: seq<Name>) returns (cycle: Option<seq<Name>>)
      requires Valid() && OnPath(containers, marked, path) && c in containers
      requires path != [] && path[|path| - 1] == c.name && c.name in marked
      modifies this
      ensures Valid() && marked == old(marked)
      ensures old(sorted) <= sorted && old(visited) <= visited
      ensures AllReached(containers, c.name, sorted, |old(sorted)|)
      ensures match cycle
              case Some(p) => IsCycle(containers, p)
              case None => DependenciesIn(containers, c, visited)
      decreases NameSet(containers) - marked, 1
    {
      IndexesListed(containers, nameToIndex);
      hide *;
      NothingReached(containers, c.name, sorted);
      var deps := GetAllDependencies(c);
      NoneSeen(containers, deps, visited);
      for i := 0 to |deps|
        invariant Valid() && marked == old(marked)
        invariant old(sorted) <= sorted && old(visited) <= visited
        invariant AllSeen(containers, deps, i, visited)
        invariant AllReached(containers, c.name, sorted, |old(sorted)|)
      {
        if deps[i] in nameToIndex {
          ghost var before, seen := sorted, visited;
          EdgeFrom(containers, c, deps[i]);
          cycle := Visit(containers[nameToIndex[deps[i]]], path);
          AllReachedStep(containers, c.name, deps[i], before, sorted, |old(sorted)|);
          if cycle.Some? {
            return;
          }
          MoreSeen(containers, deps, i, seen, visited);
        } else {
          MoreSeen(containers, deps, i, visited, visited);
        }
      }
      DependenciesVisited(containers, c, deps, visited);
      return None;
    }

    /** Sorts, or reports a simple dependency cycle. Nothing is asked of the input: with repeated
        names the last entry of a name stands for it, and the first two clauses still hold. */
    method Sort() returns (result: seq<ContainerWithDeps>, cycle: Option<seq<Name>>)
      requires Valid() && marked == {} && visited == {} && sorted == []
      modifies this
      ensures Valid() && marked == {}
      ensures cycle.Some? ==> IsCycle(containers, cycle.value) && !Acyclic(containers)
      ensures cycle.None? ==> result == sorted && NameSet(result) == NameSet(containers)
      ensures cycle.None? ==> UniqueNames(result) && DependenciesFirst(containers, result)
      ensures cycle.None? ==> MovesAreForced(containers, |containers|, result)
      ensures cycle.None? && UniqueNames(containers) ==>
                multiset(result) == multiset(containers) && Acyclic(containers)
    {
      hide DependenciesFirst, DependenciesIn, UniqueNames, NameSet, IsWalk, IsCycle, HasEdge, Reaches, Acyclic;
      for i := 0 to |containers|
        invariant Valid() && marked == {}
        invariant forall k :: 0 <= k < i ==> containers[k].name in visited
        invariant forall a :: 0 <= a < |sorted| ==> ReachedFromPrefix(containers, i, sorted[a].name)
        invariant MovesAreForced(containers, i, sorted)
      {
        ghost var before := sorted;
        if containers[i].name !in visited {
          assert OnPath(containers, marked, []);
          var err := Visit(containers[i], []);
          if err.Some? {
            CycleRefutesAcyclic(containers, err.value);
            return [], err;
          }
        }
        forall a | 0 <= a < |sorted|
          ensures ReachedFromPrefix(containers, i + 1, sorted[a].name)
        {
          if a < |before| {
            assert sorted[a] == before[a];
            assert ReachedFromPrefix(containers, i, sorted[a].name);
          } else {
            assert Reaches(containers, containers[i].name, sorted[a].name);
          }
        }
        MovesStayForced(containers, i, before, sorted);
      }
      NameSetCovered(containers, sorted);
      if UniqueNames(containers) {
        SameNamesSameElements(containers, sorted);
        OrderedIsAcyclic(containers, sorted);
      }
      return sorted, None;
    }
  }

  // ---------- Lemmas behind the sorter ----------

  lemma NameSetSnoc(cs: seq<ContainerWithDeps>, c: ContainerWithDeps)
    ensures NameSet(cs + [c]) == NameSet(cs) + {c.name}
  {
    var more := cs + [c];
    forall n | n in NameSet(cs) + {c.name} ensures n in NameSet(more) {
      if n in NameSet(cs) {
        var i :| 0 <= i < |cs| && cs[i].name == n;
        assert more[i].name == n;
      } else {
        assert more[|cs|].name == n;
      }
    }
  }

  lemma ClosedPathIsCycle(cs: seq<ContainerWithDeps>, path: seq<Name>, n: Name)
    requires NoDuplicates(path) && n in path && IsWalk(cs, path)
    requires HasEdge(cs, path[|path| - 1], n)
    ensures var closed := path + [n];
            var start := IndexOf(closed, n);
            start >= 0 && IsCycle(cs, closed[start..])
  {
    var closed := path + [n];
    var start := IndexOf(closed, n);
    assert closed[|path|] == n;
    assert closed[..|path|] == path;
    var p := closed[start..];
    forall i | 0 <= i < |p| - 1 ensures HasEdge(cs, p[i], p[i + 1]) {
      if start + i + 1 < |path| {
        assert p[i] == path[start + i] && p[i + 1] == path[start + i + 1];
      }
    }
    assert p[..|p| - 1] == path[start..];
  }

  lemma ExtendPath(cs: seq<ContainerWithDeps>, path: seq<Name>, n: Name)
    requires NoDuplicates(path) && n !in path
    requires path != [] ==> IsWalk(cs, path) && HasEdge(cs, path[|path| - 1], n)
    ensures IsWalk(cs, path + [n]) && NoDuplicates(path + [n])
  {
    var longer := path + [n];
    forall i | 0 <= i < |longer| - 1 ensures HasEdge(cs, longer[i], longer[i + 1]) {
      if i + 1 < |path| { assert longer[i] == path[i] && longer[i + 1] == path[i + 1]; }
    }
  }

  /** The first `n` dependencies that are listed at all have been visited. */
  ghost predicate AllSeen(cs: seq<ContainerWithDeps>, deps: seq<Name>, n: nat, visited: set<Name>) {
    n <= |deps| && forall k :: 0 <= k < n && deps[k] in NameSet(cs) ==> deps[k] in visited
  }

  lemma NoneSeen(cs: seq<ContainerWithDeps>, deps: seq<Name>, visited: set<Name>)
    ensures AllSeen(cs, deps, 0, visited)
  {
  }

  lemma MoreSeen(cs: seq<ContainerWithDeps>, deps: seq<Name>, i: nat, before: set<Name>, visited: set<Name>)
    requires AllSeen(cs, deps, i, before) && i < |deps| && before <= visited
    requires deps[i] in NameSet(cs) ==> deps[i] in visited
    ensures AllSeen(cs, deps, i + 1, visited)
  {
  }

  lemma DependenciesVisited(cs: seq<ContainerWithDeps>, c: ContainerWithDeps, deps: seq<Name>, done: set<Name>)
    requires forall d :: d in deps <==> DependsOn(c, d)
    requires AllSeen(cs, deps, |deps|, done)
    ensures DependenciesIn(cs, c, done)
  {
    forall d | d in NameSet(cs) && DependsOn(c, d) ensures d in done {
      var k :| 0 <= k < |deps| && deps[k] == d;
    }
  }

  lemma AppendKeepsOrder(cs: seq<ContainerWithDeps>, sorted: seq<ContainerWithDeps>, c: ContainerWithDeps)
    requires UniqueNames(sorted) && c.name !in NameSet(sorted)
    requires DependenciesFirst(cs, sorted) && DependenciesIn(cs, c, NameSet(sorted))
    ensures UniqueNames(sorted + [c]) && DependenciesFirst(cs, sorted + [c])
  {
    var more := sorted + [c];
    forall i | 0 <= i < |more| ensures DependenciesIn(cs, more[i], NameSet(more[..i])) {
      assert more[..i] == sorted[..i];
      if i == |sorted| { assert sorted[..i] == sorted; }
    }
  }

  lemma IndexesListed(cs: seq<ContainerWithDeps>, index: map<Name, nat>)
    requires IndexesNames(cs, index)
    ensures index.Keys == NameSet(cs)
    ensures forall n :: n in index ==> index[n] < |cs| && cs[index[n]] in cs && cs[index[n]].name == n
  {
  }

  lemma VisitedNotMarked(cs: seq<ContainerWithDeps>, visited: set<Name>, marked: set<Name>,
                         sorted: seq<ContainerWithDeps>)
    requires SortState(cs, visited, marked, sorted)
    ensures visited !! marked
  {
  }

  /** What a visit meets: a marked name closes a cycle, a fresh one extends the path. */
  lemma EnterPath(cs: seq<ContainerWithDeps>, visited: set<Name>, marked: set<Name>,
                  sorted: seq<ContainerWithDeps>, path: seq<Name>, c: ContainerWithDeps)
    requires SortState(cs, visited, marked, sorted) && OnPath(cs, marked, path) && c in cs
    requires path != [] ==> HasEdge(cs, path[|path| - 1], c.name)
    ensures c.name in NameSet(cs)
    ensures AllReached(cs, c.name, sorted, |sorted|)
    ensures c.name in marked ==>
              var closed := path + [c.name];
              var start := IndexOf(closed, c.name);
              start >= 0 && IsCycle(cs, closed[start..])
    ensures c.name !in marked && c.name !in visited ==>
              SortState(cs, visited, marked + {c.name}, sorted) &&
              OnPath(cs, marked + {c.name}, path + [c.name])
  {
    if c.name in marked {
      ClosedPathIsCycle(cs, path, c.name);
    } else {
      ExtendPath(cs, path, c.name);
    }
  }

  /** Leaving a container keeps the state, whether or not its visit succeeded. */
  lemma LeavePath(cs: seq<ContainerWithDeps>, visited: set<Name>, marked: set<Name>,
                  sorted: seq<ContainerWithDeps>, n: Name)
    requires SortState(cs, visited, marked, sorted)
    ensures SortState(cs, visited, marked - {n}, sorted)
  {
  }

  lemma FinishVisit(cs: seq<ContainerWithDeps>, visited: set<Name>, marked: set<Name>,
                    sorted: seq<ContainerWithDeps>, c: ContainerWithDeps)
    requires SortState(cs, visited, marked, sorted) && c in cs && c.name in marked
    requires DependenciesIn(cs, c, visited)
    ensures SortState(cs, visited + {c.name}, marked - {c.name}, sorted + [c])
    ensures c.name !in visited
  {
    NameSetSnoc(sorted, c);
    AppendKeepsOrder(cs, sorted, c);
  }

  lemma EdgeFrom(cs: seq<ContainerWithDeps>, c: ContainerWithDeps, dep: Name)
    requires c in cs && DependsOn(c, dep) && dep in NameSet(cs)
    ensures HasEdge(cs, c.name, dep)
  {
  }

  lemma MovesStayForced(cs: seq<ContainerWithDeps>, i: nat, before: seq<ContainerWithDeps>,
                        sorted: seq<ContainerWithDeps>)
    requires i < |cs| && before <= sorted && UniqueNames(sorted)
    requires forall k :: 0 <= k < i ==> cs[k].name in NameSet(before)
    requires MovesAreForced(cs, i, before)
    requires forall a :: 0 <= a < |sorted| ==> ReachedFromPrefix(cs, i + 1, sorted[a].name)
    ensures MovesAreForced(cs, i + 1, sorted)
  {
    hide ReachedFromPrefix;
    forall a, b, k | 0 <= a < b < |sorted| && 0 <= k < i + 1 && sorted[b].name == cs[k].name
      ensures ReachedFromPrefix(cs, k + 1, sorted[a].name)
    {
      if k < i {
        var m :| 0 <= m < |before| && before[m].name == cs[k].name;
        assert sorted[m] == before[m];
        assert b == m && sorted[a] == before[a];
      }
    }
  }

  lemma CycleRefutesAcyclic(cs: seq<ContainerWithDeps>, p: seq<Name>)
    requires IsCycle(cs, p)
    ensures !Acyclic(cs)
  {
  }

  lemma NameSetCovered(cs: seq<ContainerWithDeps>, sorted: seq<ContainerWithDeps>)
    requires forall c :: c in sorted ==> c in cs
    requires forall k :: 0 <= k < |cs| ==> cs[k].name in NameSet(sorted)
    ensures NameSet(sorted) == NameSet(cs)
  {
    forall n | n in NameSet(sorted) ensures n in NameSet(cs) {
      var i :| 0 <= i < |sorted| && sorted[i].name == n;
      assert sorted[i] in cs;
    }
  }

  /** Sequences with unique names, the same name set and one inside the other are permutations. */
  lemma SameNamesSameElements(cs: seq<ContainerWithDeps>, sorted: seq<ContainerWithDeps>)
    requires UniqueNames(cs) && UniqueNames(sorted) && NameSet(sorted) == NameSet(cs)
    requires forall c :: c in sorted ==> c in cs
    ensures multiset(sorted) == multiset(cs)
  {
    forall c ensures multiset(sorted)[c] == multiset(cs)[c] {
      UniqueNamesCountOne(cs, c);
      UniqueNamesCountOne(sorted, c);
      if c in cs {
        assert c.name in NameSet(cs);
        var i :| 0 <= i < |sorted| && sorted[i].name == c.name;
        assert sorted[i] in cs;
        assert sorted[i] == c;
      }
    }
  }

  lemma {:induction false} UniqueNamesCountOne(cs: seq<ContainerWithDeps>, c: ContainerWithDeps)
    requires UniqueNames(cs)
    ensures multiset(cs)[c] == if c in cs then 1 else 0
  {
    if cs != [] {
      var rest := cs[..|cs| - 1];
      assert cs == rest + [cs[|cs| - 1]];
      UniqueNamesCountOne(rest, c);
    }
  }

  /** Along a walk of an ordered list every step moves strictly towards the front. */
  lemma {:induction false} WalkGoesBack(cs: seq<ContainerWithDeps>, sorted: seq<ContainerWithDeps>,
                                        p: seq<Name>, i: nat, j: nat)
    requires UniqueNames(cs) && UniqueNames(sorted) && NameSet(sorted) == NameSet(cs)
    requires forall c :: c in sorted ==> c in cs
    requires DependenciesFirst(cs, sorted) && IsWalk(cs, p) && |p| >= 2
    requires i < |sorted| && sorted[i].name == p[0]
    requires j < |sorted| && sorted[j].name == p[|p| - 1]
    ensures j < i
  {
    assert HasEdge(cs, p[0], p[1]);
    var k :| 0 <= k < |cs| && cs[k].name == p[0] && DependsOn(cs[k], p[1]);
    assert sorted[i] in cs;
    assert sorted[i] == cs[k];
    assert DependenciesIn(cs, sorted[i], NameSet(sorted[..i]));
    var m :| 0 <= m < i && sorted[..i][m].name == p[1];
    if |p| == 2 {
      assert m == j;
    } else {
      assert IsWalk(cs, p[1..]) by {
        forall q | 0 <= q < |p[1..]| - 1 ensures HasEdge(cs, p[1..][q], p[1..][q + 1]) {
          assert HasEdge(cs, p[q + 1], p[q + 2]);
        }
      }
      WalkGoesBack(cs, sorted, p[1..], m, j);
    }
  }

  lemma OrderedIsAcyclic(cs: seq<ContainerWithDeps>, sorted: seq<ContainerWithDeps>)
    requires UniqueNames(cs) && UniqueNames(sorted) && NameSet(sorted) == NameSet(cs)
    requires forall c :: c in sorted ==> c in cs
    requires DependenciesFirst(cs, sorted)
    ensures Acyclic(cs)
  {
    forall p | |p| >= 2 && IsWalk(cs, p) ensures p[0] != p[|p| - 1] {
      assert HasEdge(cs, p[0], p[1]);
      assert p[0] in NameSet(cs);
      var i :| 0 <= i < |sorted| && sorted[i].name == p[0];
      if p[0] == p[|p| - 1] {
        WalkGoesBack(cs, sorted, p, i, i);
      }
    }
  }

  // ---------- Sorting what is sorted ----------

  lemma ReasonToMove(cs: seq<ContainerWithDeps>, sorted: seq<ContainerWithDeps>, a: nat, b: nat, kb: nat)
    returns (j: nat, p: seq<Name>)
    requires MovesAreForced(cs, |cs|, sorted) && a < b < |sorted| && kb < |cs| && sorted[b].name == cs[kb].name
    ensures j <= kb && IsWalk(cs, p) && p != [] && p[0] == cs[j].name && p[|p| - 1] == sorted[a].name
  {
    assert ReachedFromPrefix(cs, kb + 1, sorted[a].name);
    hide MovesAreForced;
    j :| 0 <= j < kb + 1 && Reaches(cs, cs[j].name, sorted[a].name);
    p :| IsWalk(cs, p) && p[0] == cs[j].name && p[|p| - 1] == sorted[a].name;
  }

  /** In an ordered list, forced moves never put a later container ahead of an earlier one. */
  lemma NothingOvertakes(cs: seq<ContainerWithDeps>, sorted: seq<ContainerWithDeps>, a: nat, b: nat, ka: nat, kb: nat)
    requires UniqueNames(cs) && DependenciesFirst(cs, cs)
    requires UniqueNames(sorted) && MovesAreForced(cs, |cs|, sorted)
    requires a < b < |sorted| && ka < |cs| && kb < |cs|
    requires sorted[a].name == cs[ka].name && sorted[b].name == cs[kb].name
    ensures ka < kb
  {
    var j, p := ReasonToMove(cs, sorted, a, b, kb);
    hide DependenciesFirst, MovesAreForced, IsWalk;
    assert sorted[a].name != sorted[b].name;
    if |p| >= 2 {
      WalkGoesBack(cs, cs, p, j, ka);
    } else {
      assert cs[j].name == cs[ka].name;
    }
  }

  lemma {:induction false} IncreasingCounts(index: seq<nat>, n: nat, i: nat)
    requires |index| == n && i < n
    requires forall a, b :: 0 <= a < b < n ==> index[a] < index[b]
    requires forall a :: 0 <= a < n ==> index[a] < n
    ensures index[i] == i
  {
    AtLeast(index, i);
    AtMost(index, n, i);
  }

  lemma {:induction false} AtLeast(index: seq<nat>, i: nat)
    requires i < |index| && forall a, b :: 0 <= a < b < |index| ==> index[a] < index[b]
    ensures index[i] >= i
  {
    if i > 0 { AtLeast(index, i - 1); }
  }

  lemma {:induction false} AtMost(index: seq<nat>, n: nat, i: nat)
    requires |index| == n && i < n && forall a, b :: 0 <= a < b < n ==> index[a] < index[b]
    requires forall a :: 0 <= a < n ==> index[a] < n
    ensures index[i] <= i
    decreases n - i
  {
    if i + 1 < n { AtMost(index, n, i + 1); }
  }

  /** Containers already listed after their dependencies come out as they went in. */
  lemma OrderedIsKept(cs: seq<ContainerWithDeps>, sorted: seq<ContainerWithDeps>)
    requires UniqueNames(cs) && DependenciesFirst(cs, cs)
    requires UniqueNames(sorted) && multiset(sorted) == multiset(cs) && MovesAreForced(cs, |cs|, sorted)
    ensures sorted == cs
  {
    var index := PositionsIn(cs, sorted);
    hide *;
    NothingMoves(cs, sorted, index);
  }

  lemma NothingMoves(cs: seq<ContainerWithDeps>, sorted: seq<ContainerWithDeps>, index: seq<nat>)
    requires UniqueNames(cs) && DependenciesFirst(cs, cs)
    requires UniqueNames(sorted) && MovesAreForced(cs, |cs|, sorted)
    requires |index| == |sorted| == |cs|
    requires forall a :: 0 <= a < |sorted| ==> index[a] < |cs| && cs[index[a]] == sorted[a]
    ensures sorted == cs
  {
    hide *;
    forall a, b | 0 <= a < b < |sorted| ensures index[a] < index[b] {
      NothingOvertakes(cs, sorted, a, b, index[a], index[b]);
    }
    forall i | 0 <= i < |sorted| ensures sorted[i] == cs[i] {
      IncreasingCounts(index, |cs|, i);
    }
  }

  /** Where each container of a permutation was listed. */
  lemma PositionsIn(cs: seq<ContainerWithDeps>, sorted: seq<ContainerWithDeps>) returns (index: seq<nat>)
    requires multiset(sorted) == multiset(cs)
    ensures |index| == |sorted| == |cs| && forall a :: 0 <= a < |sorted| ==>
              index[a] < |cs| && cs[index[a]] == sorted[a]
  {
    assert |sorted| == |multiset(sorted)| == |cs|;
    index := [];
    for i := 0 to |sorted|
      invariant |index| == i && forall a :: 0 <= a < i ==> index[a] < |cs| && cs[index[a]] == sorted[a]
    {
      assert sorted[i] in multiset(cs);
      var k :| 0 <= k < |cs| && cs[k] == sorted[i];
      index := index + [k];
    }
  }

  /** Sorting a sorted list changes nothing. */
  lemma SortIsIdempotent(cs: seq<ContainerWithDeps>, sorted: seq<ContainerWithDeps>, again: seq<ContainerWithDeps>)
    requires UniqueNames(sorted) && NameSet(sorted) == NameSet(cs) && DependenciesFirst(cs, sorted)
    requires UniqueNames(again) && multiset(again) == multiset(sorted) && MovesAreForced(sorted, |sorted|, again)
    ensures again == sorted
  {
    assert DependenciesFirst(sorted, sorted) by {
      forall i | 0 <= i < |sorted| ensures DependenciesIn(sorted, sorted[i], NameSet(sorted[..i])) {
        assert DependenciesIn(cs, sorted[i], NameSet(sorted[..i]));
      }
    }
    OrderedIsKept(sorted, again);
  }
}
