/**
 A run that succeeds and yet leaves its host unsettled. One container runs image `ia`, which the request
 moves to `b`; but `b` names `ib`, which the request moves on to `c`.
 */
module ChainedKeys {
  import opened Wrappers
  import opened DockerTypes
  import opened Strings
  import opened Settings
  import opened Deps
  import opened Host
  import opened Matching
  import opened RestartTypes
  import opened Results
  import opened RestartScanning
  import opened RestartOrder
  import opened ComposeGroups
  import opened Recreate
  import opened StandalonePhase
  import opened RestartRunning
  import opened RestartService
  import opened Convergence

  function CFG(): UpdaterConfig {
    var none := (labels: Labels) => false;
    UpdaterConfig(LabelPolicy(none, none, none, none, none), "", false, false,
                  (s: string) => s, (s: string) => false, (labels: Labels, s: string) => labels)
  }

  const REQUEST: Request := Request(Updates(map["ia" := "b", "ib" := "c"], map[]), {}, "")
  const IMAGES: map<string, string> :=
    map["a" := "ia", "b" := "ib", "c" := "ic", "ia" := "ia", "ib" := "ib", "ic" := "ic"]

  /** The container, running from a reference and the image it names. */
  function Web(ref: string, imageID: string): Container {
    Container.Container("web", Config(ref, map[]), imageID, true, None, map[])
  }

  const OLD: Container := Web("a", "ia")
  const NEW: Container := Web("b", "ib")
  const LISTED: Summary := SummaryOf("x", OLD)
  const FOUND: View := View(map["x" := OLD], IMAGES, true)
  const SCANNED: Plan := Plan(LISTED, None, "b", "ia", true, false)
  const PLANS: map<Name, Plan> := map["web" := SCANNED.(inspect := Some(InspectOf(OLD)))]

  function Candidate(): ContainerWithDeps { WithDependencies("web", LISTED, InspectOf(OLD)) }

  function Found(): Discovery {
    Discovery([LISTED], [Unresolved(LISTED)], map["web" := SCANNED], {"web"}, [Candidate()], PLANS, {"web"}, PLANS,
              [Candidate()])
  }

  function Log(): RunLog {
    RunLog(map[], [Candidate()], [Standalone], PLANS, true, [],
           [[Op.Stop("web", "x"), Op.Remove("web", "x", false)]],
           [[Op.Create("web", "web", "b", Some("y")), Op.Start("web", "y")]],
           ["y"], [], map["x" := OLD], {"x"}, map["y" := NEW])
  }

  function Outcome(): seq<ResourceResult> { [AppliedResult(CFG(), Candidate(), PLANS["web"])] }

  /** The run comes through, with every read reliable, and replaces its one candidate without a failure; its
      plan does not stay put, and the replacement is due to move again. */
  lemma ChainedKeysMoveOn()
    ensures var run := RunRecord(FOUND, Found(), Log());
      && RunHolds(CFG(), map[], REQUEST, true, run, map["y" := NEW], Outcome())
      && AllStandalone(run.log.kinds) && NoneFailed(Outcome()) && RefreshKeepsPolicy(CFG())
      && !StaysPut(CFG(), FOUND, REQUEST, PLANS["web"])
      && !NothingDue(map["y" := NEW], IMAGES, CFG(), REQUEST)
  {
    var run := RunRecord(FOUND, Found(), Log());
    IsDiscovered();
    IsExecuted();
    IsReported();
    DueAgain();
    Succeeds();
    hide *;
    Holds(CFG(), map[], REQUEST, true, run, map["y" := NEW], Outcome());
  }

  lemma Succeeds()
    ensures AllStandalone(Log().kinds) && NoneFailed(Outcome()) && RefreshKeepsPolicy(CFG())
    ensures FOUND.containers == Log().found && FOUND.images == IMAGES && Log().left == map["y" := NEW]
    ensures Log().recentAPI
  {
  }

  lemma ProperSetting()
    ensures ProperView(FOUND)
    ensures ContainerSummaryName(LISTED) == "web" == ContainerName(InspectOf(OLD))
    ensures TrimPrefix(LISTED.names[0], "/") == "web" && |LISTED.names| == 1
  {
    SolidIDs();
    assert TrimPrefix("/" + "web", "/") == "web";
    hide TrimSpace;
  }

  lemma SolidIDs()
    ensures TrimSpace("ia") == "ia" && TrimSpace("ib") == "ib" && TrimSpace("ic") == "ic"
  {
  }

  lemma IsDiscovered()
    ensures Discovered(FOUND, CFG(), REQUEST, Found())
  {
    ProperSetting();
    IsListed();
    IsScanned();
    IsResolved();
    IsOrdered();
    hide ProperView, ListsRunning, Eligible, ScanFits, Resolved, IsRestartClosure, Candidates, IsBaseOrder, UniqueNames,
      Candidate, CFG;
    assert Found().marked - Found().initial == {};
    assert PLANS == ImplicitPlans(PLANS, {});
  }

  lemma IsListed()
    ensures ListsRunning(FOUND.containers, [LISTED])
    ensures Eligible(CFG(), REQUEST.excluded, REQUEST.proxyName, [LISTED]) == [LISTED]
  {
    ProperSetting();
    hide TrimPrefix, TrimSpace, ProperView, ContainerSummaryName;
    assert [LISTED][0].id == "x" && [LISTED][..0] == [];
    assert !ShouldSkipSummary(CFG(), {}, "", LISTED);
  }

  lemma IsScanned()
    ensures ScanFits(FOUND, CFG(), REQUEST.updates, [LISTED], map["web" := SCANNED], {"web"}, [Unresolved(LISTED)])
  {
    ProperSetting();
    DueIsNext("x", OLD, "b", "ib");
    hide TrimPrefix, TrimSpace, ProperView, ContainerSummaryName, ExplicitRef, CFG;
    assert PlanFits(FOUND, CFG(), REQUEST.updates, "web", SCANNED);
    assert [Unresolved(LISTED)][0].name == "web";
    assert NameSet([Unresolved(LISTED)]) == {"web"};
  }

  /** A container on `ia` or `ib` is due to follow its image ID. */
  lemma DueIsNext(id: string, c: Container, next: string, nextID: string)
    requires (c.imageID == "ia" && next == "b" && nextID == "ib") ||
               (c.imageID == "ib" && next == "c" && nextID == "ic")
    ensures ExplicitRef(CFG(), IMAGES, SummaryOf(id, c), InspectOf(c), REQUEST.updates) == next
    ensures DueRef(CFG(), IMAGES, REQUEST, id, c) == next && ProperID(c.imageID)
  {
    SolidIDs();
    hide TrimSpace, ResolveImageRefMatch;
    DueByImageID(CFG(), IMAGES, REQUEST, id, c);
  }

  lemma IsResolved()
    ensures Resolved(FOUND, [Unresolved(LISTED)], [Candidate()], map["web" := SCANNED], PLANS, 1)
  {
    ProperSetting();
    hide TrimPrefix, TrimSpace, ProperView, ContainerSummaryName;
    assert ResolvesTo(FOUND, Unresolved(LISTED), Candidate());
    assert PlanResolvesTo(FOUND.containers, SCANNED, PLANS["web"]);
  }

  lemma IsOrdered()
    ensures IsRestartClosure([Candidate()], {"web"}, {"web"}) && Candidates([Candidate()], {"web"}) == [Candidate()]
    ensures UniqueNames([Candidate()]) && IsBaseOrder([Candidate()], [Candidate()])
    ensures Sorted(CFG(), Found()) == [Candidate()]
  {
    ShortIsPartitioned(CFG(), PLANS, [Candidate()]);
    AloneInOrder(Candidate());
    hide Partition, CFG, IsBaseOrder, IsRestartClosure;
  }

  lemma AloneInOrder(c: ContainerWithDeps)
    requires c.links == c.dependsOn == c.networkDeps == []
    ensures IsRestartClosure([c], {c.name}, {c.name}) && Candidates([c], {c.name}) == [c]
    ensures UniqueNames([c]) && IsBaseOrder([c], [c])
  {
    assert [c][..0] == [];
    assert DependenciesFirst([c], [c]) && MovesAreForced([c], 1, [c]) by { hide ReachedFromPrefix; }
    hide Acyclic, DependenciesFirst, MovesAreForced;
  }

  lemma IsExecuted()
    ensures Executed(CFG(), map[], Found(), Log(), Outcome())
  {
    var log := Log();
    IsOrdered();
    NoGroupsFit(Found().plans, [Candidate()]);
    IsRecreated();
    CallsAreMade();
    hide IsBaseOrder, Candidates, IsRestartClosure, CFG, GroupsFit, Sorted, CallsFit, Finished;
  }

  lemma NoGroupsFit(plans: map<Name, Plan>, cs: seq<ContainerWithDeps>)
    ensures GroupsFit(CFG(), map[], plans, cs, map[])
  {
    forall id ensures GroupFits(CFG(), map[], plans, cs, map[], id) {
      NothingContributed(CFG(), map[], plans, cs, id);
    }
  }

  lemma IsRecreated()
    ensures RouteOf(CFG(), map[], map[], PLANS["web"]) == ViaRecreate
    ensures ComposeFits(CFG(), map[], Log())
    ensures Finished(CFG(), map[], map[], Candidate(), PLANS["web"], Standalone, Outcome()[0])
  {
  }

  lemma CallsAreMade()
    ensures StandaloneOf(Log()) == [Candidate()] && CallsFit(CFG(), Log())
  {
    var log := Log();
    var none: seq<ContainerWithDeps> := [];
    assert [Candidate()][..0] == none;
    assert StandaloneOf(log) == [Candidate()] && SelfUpdatesOf(log) == [];
    hide Select, StandaloneOf, SelfUpdatesOf, CFG, Candidate;
    assert ComposeOpsFit(map[], {}, []) && QueueFits(PLANS, [], []);
    BlocksAreMade();
    hide ComposeOpsFit, QueueFits, PhaseBlocks, Planned;
  }

  lemma BlocksAreMade()
    ensures Planned([Candidate()], PLANS)
    ensures PhaseBlocks([Candidate()], PLANS, Log().stops, Log().creates, Log().survivors)
  {
    assert StopBlocks([Candidate()], PLANS, 0, Log().stops);
    assert CreateBlocks([Candidate()], 1, Log().creates, Log().survivors);
  }

  lemma IsReported()
    ensures var log := Log();
      && StandaloneReported(CFG(), IMAGES, true, log, Outcome())
      && KeepsOthers(log.found, log.left, StandaloneOf(log), log.plans)
      && Planned(log.handled, log.plans)
      && AllReplaced(CFG(), true, IMAGES, FOUND.containers, log.left, log.handled, log.plans)
  {
    var log := Log();
    CallsAreMade();
    ProperSetting();
    hide CallsFit, TrimPrefix, TrimSpace, ProperView, ContainerSummaryName, StandaloneOf;
    assert IsReplacement(CFG(), true, IMAGES, PLANS["web"], NEW);
    assert SurvivorReported(CFG(), IMAGES, log, Candidate(), Outcome()[0], 0);
    assert StandsReported(CFG(), IMAGES, true, log, Candidate(), Outcome()[0]);
    assert OldID([Candidate()], PLANS, 0) == "x";
    assert ReplacesOne(CFG(), true, IMAGES, log.handled, log.plans, 1, NEW);
  }

  lemma DueAgain()
    ensures !StaysPut(CFG(), FOUND, REQUEST, PLANS["web"])
    ensures !NothingDue(map["y" := NEW], IMAGES, CFG(), REQUEST)
  {
    DueIsNext("y", NEW, "c", "ic");
    DueIsNext("x", NEW, "c", "ic");
    ProperSetting();
    hide DueRef, OnTarget, ProperID, TrimSpace, ProperView, ContainerSummaryName;
    assert Moved(OLD, IMAGES, "b") == NEW;
    OnTargetIsNotDue(CFG(), IMAGES, REQUEST, "x", NEW);
    assert !ShouldSkipSummary(CFG(), {}, "", SummaryOf("y", NEW));
    var left := map["y" := NEW];
    assert "y" in left && left["y"] == NEW;
  }
}
